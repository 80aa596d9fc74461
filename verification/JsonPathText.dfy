/** The text of a path, and what its tokens are. */
module JsonPathText {
  import opened Common
  import opened Strings
  import opened JsonPath

  /** What JavaScript's `trim` removes. */
  predicate IsSpace(c: char) {
    var n := c as int;
    || 9 <= n <= 13 || n == 0x20 || n == 0xA0 || n == 0x1680 || 0x2000 <= n <= 0x200A
    || n == 0x2028 || n == 0x2029 || n == 0x202F || n == 0x205F || n == 0x3000 || n == 0xFEFF
  }

  function TrimStart(s: string): string {
    if s != "" && IsSpace(s[0]) then TrimStart(s[1..]) else s
  }

  function TrimEnd(s: string): string {
    if s != "" && IsSpace(s[|s| - 1]) then TrimEnd(s[..|s| - 1]) else s
  }

  function Trim(s: string): string {
    TrimEnd(TrimStart(s))
  }

  predicate IsBracket(c: char) {
    c == '[' || c == ']'
  }

  function SplitBrackets(s: string): (pieces: seq<string>)
    ensures pieces != []
  {
    if s == "" then [""]
    else Extend(s[0], SplitBrackets(s[1..]))
  }

  /** The pieces with one more character in front. */
  function Extend(c: char, pieces: seq<string>): (r: seq<string>)
    requires pieces != []
    ensures r != []
  {
    if IsBracket(c) then [""] + pieces else [[c] + pieces[0]] + pieces[1..]
  }

  lemma ExtendFirst(c: char, a: seq<string>, b: seq<string>)
    requires a != []
    ensures Extend(c, a + b) == Extend(c, a) + b
  {
  }

  /** The property key of `Number(text)`; `number` says it for text that is no natural number. */
  function NumberKey(text: string, number: string -> string): string {
    if IsDecimal(text) then Digits(Natural(text)) else number(text)
  }

  function IndexTokens(pieces: seq<string>, number: string -> string): seq<Token>
    decreases |pieces|
  {
    if pieces == [] then []
    else
      var last := pieces[|pieces| - 1];
      IndexTokens(pieces[..|pieces| - 1], number) + (if last == "" then [] else [Token(NumberKey(last, number), true)])
  }

  function PartTokens(part: string, number: string -> string): seq<Token> {
    var text := Trim(part);
    if text == "" then []
    else
      var pieces := SplitBrackets(text);
      [Token(pieces[0], false)] + IndexTokens(pieces[1..], number)
  }

  function PartsTokens(parts: seq<string>, number: string -> string): seq<Token>
    decreases |parts|
  {
    if parts == [] then [] else PartsTokens(parts[..|parts| - 1], number) + PartTokens(parts[|parts| - 1], number)
  }

  function Tokenize(path: string, number: string -> string): seq<Token> {
    PartsTokens(Split(path, '.'), number)
  }

  /** Without tokens the write goes to the property that JavaScript calls "undefined". */
  function SetValue(root: Json, path: string, value: Json, number: string -> string): Option<Json> {
    var tokens := Tokenize(path, number);
    SetAt(root, if tokens == [] then [Token("undefined", false)] else tokens, value)
  }

  // ---------- The methods ----------

  method TokenizeLoop(path: string, number: string -> string) returns (tokens: seq<Token>)
    ensures tokens == Tokenize(path, number)
  {
    tokens := [];
    var parts := Split(path, '.');
    for i := 0 to |parts|
      invariant tokens == PartsTokens(parts[..i], number)
    {
      PartsSnoc(parts, i, number);
      var part := Trim(parts[i]);
      if |part| > 0 {
        var arrayIndexes := SplitBrackets(part);
        var indexTokens := IndexLoop(arrayIndexes, number);
        tokens := tokens + ([Token(arrayIndexes[0], false)] + indexTokens);
      }
    }
    assert parts[..|parts|] == parts;
  }

  lemma PartsSnoc(parts: seq<string>, i: nat, number: string -> string)
    requires i < |parts|
    ensures PartsTokens(parts[..i + 1], number) == PartsTokens(parts[..i], number) + PartTokens(parts[i], number)
    ensures Trim(parts[i]) == "" ==> PartsTokens(parts[..i + 1], number) == PartsTokens(parts[..i], number)
  {
    assert parts[..i + 1][..i] == parts[..i];
  }

  /** The pieces after the first. */
  method IndexLoop(arrayIndexes: seq<string>, number: string -> string) returns (tokens: seq<Token>)
    requires arrayIndexes != []
    ensures tokens == IndexTokens(arrayIndexes[1..], number)
  {
    tokens := [];
    var j := 1;
    while j < |arrayIndexes|
      invariant 1 <= j <= |arrayIndexes|
      invariant tokens == IndexTokens(arrayIndexes[1..j], number)
    {
      assert arrayIndexes[1..j + 1][..j - 1] == arrayIndexes[1..j];
      if |arrayIndexes[j]| > 0 {
        tokens := tokens + [Token(NumberKey(arrayIndexes[j], number), true)];
      }
      j := j + 1;
    }
    assert arrayIndexes[1..j] == arrayIndexes[1..];
  }

  /** `None` when it throws. */
  method GetValue(data: Json, path: string, number: string -> string) returns (r: Option<Json>)
    ensures r == GetAt(data, Tokenize(path, number))
  {
    var tokens := TokenizeLoop(path, number);
    var value := data;
    var i := 0;
    while i < |tokens|
      invariant 0 <= i <= |tokens|
      invariant GetAt(value, tokens[i..]) == GetAt(data, tokens)
    {
      assert tokens[i..][1..] == tokens[i + 1..];
      if value.Undefined? {
        return Some(Undefined);
      }
      if !value.Node? {
        return None;
      }
      value := Property(value.props, tokens[i].key);
      i := i + 1;
    }
    return Some(value);
  }

  // ---------- Printing ----------

  /** A key with the indices that follow it. */
  datatype Segment = Segment(key: string, indices: seq<nat>)

  function Brackets(indices: seq<nat>): string
    decreases |indices|
  {
    if indices == [] then "" else Brackets(indices[..|indices| - 1]) + "[" + Digits(indices[|indices| - 1]) + "]"
  }

  function SegmentText(segment: Segment): string {
    segment.key + Brackets(segment.indices)
  }

  function Texts(segments: seq<Segment>): seq<string> {
    seq(|segments|, i requires 0 <= i < |segments| => SegmentText(segments[i]))
  }

  function PrintPath(segments: seq<Segment>): string {
    if segments == [] then "" else Join(Texts(segments), '.')
  }

  function IndicesAsTokens(indices: seq<nat>): seq<Token> {
    seq(|indices|, i requires 0 <= i < |indices| => Token(Digits(indices[i]), true))
  }

  function SegmentTokens(segment: Segment): seq<Token> {
    [Token(segment.key, false)] + IndicesAsTokens(segment.indices)
  }

  function PathTokens(segments: seq<Segment>): seq<Token>
    decreases |segments|
  {
    if segments == [] then [] else PathTokens(segments[..|segments| - 1]) + SegmentTokens(segments[|segments| - 1])
  }

  /** No dot and no bracket. */
  predicate Plain(segment: Segment) {
    Clean(segment.key, '.') && Clean(segment.key, '[') && Clean(segment.key, ']')
  }

  /** Not blank, no space in front, and none at the end unless an index follows. */
  predicate Firm(segment: Segment) {
    && (segment.key == "" ==> segment.indices != [])
    && (segment.key != "" ==> !IsSpace(segment.key[0]) && (segment.indices == [] ==> !IsSpace(segment.key[|segment.key| - 1])))
  }

  lemma {:induction false} NoBrackets(s: string)
    requires Clean(s, '[') && Clean(s, ']')
    ensures SplitBrackets(s) == [s]
  {
    if s != "" {
      NoBrackets(s[1..]);
      assert s == [s[0]] + s[1..];
    }
  }

  /** Splitting at the last bracket. */
  lemma {:induction false} BracketsBefore(s: string, bracket: char, rest: string)
    requires IsBracket(bracket)
    ensures SplitBrackets(s + [bracket] + rest) == SplitBrackets(s) + SplitBrackets(rest)
  {
    var all := s + [bracket] + rest;
    if s == "" {
      assert all[1..] == rest;
    } else {
      BracketsBefore(s[1..], bracket, rest);
      ExtendFirst(s[0], SplitBrackets(s[1..]), SplitBrackets(rest));
      assert all[1..] == s[1..] + [bracket] + rest;
    }
  }

  lemma IndexTokensSnoc(pieces: seq<string>, n: nat, number: string -> string)
    ensures IndexTokens(pieces + [Digits(n), ""], number) == IndexTokens(pieces, number) + [Token(Digits(n), true)]
  {
    NaturalOfDigits(n);
    assert (pieces + [Digits(n), ""])[..|pieces| + 1] == pieces + [Digits(n)];
    assert (pieces + [Digits(n)])[..|pieces|] == pieces;
  }

  lemma OneMoreIndex(s: string, n: nat)
    ensures SplitBrackets(s + "[" + Digits(n) + "]") == SplitBrackets(s) + [Digits(n), ""]
  {
    NaturalOfDigits(n);
    var d := Digits(n);
    NoBrackets(d);
    BracketsBefore(d, ']', "");
    assert d + [']'] + "" == d + "]";
    assert SplitBrackets("") == [""];
    BracketsBefore(s, '[', d + "]");
    assert s + ['['] + (d + "]") == s + "[" + d + "]";
    assert SplitBrackets(d + "]") == [d, ""];
  }

  lemma BracketsSnoc(key: string, indices: seq<nat>)
    requires indices != []
    ensures key + Brackets(indices) ==
            key + Brackets(indices[..|indices| - 1]) + "[" + Digits(indices[|indices| - 1]) + "]"
  {
    Assoc(key, Brackets(indices[..|indices| - 1]), Digits(indices[|indices| - 1]));
  }

  lemma Assoc(a: string, b: string, c: string)
    ensures a + (b + "[" + c + "]") == a + b + "[" + c + "]"
  {
  }

  lemma IndicesSnoc(indices: seq<nat>)
    requires indices != []
    ensures IndicesAsTokens(indices) ==
            IndicesAsTokens(indices[..|indices| - 1]) + [Token(Digits(indices[|indices| - 1]), true)]
  {
  }

  /** A key and its indices come apart as they were put together. */
  lemma {:induction false} Pieces(key: string, indices: seq<nat>, number: string -> string)
    requires Clean(key, '[') && Clean(key, ']')
    ensures var pieces := SplitBrackets(key + Brackets(indices));
      pieces[0] == key && IndexTokens(pieces[1..], number) == IndicesAsTokens(indices)
    decreases |indices|
  {
    if indices == [] {
      NoBrackets(key);
      assert key + "" == key;
    } else {
      var before, n := indices[..|indices| - 1], indices[|indices| - 1];
      Pieces(key, before, number);
      var pieces := SplitBrackets(key + Brackets(before));
      OneMoreIndex(key + Brackets(before), n);
      BracketsSnoc(key, indices);
      assert (pieces + [Digits(n), ""])[1..] == pieces[1..] + [Digits(n), ""];
      IndexTokensSnoc(pieces[1..], n, number);
      IndicesSnoc(indices);
    }
  }

  // ---------- Trimming ----------

  function Trimmed(segment: Segment): string {
    if segment.indices == [] then Trim(segment.key) else TrimStart(segment.key)
  }

  lemma {:induction false} TrimStartBefore(key: string, rest: string)
    requires rest != "" && !IsSpace(rest[0])
    ensures TrimStart(key + rest) == TrimStart(key) + rest
  {
    if key != "" && IsSpace(key[0]) {
      TrimStartBefore(key[1..], rest);
      assert (key + rest)[1..] == key[1..] + rest;
    } else if key == "" {
      assert key + rest == rest;
    }
  }

  lemma BracketsEnds(indices: seq<nat>)
    requires indices != []
    ensures var b := Brackets(indices); b[0] == '[' && b[|b| - 1] == ']'
    decreases |indices|
  {
    if |indices| > 1 {
      BracketsEnds(indices[..|indices| - 1]);
    }
  }

  lemma SegmentTrims(segment: Segment)
    ensures Trim(SegmentText(segment)) == Trimmed(segment) + Brackets(segment.indices)
  {
    var b := Brackets(segment.indices);
    if segment.indices == [] {
      assert segment.key + "" == segment.key;
      assert Trimmed(segment) + "" == Trimmed(segment);
    } else {
      BracketsEnds(segment.indices);
      TrimStartBefore(segment.key, b);
      var s := TrimStart(segment.key) + b;
      assert s[|s| - 1] == ']';
    }
  }

  lemma {:induction false} TrimStartPart(s: string, c: char)
    requires Clean(s, c)
    ensures Clean(TrimStart(s), c) && |TrimStart(s)| <= |s| && (TrimStart(s) != s ==> |TrimStart(s)| < |s|)
    ensures TrimStart(s) == s <==> (s == "" || !IsSpace(s[0]))
  {
    if s != "" && IsSpace(s[0]) { TrimStartPart(s[1..], c); }
  }

  lemma {:induction false} TrimEndPart(s: string, c: char)
    requires Clean(s, c)
    ensures Clean(TrimEnd(s), c) && |TrimEnd(s)| <= |s|
    ensures TrimEnd(s) == s <==> (s == "" || !IsSpace(s[|s| - 1]))
  {
    if s != "" && IsSpace(s[|s| - 1]) { TrimEndPart(s[..|s| - 1], c); }
  }

  lemma TrimmedPart(segment: Segment, c: char)
    requires Clean(segment.key, c)
    ensures Clean(Trimmed(segment), c)
    ensures Firm(segment) <==> Trimmed(segment) == segment.key && (segment.key != "" || segment.indices != [])
  {
    TrimStartPart(segment.key, c);
    TrimEndPart(TrimStart(segment.key), c);
  }

  /** What one printed segment becomes, whatever its spaces. */
  lemma SegmentReads(segment: Segment, number: string -> string)
    requires Plain(segment)
    ensures PartTokens(SegmentText(segment), number) ==
            if Trimmed(segment) == "" && segment.indices == [] then []
            else SegmentTokens(Segment(Trimmed(segment), segment.indices))
  {
    SegmentTrims(segment);
    TrimmedPart(segment, '[');
    TrimmedPart(segment, ']');
    Pieces(Trimmed(segment), segment.indices, number);
    if segment.indices != [] { BracketsEnds(segment.indices); }
  }

  lemma SegmentReadsIff(segment: Segment, number: string -> string)
    requires Plain(segment)
    ensures |PartTokens(SegmentText(segment), number)| <= |SegmentTokens(segment)|
    ensures PartTokens(SegmentText(segment), number) == SegmentTokens(segment) <==> Firm(segment)
  {
    SegmentReads(segment, number);
    TrimmedPart(segment, '.');
    assert |SegmentTokens(segment)| == 1 + |segment.indices| && SegmentTokens(segment)[0].key == segment.key;
    var trimmed := SegmentTokens(Segment(Trimmed(segment), segment.indices));
    assert |trimmed| == 1 + |segment.indices| && trimmed[0].key == Trimmed(segment);
    if Firm(segment) {
      assert Segment(Trimmed(segment), segment.indices) == segment;
    } else if Trimmed(segment) == segment.key {
      assert segment.key == "" && segment.indices == [];
    }
  }

  lemma {:induction false} BracketsClean(indices: seq<nat>)
    ensures Clean(Brackets(indices), '.')
    decreases |indices|
  {
    if indices != [] {
      BracketsClean(indices[..|indices| - 1]);
      NaturalOfDigits(indices[|indices| - 1]);
    }
  }

  lemma LastPart(segments: seq<Segment>, number: string -> string)
    requires segments != []
    ensures PartsTokens(Texts(segments), number) ==
            PartsTokens(Texts(segments[..|segments| - 1]), number) + PartTokens(SegmentText(segments[|segments| - 1]), number)
  {
    assert Texts(segments)[..|segments| - 1] == Texts(segments[..|segments| - 1]);
  }

  predicate AllFirm(segments: seq<Segment>) {
    forall i :: 0 <= i < |segments| ==> Firm(segments[i])
  }

  lemma AllFirmSnoc(segments: seq<Segment>)
    requires segments != []
    ensures AllFirm(segments) <==> AllFirm(segments[..|segments| - 1]) && Firm(segments[|segments| - 1])
  {
  }

  /** The printed path's tokens are those of its segments; there are never more than were printed, and
      they are the same exactly if every segment is firm. */
  lemma {:induction false} PartsRead(segments: seq<Segment>, number: string -> string)
    requires forall i :: 0 <= i < |segments| ==> Plain(segments[i])
    ensures var read := PartsTokens(Texts(segments), number);
      && |read| <= |PathTokens(segments)|
      && (read == PathTokens(segments) <==> AllFirm(segments))
    decreases |segments|
  {
    if segments != [] {
      var before, last := segments[..|segments| - 1], segments[|segments| - 1];
      PartsRead(before, number);
      SegmentReadsIff(last, number);
      SumsMatch(PartsTokens(Texts(before), number), PartTokens(SegmentText(last), number), PathTokens(before), SegmentTokens(last));
      LastPart(segments, number);
      AllFirmSnoc(segments);
    }
  }

  lemma SumsMatch(a: seq<Token>, b: seq<Token>, c: seq<Token>, d: seq<Token>)
    requires |a| <= |c| && |b| <= |d|
    ensures a + b == c + d <==> a == c && b == d
  {
    if a + b == c + d {
      assert a == (a + b)[..|a|] && c == (c + d)[..|a|];
      assert b == (a + b)[|a|..] && d == (c + d)[|a|..];
    }
  }

  lemma PrintedParts(segments: seq<Segment>, number: string -> string)
    requires segments != [] && forall i :: 0 <= i < |segments| ==> Plain(segments[i])
    ensures Split(PrintPath(segments), '.') == Texts(segments)
  {
    forall i | 0 <= i < |segments| ensures Clean(Texts(segments)[i], '.') {
      BracketsClean(segments[i].indices);
    }
    SplitOfJoin(Texts(segments), '.');
  }

  /** `tokenize` inverts the printing of dotted keys with bracketed indices exactly if no segment is
      blank, and none begins with a space or, without an index, ends with one. */
  lemma TokenizeInvertsIff(segments: seq<Segment>, number: string -> string)
    requires forall i :: 0 <= i < |segments| ==> Plain(segments[i])
    ensures Tokenize(PrintPath(segments), number) == PathTokens(segments) <==> AllFirm(segments)
  {
    PartsRead(segments, number);
    if segments == [] {
      assert PartTokens("", number) == [];
      assert [""][..0] == [];
    } else {
      PrintedParts(segments, number);
    }
  }

  // ---------- Writing by text ----------

  /** After a successful write the path reads as the written value. */
  lemma SetThenGet(root: Json, path: string, value: Json, number: string -> string)
    requires SetValue(root, path, value, number).Some? && Tokenize(path, number) != []
    ensures GetAt(SetValue(root, path, value, number).value, Tokenize(path, number)) == Some(value)
  {
    var tokens := Tokenize(path, number);
    PutGet(root, tokens, value, []);
    assert tokens + [] == tokens;
  }
}
