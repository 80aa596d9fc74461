/** Splitting and joining text at a separator, and decimal integers, as the text protocol uses them. */
module Strings {

  predicate Clean(s: string, separator: char) {
    forall i :: 0 <= i < |s| ==> s[i] != separator
  }

  function Split(s: string, separator: char): (parts: seq<string>)
    ensures parts != []
  {
    if s == "" then [""]
    else
      var rest := Split(s[1..], separator);
      if s[0] == separator then [""] + rest else [[s[0]] + rest[0]] + rest[1..]
  }

  function Join(parts: seq<string>, separator: char): string
    requires parts != []
  {
    if |parts| == 1 then parts[0] else parts[0] + [separator] + Join(parts[1..], separator)
  }

  /** Every text followed by the separator. */
  function Concat(texts: seq<string>, separator: char): string {
    if texts == [] then "" else texts[0] + [separator] + Concat(texts[1..], separator)
  }

  lemma {:induction false} SplitOne(s: string, separator: char)
    requires Clean(s, separator)
    ensures Split(s, separator) == [s]
  {
    if s != "" {
      SplitOne(s[1..], separator);
      assert s == [s[0]] + s[1..];
    }
  }

  lemma {:induction false} SplitFirst(s: string, separator: char, rest: string)
    requires Clean(s, separator)
    ensures Split(s + [separator] + rest, separator) == [s] + Split(rest, separator)
  {
    var all := s + [separator] + rest;
    if s == "" {
      assert all[1..] == rest;
    } else {
      SplitFirst(s[1..], separator, rest);
      assert all[1..] == s[1..] + [separator] + rest;
      assert s == [s[0]] + s[1..];
    }
  }

  /** Text without the separator comes apart exactly where it was joined. */
  lemma {:induction false} SplitOfJoin(parts: seq<string>, separator: char)
    requires parts != [] && forall i :: 0 <= i < |parts| ==> Clean(parts[i], separator)
    ensures Split(Join(parts, separator), separator) == parts
  {
    if |parts| == 1 {
      SplitOne(parts[0], separator);
    } else {
      SplitFirst(parts[0], separator, Join(parts[1..], separator));
      SplitOfJoin(parts[1..], separator);
    }
  }

  lemma {:induction false} SplitOfConcat(texts: seq<string>, separator: char)
    requires forall i :: 0 <= i < |texts| ==> Clean(texts[i], separator)
    ensures Split(Concat(texts, separator), separator) == texts + [""]
  {
    if texts != [] {
      SplitFirst(texts[0], separator, Concat(texts[1..], separator));
      SplitOfConcat(texts[1..], separator);
    }
  }

  lemma {:induction false} CleanJoin(parts: seq<string>, separator: char, other: char)
    requires parts != [] && separator != other && forall i :: 0 <= i < |parts| ==> Clean(parts[i], other)
    ensures Clean(Join(parts, separator), other)
  {
    if |parts| > 1 {
      CleanJoin(parts[1..], separator, other);
    }
  }

  // ---------- Decimal integers ----------

  predicate IsDigit(c: char) {
    '0' <= c <= '9'
  }

  predicate IsDecimal(s: string) {
    s != "" && forall i :: 0 <= i < |s| ==> IsDigit(s[i])
  }

  predicate IsInteger(s: string) {
    IsDecimal(s) || (s != "" && s[0] == '-' && IsDecimal(s[1..]))
  }

  function Digit(d: nat): (c: char)
    requires d < 10
    ensures IsDigit(c)
  {
    ('0' as int + d) as char
  }

  function ValueOf(c: char): (d: nat)
    requires IsDigit(c)
    ensures d < 10 && Digit(d) == c
  {
    c as int - '0' as int
  }

  function Digits(n: nat): string {
    if n < 10 then [Digit(n)] else Digits(n / 10) + [Digit(n % 10)]
  }

  function Natural(s: string): nat
    requires forall i :: 0 <= i < |s| ==> IsDigit(s[i])
  {
    if s == "" then 0 else Natural(s[..|s| - 1]) * 10 + ValueOf(s[|s| - 1])
  }

  function Print(n: int): string {
    if n < 0 then "-" + Digits(-n) else Digits(n)
  }

  function Value(s: string): int
    requires IsInteger(s)
  {
    if s[0] == '-' then 0 - Natural(s[1..]) else Natural(s)
  }

  lemma {:induction false} NaturalOfDigits(n: nat)
    ensures IsDecimal(Digits(n)) && Natural(Digits(n)) == n
  {
    if n < 10 {
      assert Digits(n)[..0] == "";
    } else {
      NaturalOfDigits(n / 10);
      var s := Digits(n);
      assert s[..|s| - 1] == Digits(n / 10);
    }
  }

  /** An integer's text is an integer's text, and reads as that integer. */
  lemma ValueOfPrint(n: int)
    ensures IsInteger(Print(n)) && Value(Print(n)) == n
    ensures forall c :: !IsDigit(c) && c != '-' ==> Clean(Print(n), c)
  {
    NaturalOfDigits(if n < 0 then -n else n);
    if n < 0 {
      assert Print(n)[1..] == Digits(-n);
    }
  }
}
