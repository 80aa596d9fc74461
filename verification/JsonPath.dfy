/** Reading and writing one place in a JSON document by a textual path such as `a.b[0].c`. */
module JsonPath {
  import opened Common
  import opened Strings

  /** A token: the property key that JavaScript uses for it, and whether it was written as an index. */
  datatype Token = Token(key: string, isNumber: bool)

  // ---------- Reading and writing ----------

  function Property(props: map<string, Json>, key: string): Json {
    if key in props then props[key] else Undefined
  }

  /** Assignment to a property, or its deletion. */
  function WithProperty(props: map<string, Json>, key: string, value: Json): map<string, Json> {
    if value == Undefined then props - {key} else props[key := value]
  }

  lemma WriteTwice(props: map<string, Json>, key: string, first: Json, second: Json)
    ensures WithProperty(WithProperty(props, key, first), key, second) == WithProperty(props, key, second)
    ensures WithProperty(props[key := first], key, second) == WithProperty(props, key, second)
  {
  }

  lemma WriteApart(props: map<string, Json>, x: string, v: Json, y: string, w: Json)
    requires x != y
    ensures WithProperty(WithProperty(props, x, v), y, w) == WithProperty(WithProperty(props, y, w), x, v)
  {
  }

  /** `getValue` after tokenizing; `None` when it throws. */
  function GetAt(value: Json, tokens: seq<Token>): Option<Json>
    decreases |tokens|
  {
    if tokens == [] then Some(value)
    else
      match value
      case Undefined => Some(Undefined)
      case Node(_, props) => GetAt(Property(props, tokens[0].key), tokens[1..])
      case _ => None
  }

  /** What stands where the path goes on: an object, an array or null is kept, anything else is
      replaced by a new container. */
  function Descend(child: Json, next: Token): Json {
    if child.Node? || child.Null? then child else Node(next.isNumber, map[])
  }

  /** `setValue` after tokenizing; `None` when it throws. Setting undefined deletes. */
  function SetAt(node: Json, tokens: seq<Token>, value: Json): Option<Json>
    requires tokens != []
    decreases |tokens|
  {
    if !node.Node? then None
    else
      var key := tokens[0].key;
      if |tokens| == 1 then
        Some(node.(props := WithProperty(node.props, key, value)))
      else
        var child := SetAt(Descend(Property(node.props, key), tokens[1]), tokens[1..], value);
        if child.None? then None else Some(node.(props := node.props[key := child.value]))
  }

  /** A value can be written exactly if the root is a container and no null is on the way. */
  lemma {:induction false} SetSucceedsIff(root: Json, tokens: seq<Token>, value: Json)
    requires tokens != [] && root.Node?
    ensures SetAt(root, tokens, value).Some? <==> forall j :: 0 < j < |tokens| ==> GetAt(root, tokens[..j]) != Some(Null)
    decreases |tokens|
  {
    if |tokens| > 1 {
      var child := Property(root.props, tokens[0].key);
      var rest := tokens[1..];
      forall j | 0 < j < |tokens| ensures GetAt(root, tokens[..j]) == GetAt(child, rest[..j - 1]) {
        assert tokens[..j][1..] == rest[..j - 1];
      }
      var down := Descend(child, tokens[1]);
      if child.Null? {
        assert GetAt(root, tokens[..1]) == GetAt(child, rest[..0]) == Some(Null);
      } else {
        SetSucceedsIff(down, rest, value);
        assert forall j :: 0 < j < |tokens| - 1 ==> GetAt(root, tokens[..j + 1]) == GetAt(child, rest[..j]);
        if child != down {
          NothingBelow(child, down, rest);
        }
      }
    }
  }

  lemma NothingBelow(child: Json, down: Json, rest: seq<Token>)
    requires !child.Node? && !child.Null? && down.Node? && down.props == map[]
    ensures forall j :: 0 < j <= |rest| ==> GetAt(child, rest[..j]) != Some(Null) && GetAt(down, rest[..j]) == Some(Undefined)
  {
    forall j | 0 < j <= |rest| ensures GetAt(child, rest[..j]) != Some(Null) && GetAt(down, rest[..j]) == Some(Undefined) {
      UndefinedBelow(rest[..j][1..]);
    }
  }

  lemma UndefinedBelow(tokens: seq<Token>)
    ensures GetAt(Undefined, tokens) == Some(Undefined)
  {
  }

  /** What was written is read back, and below the place the written value is seen. */
  lemma {:induction false} PutGet(root: Json, tokens: seq<Token>, value: Json, below: seq<Token>)
    requires tokens != [] && SetAt(root, tokens, value).Some?
    ensures GetAt(SetAt(root, tokens, value).value, tokens + below) == GetAt(value, below)
    decreases |tokens|
  {
    assert (tokens + below)[1..] == tokens[1..] + below;
    if |tokens| == 1 {
      assert tokens[1..] + below == below;
    } else {
      PutGet(Descend(Property(root.props, tokens[0].key), tokens[1]), tokens[1..], value, below);
    }
  }

  /** The second of two writes to one place wins. */
  lemma {:induction false} PutPut(root: Json, tokens: seq<Token>, first: Json, second: Json)
    requires tokens != [] && SetAt(root, tokens, first).Some?
    ensures SetAt(SetAt(root, tokens, first).value, tokens, second) == SetAt(root, tokens, second)
    decreases |tokens|
  {
    var key := tokens[0].key;
    WriteTwice(root.props, key, first, second);
    if |tokens| > 1 {
      var down := Descend(Property(root.props, key), tokens[1]);
      PutPut(down, tokens[1..], first, second);
      var child := SetAt(down, tokens[1..], first).value;
      assert child.Node?;
      var again := SetAt(down, tokens[1..], second);
      if again.Some? {
        WriteTwice(root.props, key, child, again.value);
      }
    }
  }

  /** Writing what is there already changes nothing. */
  lemma {:induction false} GetPut(root: Json, tokens: seq<Token>)
    requires tokens != [] && GetAt(root, tokens).Some? && GetAt(root, tokens) != Some(Undefined)
    ensures SetAt(root, tokens, GetAt(root, tokens).value) == Some(root)
    decreases |tokens|
  {
    var child := Property(root.props, tokens[0].key);
    if |tokens| == 1 {
      assert root.props[tokens[0].key := child] == root.props;
    } else {
      GetPut(child, tokens[1..]);
      assert root.props[tokens[0].key := child] == root.props;
    }
  }

  /** On the way of a write every container that was there keeps its kind, and one that had to be created is an
      array exactly if the next token was written as an index. */
  lemma {:induction false} CreatedKinds(root: Json, p: seq<Token>, value: Json, j: nat)
    requires p != [] && SetAt(root, p, value).Some? && j < |p|
    ensures var before, after := GetAt(root, p[..j]), GetAt(SetAt(root, p, value).value, p[..j]);
      && after.Some? && after.value.Node?
      && after.value.isArray == if before.Some? && before.value.Node? then before.value.isArray else p[j].isNumber
    decreases j
  {
    if j > 0 {
      var child := Property(root.props, p[0].key);
      var down := Descend(child, p[1]);
      assert p[..j][1..] == p[1..][..j - 1];
      CreatedKinds(down, p[1..], value, j - 1);
      if child != down && j > 1 { NothingBelow(child, down, p[1..]); }
    }
  }

  // ---------- Diverging paths ----------

  /** The paths have the same first `k` keys and then part. */
  predicate Diverge(p: seq<Token>, q: seq<Token>, k: nat) {
    && k < |p| && k < |q|
    && (forall i :: 0 <= i < k ==> p[i].key == q[i].key)
    && p[k].key != q[k].key
  }

  predicate IsPrimitive(value: Json) {
    !value.Undefined? && !value.Null? && !value.Node?
  }

  /** Somewhere on the first `k` keys of the path there is a number, text or truth value. */
  predicate Blocked(root: Json, p: seq<Token>, k: nat)
    requires k <= |p|
    decreases k
  {
    k > 0 && root.Node? && (IsPrimitive(Property(root.props, p[0].key)) || Blocked(Property(root.props, p[0].key), p[1..], k - 1))
  }

  /** A write changes nothing that a diverging path reads, except that a primitive on the common part,
      which made the reader throw, has become a container in which the reader finds nothing. */
  lemma {:induction false} Frame(root: Json, p: seq<Token>, value: Json, q: seq<Token>, k: nat)
    requires p != [] && SetAt(root, p, value).Some? && Diverge(p, q, k)
    ensures GetAt(SetAt(root, p, value).value, q) == if Blocked(root, p, k) then Some(Undefined) else GetAt(root, q)
    ensures Blocked(root, p, k) ==> GetAt(root, q) == None
    decreases k
  {
    if k > 0 {
      var child := Property(root.props, p[0].key);
      var down := Descend(child, p[1]);
      assert Diverge(p[1..], q[1..], k - 1);
      Frame(down, p[1..], value, q[1..], k - 1);
      if child != down {
        assert !Blocked(down, p[1..], k - 1);
        UndefinedBelow(q[2..]);
        assert q[1..][1..] == q[2..];
      }
    }
  }

  /** Writes to two places below containers that exist do not depend on their order. */
  lemma {:induction false} WritesCommute(root: Json, p: seq<Token>, v: Json, q: seq<Token>, w: Json, k: nat)
    requires Diverge(p, q, k) && GetAt(root, p[..k]).Some? && GetAt(root, p[..k]).value.Node?
    requires SetAt(root, p, v).Some? && SetAt(root, q, w).Some?
    ensures SetAt(SetAt(root, p, v).value, q, w).Some?
    ensures SetAt(SetAt(root, p, v).value, q, w) == SetAt(SetAt(root, q, w).value, p, v)
    decreases k
  {
    if k == 0 {
      CommuteHere(root, p, v, q, w);
    } else {
      var key := p[0].key;
      var child := Property(root.props, key);
      assert p[..k][1..] == p[1..][..k - 1];
      assert Diverge(p[1..], q[1..], k - 1);
      WriteBelow(root, p, v);
      WriteBelow(root, q, w);
      WritesCommute(child, p[1..], v, q[1..], w, k - 1);
      var a, b := SetAt(child, p[1..], v).value, SetAt(child, q[1..], w).value;
      WriteBelow(root.(props := root.props[key := a]), q, w);
      WriteBelow(root.(props := root.props[key := b]), p, v);
      var both := SetAt(a, q[1..], w).value;
      assert root.props[key := a][key := both] == root.props[key := b][key := both];
    }
  }

  lemma WriteBelow(root: Json, p: seq<Token>, v: Json)
    requires |p| > 1 && root.Node? && Property(root.props, p[0].key).Node?
    ensures var c := SetAt(Property(root.props, p[0].key), p[1..], v);
      SetAt(root, p, v) == if c.None? then None else Some(root.(props := root.props[p[0].key := c.value]))
  {
  }

  lemma CommuteHere(root: Json, p: seq<Token>, v: Json, q: seq<Token>, w: Json)
    requires p != [] && q != [] && p[0].key != q[0].key && SetAt(root, p, v).Some? && SetAt(root, q, w).Some?
    ensures SetAt(SetAt(root, p, v).value, q, w).Some?
    ensures SetAt(SetAt(root, p, v).value, q, w) == SetAt(SetAt(root, q, w).value, p, v)
  {
    var x := OneProperty(root, p, v);
    var y := OneProperty(root, q, w);
    var a := root.(props := WithProperty(root.props, p[0].key, x));
    var b := root.(props := WithProperty(root.props, q[0].key, y));
    SameProperty(root, a, q, w, y);
    SameProperty(root, b, p, v, x);
    WriteApart(root.props, p[0].key, x, q[0].key, y);
  }

  /** A write assigns to, or deletes, the property that its path begins with. */
  lemma OneProperty(root: Json, p: seq<Token>, v: Json) returns (x: Json)
    requires p != [] && SetAt(root, p, v).Some?
    ensures SetAt(root, p, v) == Some(root.(props := WithProperty(root.props, p[0].key, x)))
    ensures x == if |p| == 1 then v else SetAt(Descend(Property(root.props, p[0].key), p[1]), p[1..], v).value
  {
    x := if |p| == 1 then v else SetAt(Descend(Property(root.props, p[0].key), p[1]), p[1..], v).value;
  }

  /** It does so depending on that property alone. */
  lemma SameProperty(root: Json, other: Json, p: seq<Token>, v: Json, x: Json)
    requires p != [] && root.Node? && other.Node? && Property(root.props, p[0].key) == Property(other.props, p[0].key)
    requires SetAt(root, p, v).Some?
    requires x == if |p| == 1 then v else SetAt(Descend(Property(root.props, p[0].key), p[1]), p[1..], v).value
    ensures SetAt(other, p, v) == Some(other.(props := WithProperty(other.props, p[0].key, x)))
  {
  }
}
