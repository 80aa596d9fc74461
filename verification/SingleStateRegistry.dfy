/** The registry of a server without a cluster, a plain map of counts, and the distributed registry
    compared with it. */
module SingleStateRegistry {
  import opened Common
  import D = StateRegistry

  /** A JavaScript number: taking one from a missing entry makes NaN, and NaN is stored. */
  datatype Count = Num(n: int) | NaN

  datatype Single = Single(data: map<string, Count>, log: D.Log)

  datatype Call = Add(name: string) | Remove(name: string)

  predicate Falsy(c: Count) {
    c == NaN || c == Num(0)
  }

  function SingleStep(r: Single, c: Call): Single {
    match c
    case Add(name) =>
      if name !in r.data || Falsy(r.data[name]) then Single(r.data[name := Num(1)], D.After(r.log, D.Added(name)))
      else r.(data := r.data[name := Num(r.data[name].n + 1)])
    case Remove(name) =>
      var current := if name in r.data && r.data[name].Num? then Num(r.data[name].n - 1) else NaN;
      if current == Num(0) then Single(r.data - {name}, D.After(r.log, D.Removed(name)))
      else r.(data := r.data[name := current])
  }

  function RunSingle(calls: seq<Call>): Single
    decreases |calls|
  {
    if calls == [] then Single(map[], D.Start) else SingleStep(RunSingle(calls[..|calls| - 1]), calls[|calls| - 1])
  }

  function DistributedStep(r: D.Registry, c: Call): D.Registry {
    match c
    case Add(name) => D.Add(r, name).0
    case Remove(name) => D.Remove(r, name).0
  }

  /** The distributed registry of a server that is alone: it gets no messages. */
  function RunAlone(self: string, calls: seq<Call>): D.Registry
    decreases |calls|
  {
    if calls == [] then D.Empty(self) else DistributedStep(RunAlone(self, calls[..|calls| - 1]), calls[|calls| - 1])
  }

  /** No name is removed more often than it was added. */
  predicate Balanced(calls: seq<Call>)
    decreases |calls|
  {
    calls == [] ||
    var before := calls[..|calls| - 1]; var c := calls[|calls| - 1];
    Balanced(before) && (c.Remove? ==> Surplus(before, c.name) > 0)
  }

  /** Additions minus removals of one name. */
  function Surplus(calls: seq<Call>, x: string): int
    decreases |calls|
  {
    if calls == [] then 0
    else
      var c := calls[|calls| - 1];
      Surplus(calls[..|calls| - 1], x) + (if c.name != x then 0 else if c.Add? then 1 else -1)
  }

  /** The names of the add and remove events, oldest first, with true for an add. */
  function Changes(log: D.Log): seq<(string, bool)> {
    match log
    case Start => []
    case After(past, Added(name)) => Changes(past) + [(name, true)]
    case After(past, Removed(name)) => Changes(past) + [(name, false)]
    case After(past, _) => Changes(past)
  }

  /** The two registries, and the count of calls, say the same. */
  ghost predicate Same(r: D.Registry, s: Single, calls: seq<Call>) {
    && r.data.Keys == s.data.Keys
    && Changes(r.log) == Changes(s.log)
    && (forall n :: n in r.data ==>
          r.data[n].nodes == {r.self} && r.data[n].localCount > 0 && s.data[n] == Num(r.data[n].localCount))
    && (forall n :: Surplus(calls, n) == Local(r, n))
  }

  function Local(r: D.Registry, name: string): int {
    if name in r.data then r.data[name].localCount else 0
  }

  lemma SurplusSnoc(calls: seq<Call>, c: Call, x: string)
    ensures Surplus(calls + [c], x) == Surplus(calls, x) + (if c.name != x then 0 else if c.Add? then 1 else -1)
  {
    assert (calls + [c])[..|calls|] == calls;
  }

  lemma AddSame(r: D.Registry, s: Single, calls: seq<Call>, name: string)
    requires Same(r, s, calls)
    ensures Same(D.Add(r, name).0, SingleStep(s, Add(name)), calls + [Add(name)])
  {
    var u := D.Add(r, name).0;
    forall n ensures Surplus(calls + [Add(name)], n) == Local(u, n) {
      SurplusSnoc(calls, Add(name), n);
    }
  }

  lemma RemoveSame(r: D.Registry, s: Single, calls: seq<Call>, name: string)
    requires Same(r, s, calls) && Surplus(calls, name) > 0
    ensures Same(D.Remove(r, name).0, SingleStep(s, Remove(name)), calls + [Remove(name)])
  {
    var u, s' := D.Remove(r, name).0, SingleStep(s, Remove(name));
    assert name in r.data;
    if r.data[name].localCount == 1 {
      LastRemoval(r, name);
      assert s'.data == s.data - {name};
    } else {
      assert u == r.(data := r.data[name := r.data[name].(localCount := r.data[name].localCount - 1)]);
    }
    forall n ensures Surplus(calls + [Remove(name)], n) == Local(u, n) {
      SurplusSnoc(calls, Remove(name), n);
    }
  }

  lemma LastRemoval(r: D.Registry, name: string)
    requires name in r.data && r.data[name].nodes == {r.self} && r.data[name].localCount == 1
    ensures var u := D.Remove(r, name).0;
      u.data == r.data - {name} && u.self == r.self && Changes(u.log) == Changes(r.log) + [(name, false)]
  {
    assert r.data[name].nodes - {r.self} == {};
    var entry := r.data[name].(localCount := 0);
    assert r.data[name := entry] - {name} == r.data - {name};
  }

  /** Alone, with balanced calls, the distributed registry is the plain one: same names, same add and
      remove events in the same order, and both count additions minus removals. */
  lemma {:induction false} AloneRefinesSingle(self: string, calls: seq<Call>)
    requires Balanced(calls)
    ensures Same(RunAlone(self, calls), RunSingle(calls), calls) && RunAlone(self, calls).self == self
    decreases |calls|
  {
    if calls == [] {
    } else {
      var before := calls[..|calls| - 1];
      var c := calls[|calls| - 1];
      AloneRefinesSingle(self, before);
      assert before + [c] == calls;
      match c {
        case Add(name) => AddSame(RunAlone(self, before), RunSingle(before), before, name);
        case Remove(name) => RemoveSame(RunAlone(self, before), RunSingle(before), before, name);
      }
    }
  }

  /** Both registries have the same names at every moment of the run. */
  predicate AlwaysAgree(self: string, calls: seq<Call>)
    decreases |calls|
  {
    && RunAlone(self, calls).data.Keys == RunSingle(calls).data.Keys
    && (calls == [] || AlwaysAgree(self, calls[..|calls| - 1]))
  }

  /** Balance is exactly what the agreement needs: the first removal of an absent name leaves an entry
      in the plain registry, and none in the distributed one. */
  lemma {:induction false} AgreeIffBalanced(self: string, calls: seq<Call>)
    ensures AlwaysAgree(self, calls) <==> Balanced(calls)
    decreases |calls|
  {
    if calls != [] {
      var before := calls[..|calls| - 1];
      AgreeIffBalanced(self, before);
      if Balanced(before) {
        AloneRefinesSingle(self, before);
        if Balanced(calls) {
          AloneRefinesSingle(self, calls);
        } else {
          assert RunSingle(calls).data == RunSingle(before).data[calls[|calls| - 1].name := NaN];
        }
      }
    }
  }

  /** With a second server the counts go wrong on balanced calls: when that server keeps the entry
      alive, the count stays at zero, and the next removal passes zero without releasing the name. */
  lemma RemoteHolderLeaksName(self: string, other: string, name: string)
    requires self != other
    ensures var r := D.Run(D.AsWritten, self,
                           [] + [D.LocalAdd(name)] + [D.Incoming(D.AddName(name), other, [name])]
                           + [D.LocalRemove(name)] + [D.LocalAdd(name)] + [D.LocalRemove(name)]);
      D.Held(r, self) == {name} && r.data[name].localCount == -1
  {
    var e1, e2, e3 := D.LocalAdd(name), D.Incoming(D.AddName(name), other, [name]), D.LocalRemove(name);
    RunSnoc(self, [], e1);
    RunSnoc(self, [] + [e1], e2);
    RunSnoc(self, [] + [e1] + [e2], e3);
    RunSnoc(self, [] + [e1] + [e2] + [e3], e1);
    RunSnoc(self, [] + [e1] + [e2] + [e3] + [e1], e3);
    var r2 := D.Run(D.AsWritten, self, [] + [e1] + [e2]);
    assert r2.data.Keys == {name} && r2.data[name].nodes == {self, other} && r2.data[name].localCount == 1;
    var r3 := D.Run(D.AsWritten, self, [] + [e1] + [e2] + [e3]);
    assert {self, other} - {self} == {other};
    assert r3.data.Keys == {name} && r3.data[name].nodes == {other} && r3.data[name].localCount == 0;
  }

  lemma RunSnoc(self: string, events: seq<D.Event>, e: D.Event)
    ensures D.Run(D.AsWritten, self, events + [e]) == D.Step(D.AsWritten, D.Run(D.AsWritten, self, events), e)
    ensures D.Run(D.AsWritten, self, []) == D.Empty(self)
  {
    assert (events + [e])[..|events|] == events;
  }
}
