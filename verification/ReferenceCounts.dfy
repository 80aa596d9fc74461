/** When a server's count of its own additions is right although other servers hold names too. */
module ReferenceCounts {
  import opened Common
  import opened StateRegistry

  /** What this server counts for a name that it holds; it counts nothing for others. */
  function Counted(r: Registry, x: string): int {
    if x in r.data && r.self in r.data[x].nodes then r.data[x].localCount else 0
  }

  /** Local additions of the name less local removals. */
  function Surplus(events: seq<Event>, x: string): int
    decreases |events|
  {
    if events == [] then 0
    else
      var e := events[|events| - 1];
      Surplus(events[..|events| - 1], x) + (if e == LocalAdd(x) then 1 else if e == LocalRemove(x) then -1 else 0)
  }

  /** The name is not removed more often than it was added. */
  predicate Balanced(events: seq<Event>, x: string)
    decreases |events|
  {
    events == [] ||
    var before := events[..|events| - 1];
    Balanced(before, x) && (events[|events| - 1] == LocalRemove(x) ==> Surplus(before, x) > 0)
  }

  /** An addition is counted exactly if the name is unknown, this server holds it, or its entry still
      has the count that it was created with. */
  lemma AddCountsIff(r: Registry, name: string)
    ensures Counted(Add(r, name).0, name) == Counted(r, name) + 1 <==>
            name !in r.data || r.self in r.data[name].nodes || r.data[name].localCount == 1
  {
  }

  /** Other servers hold the name, and this server released it since they do. */
  predicate Abandoned(policy: Policy, self: string, events: seq<Event>, x: string)
    decreases |events|
  {
    events != [] &&
    var before := events[..|events| - 1];
    var r, u := Run(policy, self, before), Run(policy, self, events);
    && x in u.data
    && (Abandoned(policy, self, before, x) || (events[|events| - 1] == LocalRemove(x) && x in Held(r, self) && x !in Held(u, self)))
  }

  /** No local addition meets a name that this server released and others still hold. */
  predicate NeverReturns(policy: Policy, self: string, events: seq<Event>, x: string)
    decreases |events|
  {
    events == [] ||
    var before := events[..|events| - 1];
    && NeverReturns(policy, self, before, x)
    && (events[|events| - 1] == LocalAdd(x) ==> x in Held(Run(policy, self, before), self) || !Abandoned(policy, self, before, x))
  }

  predicate AlwaysExact(policy: Policy, self: string, events: seq<Event>, x: string)
    decreases |events|
  {
    && Counted(Run(policy, self, events), x) == Surplus(events, x)
    && (events == [] || AlwaysExact(policy, self, events[..|events| - 1], x))
  }

  // ---------- What messages do to one entry ----------

  predicate SameEntry(r: Registry, u: Registry, x: string)
    requires x in r.data && x in u.data
  {
    u.data[x].localCount == r.data[x].localCount && (r.self in u.data[x].nodes <==> r.self in r.data[x].nodes)
  }

  /** The entry stays, or is created for others. */
  predicate Grows(r: Registry, u: Registry, x: string) {
    && u.self == r.self
    && (x in r.data ==> x in u.data && SameEntry(r, u, x))
    && (x !in r.data && x in u.data ==> u.data[x].localCount == 1 && r.self !in u.data[x].nodes)
  }

  /** The entry stays, or goes if this server does not hold it. */
  predicate Shrinks(r: Registry, u: Registry, x: string) {
    && u.self == r.self
    && (x in u.data ==> x in r.data && SameEntry(r, u, x))
    && (x in Held(r, r.self) ==> x in u.data)
  }

  lemma {:induction false} AddAllGrows(r: Registry, names: seq<string>, server: string, x: string)
    requires server != r.self
    ensures var u := AddAll(r, names, server);
      Grows(r, u, x) && (x !in names ==> (x in u.data <==> x in r.data))
    decreases |names|
  {
    if names != [] {
      AddAllGrows(AddToServer(r, names[0], server), names[1..], server, x);
    }
  }

  lemma {:induction false} DropOthersShrinks(r: Registry, names: seq<string>, keep: seq<string>, server: string, x: string)
    requires server != r.self
    ensures var u := DropOthers(r, names, keep, server);
      Shrinks(r, u, x) && (x in keep ==> (x in u.data <==> x in r.data))
    decreases |names|
  {
    if names != [] {
      var t := if names[0] in keep then r else RemoveFromServer(r, names[0], server);
      assert Shrinks(r, t, x);
      DropOthersShrinks(t, names[1..], keep, server, x);
    }
  }

  lemma {:induction false} SweepShrinks(r: Registry, names: seq<string>, server: string, x: string)
    requires server != r.self
    ensures Shrinks(r, Sweep(r, names, server), x)
    decreases |names|
  {
    if names != [] {
      var name := names[0];
      var t := if name in r.data && server in r.data[name].nodes then RemoveFromServer(r, name, server) else r;
      assert Shrinks(r, t, x);
      SweepShrinks(t, names[1..], server, x);
    }
  }

  lemma OthersKeepTheCount(policy: Policy, r: Registry, e: Event, x: string)
    requires Possible(r, e) && (e.Incoming? || e.ServerGone?)
    ensures Grows(r, Step(policy, r, e), x) || Shrinks(r, Step(policy, r, e), x)
  {
    match e
    case Incoming(FullState(names), server, order) =>
      var t := DropOthers(r, Visited(policy, order), names, server);
      DropOthersShrinks(r, Visited(policy, order), names, server, x);
      AddAllGrows(t, names, server, x);
    case Incoming(_, _, _) =>
    case ServerGone(server, order) => SweepShrinks(r, order, server, x);
  }

  // ---------- The law ----------

  /** While the count is exact: a name that this server holds has a positive count; the entry of a name
      that it does not hold has the count of its creation, or none if it was released. */
  ghost predicate Exact(policy: Policy, self: string, events: seq<Event>, x: string) {
    var r := Run(policy, self, events);
    && r.self == self
    && Counted(r, x) == Surplus(events, x)
    && (x in Held(r, self) ==> r.data[x].localCount > 0)
    && (x in r.data && x !in Held(r, self) ==> r.data[x].localCount == if Abandoned(policy, self, events, x) then 0 else 1)
  }

  lemma LocalExact(policy: Policy, self: string, events: seq<Event>, x: string)
    requires events != [] && (events[|events| - 1].LocalAdd? || events[|events| - 1].LocalRemove?)
    requires Exact(policy, self, events[..|events| - 1], x) && Balanced(events, x)
    ensures Counted(Run(policy, self, events), x) == Surplus(events, x) <==>
            (events[|events| - 1] == LocalAdd(x) ==>
               x in Held(Run(policy, self, events[..|events| - 1]), self) || !Abandoned(policy, self, events[..|events| - 1], x))
    ensures Counted(Run(policy, self, events), x) == Surplus(events, x) ==> Exact(policy, self, events, x)
  {
    var before := events[..|events| - 1];
    var r, u := Run(policy, self, before), Run(policy, self, events);
    assert u == Step(policy, r, events[|events| - 1]);
  }

  lemma RemoteExact(policy: Policy, self: string, events: seq<Event>, x: string)
    requires events != [] && (events[|events| - 1].Incoming? || events[|events| - 1].ServerGone?)
    requires PossibleRun(policy, self, events) && Exact(policy, self, events[..|events| - 1], x)
    ensures Exact(policy, self, events, x)
  {
    var before := events[..|events| - 1];
    var r, u := Run(policy, self, before), Run(policy, self, events);
    assert u == Step(policy, r, events[|events| - 1]);
    OthersKeepTheCount(policy, r, events[|events| - 1], x);
  }

  /** With any other servers, and local calls that are balanced: the count of a name is right at every
      moment if and only if this server never adds a name again that it released while others held it
      and that they hold still. */
  lemma {:induction false} CountsIff(policy: Policy, self: string, events: seq<Event>, x: string)
    requires PossibleRun(policy, self, events) && Balanced(events, x)
    ensures AlwaysExact(policy, self, events, x) <==> NeverReturns(policy, self, events, x)
    ensures AlwaysExact(policy, self, events, x) ==> Exact(policy, self, events, x)
    decreases |events|
  {
    if events != [] {
      var before, e := events[..|events| - 1], events[|events| - 1];
      CountsIff(policy, self, before, x);
      if AlwaysExact(policy, self, before, x) {
        if e.LocalAdd? || e.LocalRemove? { LocalExact(policy, self, events, x); }
        else { RemoteExact(policy, self, events, x); }
      }
    }
  }

  /** A name that others hold and this server released. */
  predicate Released(r: Registry, x: string) {
    x in r.data && r.self !in r.data[x].nodes && r.data[x].nodes != {} && r.data[x].localCount == 0
  }

  /** Returning to such a name once and leaving it does not release it; coming twice and leaving once
      does. */
  lemma ReturnGoesWrong(r: Registry, x: string)
    requires Released(r, x)
    ensures var once := Remove(Add(r, x).0, x).0; x in Held(once, r.self) && once.data[x].localCount == -1
    ensures x !in Held(Remove(Add(Add(r, x).0, x).0, x).0, r.self)
  {
    var nodes := r.data[x].nodes;
    assert nodes + {r.self} - {r.self} == nodes;
  }
}
