/** Where the data comes from that a rule sees. */
module RuleData {
  import opened Common
  import opened RuleApplication

  /** The load of the record that ends within the act. */
  function LoadIn(self: string, act: Act): Option<(string, LoadResult)> {
    match act
    case Refer(name, sync) => if sync.Some? then Some((name, sync.value)) else None
    case OldData(sync) => if sync.Some? then Some((self, sync.value)) else None
    case PatchedData(sync) => if sync.Some? then Some((self, sync.value)) else None
    case _ => None
  }

  predicate SuppliedIn(self: string, acts: seq<Act>, name: string, data: Json) {
    exists i :: 0 <= i < |acts| && LoadIn(self, acts[i]) == Some((name, Success(data)))
  }

  /** A load of the record gave this data. */
  predicate Supplied(self: string, first: Behaviour, events: seq<Event>, name: string, data: Json) {
    || SuppliedIn(self, first.acts, name, data)
    || exists i :: 0 <= i < |events| &&
         match events[i]
         case Tick(b) => SuppliedIn(self, b.acts, name, data)
         case LoadEnds(n, result) => n == name && result == Success(data)
  }

  /** The data arrived under the name, or is kept under it. */
  predicate Has(s: State, name: string, data: Json) {
    ArrivedIn(s.trace, name, data) || (name in s.records && s.records[name] == Loaded(data))
  }

  predicate ArrivedIn(t: History, name: string, data: Json) {
    t.After? && (t.last == Arrived(name, data) || ArrivedIn(t.past, name, data))
  }

  lemma NoteHas(s: State, e: Trace, name: string, data: Json)
    requires Has(Note(s, e), name, data)
    ensures Has(s, name, data) || e == Arrived(name, data)
  {
  }

  lemma FinishHas(s: State, n: string, result: LoadResult, name: string, data: Json)
    requires Has(Finish(s, n, result), name, data)
    ensures Has(s, name, data) || (n == name && result == Success(data))
  {
    match result
    case Success(d) => NoteHas(s.(records := s.records[n := Loaded(d)]), Arrived(n, d), name, data);
    case Failure => NoteHas(s, Answered(LoadError), name, data);
  }

  lemma LoadHas(s: State, n: string, sync: Option<LoadResult>, name: string, data: Json)
    requires n !in s.records && Has(LoadRecord(s, n, sync), name, data)
    ensures Has(s, name, data) || (n == name && sync == Some(Success(data)))
  {
    if sync.Some? { FinishHas(s.(records := s.records[n := Loading]), n, sync.value, name, data); }
  }

  lemma LookHas(s: State, n: string, sync: Option<LoadResult>, name: string, data: Json)
    requires Has(Look(s, n, sync), name, data)
    ensures Has(s, name, data) || (n == name && sync == Some(Success(data)))
  {
    if n in s.records && s.records[n].Loaded? {
      NoteHas(s, Saw(n, Some(s.records[n].data)), name, data);
    } else {
      NoteHas(LoadRecord(s, n, sync), Saw(n, None), name, data);
      if n !in s.records { LoadHas(s, n, sync, name, data); }
    }
  }

  lemma DoHas(s: State, act: Act, name: string, data: Json)
    requires Has(Do(s, act), name, data)
    ensures Has(s, name, data) || LoadIn(s.name, act) == Some((name, Success(data)))
  {
    match act
    case Refer(n, sync) => LookHas(s, n, sync, name, data);
    case OldData(sync) => if !s.isDestroyed { LookHas(s, s.name, sync, name, data); }
    case PatchedData(sync) =>
      if !(s.name in s.records && s.records[s.name] == Loaded(Null)) { LookHas(s, s.name, sync, name, data); }
    case _ =>
  }

  lemma {:induction false} DoAllHas(s: State, acts: seq<Act>, name: string, data: Json)
    requires Has(DoAll(s, acts), name, data)
    ensures Has(s, name, data) || SuppliedIn(s.name, acts, name, data)
    decreases |acts|
  {
    if acts != [] {
      var before, act := acts[..|acts| - 1], acts[|acts| - 1];
      DoAllSame(s, before);
      DoHas(DoAll(s, before), act, name, data);
      if Has(DoAll(s, before), name, data) {
        DoAllHas(s, before, name, data);
        if i :| 0 <= i < |before| && LoadIn(s.name, before[i]) == Some((name, Success(data))) {
          assert acts[i] == before[i];
        }
      }
    }
  }

  lemma ConcludeHas(s: State, outcome: Outcome, name: string, data: Json)
    requires Has(Conclude(s, outcome), name, data)
    ensures Has(s, name, data)
  {
  }

  lemma RunHas(s: State, b: Behaviour, name: string, data: Json)
    requires Has(Run(s, b), name, data)
    ensures Has(s, name, data) || SuppliedIn(s.name, b.acts, name, data)
  {
    if !s.isDestroyed && s.iterations < s.maxIterations {
      RunIs(s, b);
      ConcludeHas(DoAll(Begin(s), b.acts), b.outcome, name, data);
      DoAllHas(Begin(s), b.acts, name, data);
    }
  }

  lemma SameName(s: State, b: Behaviour)
    ensures Run(s, b).name == s.name
  {
    if !s.isDestroyed && s.iterations < s.maxIterations {
      RunIs(s, b);
      DoAllSame(Begin(s), b.acts);
    }
  }

  lemma {:induction false} HasIsSupplied(self: string, max: nat, first: Behaviour, events: seq<Event>, name: string, data: Json)
    requires Reach(Create(self, max, first), events).Some?
    ensures Reach(Create(self, max, first), events).value.name == self
    ensures Has(Reach(Create(self, max, first), events).value, name, data) ==> Supplied(self, first, events, name, data)
    decreases |events|
  {
    if events == [] {
      SameName(Initial(self, max), first);
      if Has(Create(self, max, first), name, data) { RunHas(Initial(self, max), first, name, data); }
    } else {
      var past, e := events[..|events| - 1], events[|events| - 1];
      HasIsSupplied(self, max, first, past, name, data);
      var s := Reach(Create(self, max, first), past).value;
      if e.Tick? { SameName(s.(ticks := s.ticks - 1), e.behaviour); }
      var u := Reach(Create(self, max, first), events).value;
      if Has(u, name, data) {
        match e {
          case Tick(b) => TickHas(s, s.(ticks := s.ticks - 1), b, u, name, data);
          case LoadEnds(n, result) => FinishHas(s.(loads := s.loads - multiset{n}), n, result, name, data);
        }
        SuppliedLater(self, first, events, name, data);
      }
    }
  }

  lemma TickHas(s: State, r: State, b: Behaviour, u: State, name: string, data: Json)
    requires r.trace == s.trace && r.records == s.records && r.name == s.name && u == Run(r, b) && Has(u, name, data)
    ensures Has(s, name, data) || SuppliedIn(s.name, b.acts, name, data)
  {
    RunHas(r, b, name, data);
  }

  lemma SuppliedLater(self: string, first: Behaviour, events: seq<Event>, name: string, data: Json)
    requires events != []
    ensures Supplied(self, first, events[..|events| - 1], name, data) ==> Supplied(self, first, events, name, data)
  {
    var past := events[..|events| - 1];
    assert forall i :: 0 <= i < |past| ==> past[i] == events[i];
  }

  predicate SawIn(t: History, name: string, data: Json) {
    t.After? && (t.last == Saw(name, Some(data)) || SawIn(t.past, name, data))
  }

  lemma {:induction false} SawIsArrived(t: History, name: string, data: Json)
    requires Informed(t) && SawIn(t, name, data)
    ensures ArrivedIn(t, name, data)
  {
    if t.last == Saw(name, Some(data)) {
      LatestArrived(t.past, name, data);
    } else {
      SawIsArrived(t.past, name, data);
    }
  }

  lemma {:induction false} LatestArrived(t: History, name: string, data: Json)
    requires Latest(t, name) == Some(data)
    ensures ArrivedIn(t, name, data)
  {
    if t.last != Arrived(name, data) { LatestArrived(t.past, name, data); }
  }

  /** In every run, whatever data a reference to a record gave the rule is data that a load of that record gave. */
  lemma SeenIsLoaded(self: string, max: nat, first: Behaviour, events: seq<Event>, name: string, data: Json)
    requires Reach(Create(self, max, first), events).Some?
    requires SawIn(Reach(Create(self, max, first), events).value.trace, name, data)
    ensures Supplied(self, first, events, name, data)
  {
    ReachGoes(self, max, first, events);
    SawIsArrived(Reach(Create(self, max, first), events).value.trace, name, data);
    HasIsSupplied(self, max, first, events, name, data);
  }

  // ---------- Each record is loaded once ----------

  /** While the application lives, a record is on its way exactly once if it is awaited, and else not at all. */
  ghost predicate OnItsWay(s: State, n: string) {
    !s.isDestroyed ==> s.loads[n] == if n in s.records && s.records[n] == Loading then 1 else 0
  }

  lemma FinishOnItsWay(s: State, name: string, result: LoadResult, n: string)
    requires s.loads[name] == 0 && (n != name ==> OnItsWay(s, n))
    ensures OnItsWay(Finish(s, name, result), n) && Finish(s, name, result).loads == s.loads
  {
  }

  lemma LookOnItsWay(s: State, name: string, sync: Option<LoadResult>, n: string)
    requires OnItsWay(s, n) && OnItsWay(s, name)
    ensures OnItsWay(Look(s, name, sync), n)
  {
    if name !in s.records && sync.Some? && !s.isDestroyed {
      FinishOnItsWay(s.(records := s.records[name := Loading]), name, sync.value, n);
    }
  }

  lemma {:induction false} DoAllOnItsWay(s: State, acts: seq<Act>, n: string)
    requires forall m :: OnItsWay(s, m)
    ensures OnItsWay(DoAll(s, acts), n)
    decreases |acts|
  {
    assert OnItsWay(s, n);
    if acts != [] {
      var before, act := acts[..|acts| - 1], acts[|acts| - 1];
      var t := DoAll(s, before);
      forall m ensures OnItsWay(t, m) { DoAllOnItsWay(s, before, m); }
      assert OnItsWay(t, n);
      match act
      case Refer(name, sync) => LookOnItsWay(t, name, sync, n);
      case OldData(sync) => LookOnItsWay(t, t.name, sync, n);
      case PatchedData(sync) => LookOnItsWay(t, t.name, sync, n);
      case _ =>
    }
  }

  lemma RunOnItsWay(s: State, b: Behaviour, n: string)
    requires forall m :: OnItsWay(s, m)
    ensures OnItsWay(Run(s, b), n)
  {
    assert OnItsWay(s, n);
    if !s.isDestroyed && s.iterations < s.maxIterations {
      RunIs(s, b);
      forall m ensures OnItsWay(Begin(s), m) { assert OnItsWay(s, m); }
      DoAllOnItsWay(Begin(s), b.acts, n);
    }
  }

  /** In every run, while the sender was not answered, a record that the rule waits for is being loaded exactly
      once, and no other one is: it is requested once, however often it is referenced. */
  lemma {:induction false} LoadedOnce(self: string, max: nat, first: Behaviour, events: seq<Event>, name: string)
    requires Reach(Create(self, max, first), events).Some?
    ensures OnItsWay(Reach(Create(self, max, first), events).value, name)
    decreases |events|
  {
    if events == [] {
      RunOnItsWay(Initial(self, max), first, name);
    } else {
      var past := events[..|events| - 1];
      var s := Reach(Create(self, max, first), past).value;
      forall m ensures OnItsWay(s, m) { LoadedOnce(self, max, first, past, m); }
      assert OnItsWay(s, name);
      match events[|events| - 1]
      case Tick(b) =>
        var r := s.(ticks := s.ticks - 1);
        forall m ensures OnItsWay(r, m) { assert OnItsWay(s, m); }
        RunOnItsWay(r, b, name);
      case LoadEnds(n, result) =>
        var r := s.(loads := s.loads - multiset{n});
        assert OnItsWay(s, n);
        if !s.isDestroyed { FinishOnItsWay(r, n, result, name); }
    }
  }
}
