/** Rule applications whose loads succeed: they answer exactly once. The condition is on the events alone. */
module RuleLoads {
  import opened Common
  import opened RuleApplication

  /** The end of a load of `n`: it succeeds, and finds the patched record. */
  predicate GoodEnd(name: string, patches: bool, n: string, result: LoadResult) {
    result.Success? && (patches && n == name ==> result.data != Null)
  }

  predicate GoodSync(name: string, patches: bool, n: string, sync: Option<LoadResult>) {
    sync.Some? ==> GoodEnd(name, patches, n, sync.value)
  }

  /** The payload parses, references are text, and loads that end at once end well. */
  predicate GoodAct(name: string, patches: bool, act: Act) {
    match act
    case Refer(n, sync) => GoodSync(name, patches, n, sync)
    case OldData(sync) => GoodSync(name, patches, name, sync)
    case PatchedData(sync) => patches && GoodSync(name, patches, name, sync)
    case BadReference => false
    case ParseError => false
  }

  predicate GoodActs(name: string, patches: bool, acts: seq<Act>) {
    forall i :: 0 <= i < |acts| ==> GoodAct(name, patches, acts[i])
  }

  predicate GoodEvent(name: string, patches: bool, e: Event) {
    match e
    case Tick(b) => GoodActs(name, patches, b.acts)
    case LoadEnds(n, result) => GoodEnd(name, patches, n, result)
  }

  predicate AllGood(name: string, patches: bool, first: Behaviour, events: seq<Event>) {
    GoodActs(name, patches, first.acts) && forall i :: 0 <= i < |events| ==> GoodEvent(name, patches, events[i])
  }

  /** The patched record is not known to be missing. */
  predicate NotMissing(s: State, name: string, patches: bool) {
    s.name == name && (patches && name in s.records ==> s.records[name] != Loaded(Null))
  }

  lemma GoodDo(s: State, name: string, patches: bool, act: Act)
    requires NotMissing(s, name, patches) && GoodAct(name, patches, act)
    ensures !Ends(s, act) && NotMissing(Do(s, act), name, patches)
  {
  }

  lemma {:induction false} GoodDoAll(s: State, name: string, patches: bool, acts: seq<Act>)
    requires NotMissing(s, name, patches) && GoodActs(name, patches, acts)
    ensures Endings(s, acts) == 0 && NotMissing(DoAll(s, acts), name, patches)
    decreases |acts|
  {
    if acts != [] {
      GoodDoAll(s, name, patches, acts[..|acts| - 1]);
      GoodDo(DoAll(s, acts[..|acts| - 1]), name, patches, acts[|acts| - 1]);
    }
  }

  lemma GoodRun(s: State, name: string, patches: bool, b: Behaviour)
    requires NotMissing(s, name, patches) && GoodActs(name, patches, b.acts)
    ensures Surplus(s, b) == 0 && NotMissing(Run(s, b), name, patches)
  {
    GoodDoAll(Begin(s), name, patches, b.acts);
  }

  lemma {:induction false} GoodReach(name: string, max: nat, patches: bool, first: Behaviour, events: seq<Event>)
    requires Reach(Create(name, max, first), events).Some? && AllGood(name, patches, first, events)
    ensures NotMissing(Reach(Create(name, max, first), events).value, name, patches)
    ensures SurplusOfAll(name, max, first, events) == 0
    decreases |events|
  {
    if events == [] {
      GoodRun(Initial(name, max), name, patches, first);
    } else {
      var past, e := events[..|events| - 1], events[|events| - 1];
      GoodReach(name, max, patches, first, past);
      var s := Reach(Create(name, max, first), past).value;
      if e.Tick? { GoodRun(s.(ticks := s.ticks - 1), name, patches, e.behaviour); }
    }
  }

  /** If all loads succeed, the payload parses, references are text, and a patched record is not found
      missing, then once nothing is under way the sender was answered exactly once, in whatever order
      the loads end, and a verdict comes from a run that saw the loaded data of all that it referenced. */
  lemma GoodEventsAnswerOnce(name: string, max: nat, patches: bool, first: Behaviour, events: seq<Event>)
    requires Reach(Create(name, max, first), events).Some? && AllGood(name, patches, first, events)
    ensures var s := Reach(Create(name, max, first), events).value;
      && SurplusOfAll(name, max, first, events) == 0
      && (Quiescent(s) ==> Answers(s.trace) == 1) && Answers(s.trace) <= 1 && Informed(s.trace)
  {
    GoodReach(name, max, patches, first, events);
    ReachGoes(name, max, first, events);
    ExactlyOneAnswer(name, max, first, events);
  }
}
