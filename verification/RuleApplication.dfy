/** The evaluation of one Valve rule: the rule function is run again and again until every record that
    it referenced is loaded. */
module RuleApplication {
  import opened Common

  /** `Loaded(Null)` is a record that does not exist. */
  datatype Entry = Loading | Loaded(data: Json)

  datatype Answer = Verdict(allowed: bool) | RuleError | LoadError

  /** `Saw`: what a reference to a record gave the rule; `None` while it is not loaded. */
  datatype Trace = Started | Saw(name: string, seen: Option<Json>) | Arrived(name: string, data: Json) | Answered(answer: Answer)

  datatype History = Start | After(past: History, last: Trace)

  /** How a load ends; the record's name comes with it. */
  datatype LoadResult = Success(data: Json) | Failure

  /** One thing that a run does before its result is known. `sync` is the end of a load that is over
      before the call returns.
      `Refer`: a cross-reference by name. `BadReference`: one that is no text. `OldData`: the record's
      previous value. `PatchedData`: the record's value with the patch applied. `ParseError`: the
      message's payload could not be parsed. */
  datatype Act =
    | Refer(name: string, sync: Option<LoadResult>)
    | BadReference
    | OldData(sync: Option<LoadResult>)
    | PatchedData(sync: Option<LoadResult>)
    | ParseError

  datatype Outcome = Returns(allowed: bool) | Throws

  /** What the rule function does in one run. Nothing is assumed about how it depends on what it saw. */
  datatype Behaviour = Behaviour(acts: seq<Act>, outcome: Outcome)

  /** `ticks` counts the runs handed to `process.nextTick`, `loads` the loads that are under way. */
  datatype State = State(
    name: string, maxIterations: nat, isDestroyed: bool, runScheduled: bool, records: map<string, Entry>, iterations: nat,
    ticks: nat, loads: multiset<string>, trace: History)

  function Note(s: State, e: Trace): State {
    s.(trace := After(s.trace, e))
  }

  predicate Ready(s: State) {
    !s.runScheduled && forall r :: r in s.records ==> s.records[r] != Loading
  }

  function Destroy(s: State): State {
    s.(isDestroyed := true, runScheduled := false, records := map[])
  }

  function OnRuleError(s: State): State {
    if s.isDestroyed then s else Destroy(Note(s, Answered(RuleError)))
  }

  function OnLoadComplete(s: State, name: string, data: Json): State {
    var t := Note(s.(records := s.records[name := Loaded(data)]), Arrived(name, data));
    if Ready(t) then t.(runScheduled := true, ticks := t.ticks + 1) else t
  }

  /** There is no guard against an application that is destroyed already. */
  function OnLoadError(s: State): State {
    Destroy(Note(s, Answered(LoadError)))
  }

  function Finish(s: State, name: string, result: LoadResult): State {
    match result
    case Success(data) => OnLoadComplete(s, name, data)
    case Failure => OnLoadError(s)
  }

  function LoadRecord(s: State, name: string, sync: Option<LoadResult>): State {
    if name in s.records then
      match s.records[name]
      case Loading => s
      case Loaded(data) => OnLoadComplete(s, name, data)
    else
      var t := s.(records := s.records[name := Loading]);
      if sync.None? then t.(loads := t.loads + multiset{name}) else Finish(t, name, sync.value)
  }

  /** A reference that loads the record if it is not there. */
  function Look(s: State, name: string, sync: Option<LoadResult>): State {
    if name in s.records && s.records[name].Loaded? then Note(s, Saw(name, Some(s.records[name].data)))
    else Note(LoadRecord(s, name, sync), Saw(name, None))
  }

  function Do(s: State, act: Act): State {
    match act
    case Refer(name, sync) => Look(s, name, sync)
    case BadReference => OnRuleError(s)
    case OldData(sync) => if s.isDestroyed then s else Look(s, s.name, sync)
    case PatchedData(sync) =>
      if s.name in s.records && s.records[s.name] == Loaded(Null) then OnRuleError(s) else Look(s, s.name, sync)
    case ParseError => OnRuleError(s)
  }

  function DoAll(s: State, acts: seq<Act>): State
    decreases |acts|
  {
    if acts == [] then s else Do(DoAll(s, acts[..|acts| - 1]), acts[|acts| - 1])
  }

  function Conclude(s: State, outcome: Outcome): State {
    if !Ready(s) then s
    else
      match outcome
      case Throws => OnRuleError(s)
      case Returns(allowed) => Destroy(Note(s, Answered(Verdict(allowed))))
  }

  function Begin(s: State): State {
    Note(s.(runScheduled := false, iterations := s.iterations + 1), Started)
  }

  function Run(s: State, b: Behaviour): State {
    var t := s.(runScheduled := false, iterations := s.iterations + 1);
    if t.isDestroyed then t
    else if t.iterations > t.maxIterations then OnRuleError(t)
    else Conclude(DoAll(Begin(s), b.acts), b.outcome)
  }

  /** A scheduled run is due, or a load ends. */
  datatype Event = Tick(behaviour: Behaviour) | LoadEnds(name: string, result: LoadResult)

  predicate Possible(s: State, e: Event) {
    match e
    case Tick(_) => s.ticks > 0
    case LoadEnds(name, _) => name in s.loads
  }

  function Step(s: State, e: Event): State
    requires Possible(s, e)
  {
    match e
    case Tick(b) => Run(s.(ticks := s.ticks - 1), b)
    case LoadEnds(name, result) => Finish(s.(loads := s.loads - multiset{name}), name, result)
  }

  function Initial(name: string, max: nat): State {
    State(name, max, false, false, map[], 0, 0, multiset{}, Start)
  }

  /** The constructor, which runs the rule for the first time. */
  function Create(name: string, maxIterations: nat, first: Behaviour): State {
    Run(Initial(name, maxIterations), first)
  }

  function Reach(s: State, events: seq<Event>): Option<State>
    decreases |events|
  {
    if events == [] then Some(s)
    else
      var before := Reach(s, events[..|events| - 1]);
      var e := events[|events| - 1];
      if before.Some? && Possible(before.value, e) then Some(Step(before.value, e)) else None
  }

  // ---------- Counting ----------

  function Answers(t: History): nat {
    match t
    case Start => 0
    case After(past, last) => Answers(past) + (if last.Answered? then 1 else 0)
  }

  function Evaluations(t: History): nat {
    match t
    case Start => 0
    case After(past, last) => Evaluations(past) + (if last.Started? then 1 else 0)
  }

  /** Every reference of the latest run saw data. */
  predicate SawAll(t: History) {
    match t
    case Start => true
    case After(past, last) => last.Started? || (!(last.Saw? && last.seen.None?) && SawAll(past))
  }

  /** The data that arrived last under a name. */
  function Latest(t: History, name: string): Option<Json> {
    match t
    case Start => None
    case After(past, Arrived(n, data)) => if n == name then Some(data) else Latest(past, name)
    case After(past, _) => Latest(past, name)
  }

  /** If the first answer is a verdict, its run saw data for every record that it referenced; and all
      data that was seen is what had arrived. */
  predicate Informed(t: History) {
    match t
    case Start => true
    case After(past, last) =>
      && Informed(past)
      && (last.Answered? && last.answer.Verdict? && Answers(past) == 0 ==> SawAll(past))
      && (last.Saw? && last.seen.Some? ==> Latest(past, last.name) == last.seen)
  }

  // ---------- What every run keeps ----------

  /** At every moment, also inside a run. */
  ghost predicate Sound(s: State) {
    && (s.isDestroyed <==> Answers(s.trace) > 0)
    && (s.runScheduled ==> s.ticks > 0)
    && (!s.isDestroyed ==> forall r :: r in s.records && s.records[r] == Loading ==> r in s.loads)
    && (forall r :: r in s.records && s.records[r].Loaded? ==> Latest(s.trace, r) == Some(s.records[r].data))
    && Evaluations(s.trace) <= s.iterations && Evaluations(s.trace) <= s.maxIterations
  }

  /** Between runs something is under way, or all is over. */
  ghost predicate Settled(s: State) {
    Sound(s) && (!s.isDestroyed ==> !Ready(s))
  }

  lemma OnLoadCompleteKeeps(s: State, name: string, data: Json)
    requires Sound(s.(records := s.records - {name}))
    ensures var u := OnLoadComplete(s, name, data); Sound(u) && !Ready(u)
  {
    var t := Note(s.(records := s.records[name := Loaded(data)]), Arrived(name, data));
    forall r | r in t.records && t.records[r].Loaded? ensures Latest(t.trace, r) == Some(t.records[r].data) {
      if r != name { assert r in s.records - {name}; }
    }
    assert Sound(t);
  }

  lemma FinishKeeps(s: State, name: string, result: LoadResult)
    requires Sound(s.(records := s.records - {name}))
    ensures var u := Finish(s, name, result); Sound(u) && (result.Success? ==> !Ready(u))
  {
    if result.Success? { OnLoadCompleteKeeps(s, name, result.data); }
  }

  lemma LoadRecordKeeps(s: State, name: string, sync: Option<LoadResult>)
    requires Sound(s) && name !in s.records
    ensures Sound(LoadRecord(s, name, sync)) && (sync != Some(Failure) ==> !Ready(LoadRecord(s, name, sync)))
  {
    var t := s.(records := s.records[name := Loading]);
    if sync.Some? {
      assert t.records - {name} == s.records;
      assert t.(records := t.records - {name}) == s;
      FinishKeeps(t, name, sync.value);
    } else {
      assert t.records[name] == Loading;
    }
  }

  lemma LookKeeps(s: State, name: string, sync: Option<LoadResult>)
    requires Sound(s)
    ensures Sound(Look(s, name, sync))
    ensures sync != Some(Failure) && !Ready(s) ==> !Ready(Look(s, name, sync))
    ensures sync != Some(Failure) && !(name in s.records && s.records[name].Loaded?) ==> !Ready(Look(s, name, sync))
  {
    if name !in s.records {
      LoadRecordKeeps(s, name, sync);
    }
  }

  lemma DoKeeps(s: State, act: Act)
    requires Sound(s)
    ensures Sound(Do(s, act))
  {
    match act
    case Refer(name, sync) => LookKeeps(s, name, sync);
    case OldData(sync) => LookKeeps(s, s.name, sync);
    case PatchedData(sync) => LookKeeps(s, s.name, sync);
    case _ =>
  }

  lemma {:induction false} DoAllKeeps(s: State, acts: seq<Act>)
    requires Sound(s)
    ensures Sound(DoAll(s, acts))
    decreases |acts|
  {
    if acts != [] {
      DoAllKeeps(s, acts[..|acts| - 1]);
      DoKeeps(DoAll(s, acts[..|acts| - 1]), acts[|acts| - 1]);
    }
  }

  /** `Settled` before the tick was taken, or the state that the constructor begins with. */
  lemma RunKeeps(s: State, b: Behaviour)
    requires Sound(s.(runScheduled := false)) && Evaluations(s.trace) <= s.iterations
    ensures Settled(Run(s, b))
  {
    var t := s.(runScheduled := false, iterations := s.iterations + 1);
    if !t.isDestroyed && t.iterations <= t.maxIterations {
      DoAllKeeps(Begin(s), b.acts);
    }
  }

  lemma StepKeeps(s: State, e: Event)
    requires Settled(s) && Possible(s, e)
    ensures Settled(Step(s, e))
  {
    match e
    case Tick(b) => RunKeeps(s.(ticks := s.ticks - 1), b);
    case LoadEnds(name, result) => FinishKeeps(s.(loads := s.loads - multiset{name}), name, result);
  }

  lemma {:induction false} ReachKeeps(name: string, max: nat, first: Behaviour, events: seq<Event>)
    requires Reach(Create(name, max, first), events).Some?
    ensures Settled(Reach(Create(name, max, first), events).value)
    decreases |events|
  {
    if events == [] {
      RunKeeps(Initial(name, max), first);
    } else {
      ReachKeeps(name, max, first, events[..|events| - 1]);
      StepKeeps(Reach(Create(name, max, first), events[..|events| - 1]).value, events[|events| - 1]);
    }
  }

  predicate Quiescent(s: State) {
    s.ticks == 0 && s.loads == multiset{}
  }

  /** Whatever the rule does, however its loads end and in whatever order: it is evaluated at most
      `maxRuleIterations` times, and once nothing is under way any more the sender was answered. */
  lemma AlwaysAnswered(name: string, max: nat, first: Behaviour, events: seq<Event>)
    requires Reach(Create(name, max, first), events).Some?
    ensures var s := Reach(Create(name, max, first), events).value;
      && Evaluations(s.trace) <= max
      && (Quiescent(s) ==> Answers(s.trace) >= 1)
      && (!s.isDestroyed <==> Answers(s.trace) == 0)
  {
    ReachKeeps(name, max, first, events);
    var s := Reach(Create(name, max, first), events).value;
    assert Sound(s) && s.maxIterations == max by { SameLimit(name, max, first, events); }
  }

  lemma LookSame(s: State, name: string, sync: Option<LoadResult>)
    ensures Look(s, name, sync).maxIterations == s.maxIterations && Look(s, name, sync).name == s.name
  {
  }

  lemma DoSame(s: State, act: Act)
    ensures Do(s, act).maxIterations == s.maxIterations && Do(s, act).name == s.name
  {
    match act
    case Refer(name, sync) => LookSame(s, name, sync);
    case OldData(sync) => LookSame(s, s.name, sync);
    case PatchedData(sync) => LookSame(s, s.name, sync);
    case _ =>
  }

  lemma {:induction false} DoAllSame(s: State, acts: seq<Act>)
    ensures DoAll(s, acts).maxIterations == s.maxIterations && DoAll(s, acts).name == s.name
    decreases |acts|
  {
    if acts != [] {
      DoAllSame(s, acts[..|acts| - 1]);
      DoSame(DoAll(s, acts[..|acts| - 1]), acts[|acts| - 1]);
    }
  }

  lemma ConcludeSame(s: State, outcome: Outcome)
    ensures Conclude(s, outcome).maxIterations == s.maxIterations
  {
  }

  lemma RunSame(s: State, b: Behaviour)
    ensures Run(s, b).maxIterations == s.maxIterations
  {
    var t := s.(runScheduled := false, iterations := s.iterations + 1);
    if !t.isDestroyed && t.iterations <= t.maxIterations {
      DoAllSame(Begin(s), b.acts);
      ConcludeSame(DoAll(Begin(s), b.acts), b.outcome);
    }
  }

  lemma {:induction false} SameLimit(name: string, max: nat, first: Behaviour, events: seq<Event>)
    requires Reach(Create(name, max, first), events).Some?
    ensures Reach(Create(name, max, first), events).value.maxIterations == max
    decreases |events|
  {
    if events == [] {
      RunSame(Initial(name, max), first);
    } else {
      SameLimit(name, max, first, events[..|events| - 1]);
      var s := Reach(Create(name, max, first), events[..|events| - 1]).value;
      if events[|events| - 1].Tick? { RunSame(s.(ticks := s.ticks - 1), events[|events| - 1].behaviour); }
    }
  }

  // ---------- How many answers ----------

  lemma RunIs(s: State, b: Behaviour)
    requires !s.isDestroyed && s.iterations < s.maxIterations
    ensures Run(s, b) == Conclude(DoAll(Begin(s), b.acts), b.outcome)
  {
  }

  /** The act starts a load that fails before the call returns. */
  predicate FailsAtOnce(s: State, act: Act) {
    match act
    case Refer(name, sync) => name !in s.records && sync == Some(Failure)
    case OldData(sync) => !s.isDestroyed && s.name !in s.records && sync == Some(Failure)
    case PatchedData(sync) => s.name !in s.records && sync == Some(Failure)
    case _ => false
  }

  /** The act is an error: a payload that does not parse, a reference that is no text, a patch on a
      record that is known not to exist. */
  predicate IsError(s: State, act: Act) {
    match act
    case ParseError => true
    case BadReference => true
    case PatchedData(_) => s.name in s.records && s.records[s.name] == Loaded(Null)
    case _ => false
  }

  /** The act answers, and ends the application in the middle of its run. Errors do so only once. */
  predicate Ends(s: State, act: Act) {
    FailsAtOnce(s, act) || (!s.isDestroyed && IsError(s, act))
  }

  function Endings(s: State, acts: seq<Act>): nat
    decreases |acts|
  {
    if acts == [] then 0
    else Endings(s, acts[..|acts| - 1]) + (if Ends(DoAll(s, acts[..|acts| - 1]), acts[|acts| - 1]) then 1 else 0)
  }

  predicate Loads(act: Act) {
    act.Refer? || act.PatchedData?
  }

  /** No reference follows the last act that ended the application, so nothing is under way. */
  predicate Idle(s: State, acts: seq<Act>)
    decreases |acts|
  {
    acts == [] || Ends(DoAll(s, acts[..|acts| - 1]), acts[|acts| - 1])
    || (Idle(s, acts[..|acts| - 1]) && !Loads(acts[|acts| - 1]))
  }

  /** The answers of one run beyond the first: one for each load that fails at once after the
      application ended, and one if the rule then returns with nothing under way. */
  function Surplus(s: State, b: Behaviour): nat {
    var n := Endings(Begin(s), b.acts);
    if s.isDestroyed || s.iterations >= s.maxIterations || n == 0 then 0
    else n - 1 + if b.outcome.Returns? && Idle(Begin(s), b.acts) then 1 else 0
  }

  function SurplusOf(s: State, e: Event): nat
    requires Possible(s, e)
  {
    match e
    case Tick(b) => Surplus(s.(ticks := s.ticks - 1), b)
    case LoadEnds(_, result) => if s.isDestroyed && result.Failure? then 1 else 0
  }

  function SurplusOfAll(name: string, max: nat, first: Behaviour, events: seq<Event>): nat
    decreases |events|
  {
    if events == [] then Surplus(Initial(name, max), first)
    else
      var past := events[..|events| - 1]; var e := events[|events| - 1];
      var before := Reach(Create(name, max, first), past);
      SurplusOfAll(name, max, first, past) + (if before.Some? && Possible(before.value, e) then SurplusOf(before.value, e) else 0)
  }

  /** Inside a run that has not answered so far. */
  ghost predicate Going(s: State) {
    Sound(s) && !s.isDestroyed && Informed(s.trace) && (!SawAll(s.trace) ==> !Ready(s))
  }

  /** Inside a run that has answered. */
  ghost predicate Dead(s: State, answers: nat, ready: bool) {
    && Sound(s) && s.isDestroyed && Informed(s.trace) && Answers(s.trace) == answers
    && (Ready(s) <==> ready) && (ready ==> s.records == map[])
  }

  lemma LookGoes(s: State, name: string, sync: Option<LoadResult>)
    requires Going(s) && (name in s.records || sync != Some(Failure))
    ensures Going(Look(s, name, sync))
  {
    LookKeeps(s, name, sync);
  }

  lemma LookFails(s: State, name: string)
    requires Sound(s) && Informed(s.trace) && name !in s.records
    ensures Dead(Look(s, name, Some(Failure)), Answers(s.trace) + 1, true)
  {
    LookKeeps(s, name, Some(Failure));
  }

  lemma LookDead(s: State, name: string, sync: Option<LoadResult>, answers: nat, ready: bool)
    requires Dead(s, answers, ready) && (name in s.records || sync != Some(Failure))
    ensures Dead(Look(s, name, sync), answers, false)
  {
    LookKeeps(s, name, sync);
  }

  lemma DoGoes(s: State, act: Act)
    requires Going(s)
    ensures if Ends(s, act) then Dead(Do(s, act), 1, true) else Going(Do(s, act))
  {
    match act
    case Refer(name, sync) => if FailsAtOnce(s, act) { LookFails(s, name); } else { LookGoes(s, name, sync); }
    case OldData(sync) => if FailsAtOnce(s, act) { LookFails(s, s.name); } else { LookGoes(s, s.name, sync); }
    case PatchedData(sync) =>
      if FailsAtOnce(s, act) { LookFails(s, s.name); } else if !IsError(s, act) { LookGoes(s, s.name, sync); }
    case _ =>
  }

  lemma DoDead(s: State, act: Act, answers: nat, ready: bool)
    requires Dead(s, answers, ready)
    ensures if Ends(s, act) then Dead(Do(s, act), answers + 1, true) else Dead(Do(s, act), answers, ready && !Loads(act))
  {
    match act
    case Refer(name, sync) => if FailsAtOnce(s, act) { LookFails(s, name); } else { LookDead(s, name, sync, answers, ready); }
    case PatchedData(sync) =>
      if FailsAtOnce(s, act) { LookFails(s, s.name); } else if !IsError(s, act) { LookDead(s, s.name, sync, answers, ready); }
    case _ =>
  }

  lemma {:induction false} DoAllAnswers(s: State, acts: seq<Act>)
    requires Going(s)
    ensures var n := Endings(s, acts);
      if n == 0 then Going(DoAll(s, acts)) else Dead(DoAll(s, acts), n, Idle(s, acts))
    decreases |acts|
  {
    if acts != [] {
      var before, act := acts[..|acts| - 1], acts[|acts| - 1];
      DoAllAnswers(s, before);
      if Endings(s, before) == 0 { DoGoes(DoAll(s, before), act); }
      else { DoDead(DoAll(s, before), act, Endings(s, before), Idle(s, before)); }
    }
  }

  /** What one step does to the answers. */
  ghost predicate Goes(s: State, u: State, surplus: nat) {
    && Informed(u.trace)
    && Answers(u.trace) == Answers(s.trace) + (if !s.isDestroyed && u.isDestroyed then 1 else 0) + surplus
    && (s.isDestroyed ==> u.isDestroyed)
  }

  lemma ConcludeGoes(s: State, outcome: Outcome)
    requires Going(s)
    ensures Goes(s, Conclude(s, outcome), 0)
  {
  }

  lemma ConcludeDead(s: State, outcome: Outcome, answers: nat, ready: bool)
    requires Dead(s, answers, ready) && answers > 0
    ensures var u := Conclude(s, outcome);
      && u.isDestroyed && Informed(u.trace)
      && Answers(u.trace) == if ready && outcome.Returns? then answers + 1 else answers
  {
  }

  /** A run of an application that has not answered yet. */
  lemma LiveRunGoes(s: State, r: State, b: Behaviour)
    requires s.trace == r.trace && s.isDestroyed == r.isDestroyed && !r.isDestroyed
    requires r.iterations < r.maxIterations ==> Going(Begin(r))
    requires Informed(r.trace) && Answers(r.trace) == 0
    ensures Goes(s, Run(r, b), Surplus(r, b))
  {
    if r.iterations < r.maxIterations {
      RunIs(r, b);
      DoAllAnswers(Begin(r), b.acts);
      var n := Endings(Begin(r), b.acts);
      if n == 0 { ConcludeGoes(DoAll(Begin(r), b.acts), b.outcome); }
      else { ConcludeDead(DoAll(Begin(r), b.acts), b.outcome, n, Idle(Begin(r), b.acts)); }
    }
  }

  lemma TickGoes(s: State, r: State, b: Behaviour)
    requires Settled(s) && Informed(s.trace) && s.ticks > 0 && r == s.(ticks := s.ticks - 1)
    ensures Goes(s, Run(r, b), Surplus(r, b))
  {
    if !r.isDestroyed {
      assert r.iterations < r.maxIterations ==> Going(Begin(r));
      LiveRunGoes(s, r, b);
    }
  }

  lemma FirstRunGoes(r: State, b: Behaviour)
    requires r == Initial(r.name, r.maxIterations)
    ensures Goes(r, Run(r, b), Surplus(r, b))
  {
    assert r.iterations < r.maxIterations ==> Going(Begin(r));
    LiveRunGoes(r, r, b);
  }

  lemma FinishGoes(s: State, name: string, result: LoadResult)
    requires Informed(s.trace)
    ensures var u := Finish(s, name, result);
      && Informed(u.trace) && (u.isDestroyed <==> s.isDestroyed || result.Failure?)
      && Answers(u.trace) == Answers(s.trace) + (if result.Failure? then 1 else 0)
  {
  }

  lemma LoadGoes(s: State, name: string, result: LoadResult)
    requires Informed(s.trace) && Possible(s, LoadEnds(name, result))
    ensures Goes(s, Step(s, LoadEnds(name, result)), if s.isDestroyed && result.Failure? then 1 else 0)
  {
    FinishGoes(s.(loads := s.loads - multiset{name}), name, result);
  }

  lemma {:induction false} ReachGoes(name: string, max: nat, first: Behaviour, events: seq<Event>)
    requires Reach(Create(name, max, first), events).Some?
    ensures Goes(Initial(name, max), Reach(Create(name, max, first), events).value, SurplusOfAll(name, max, first, events))
    decreases |events|
  {
    if events == [] {
      FirstRunGoes(Initial(name, max), first);
    } else {
      var past := events[..|events| - 1]; var e := events[|events| - 1];
      ReachGoes(name, max, first, past);
      ReachKeeps(name, max, first, past);
      var s := Reach(Create(name, max, first), past).value;
      match e
      case Tick(b) => TickGoes(s, s.(ticks := s.ticks - 1), b);
      case LoadEnds(n, result) => LoadGoes(s, n, result);
    }
  }

  /** For every run: once nothing is under way the sender was answered once, and once more for each
      surplus answer; so exactly once if and only if no load failure is reported after the answer, none
      happens at once after the application ended in the middle of a run, and no such run goes on to
      return with nothing under way. And a first answer that is a verdict comes from a run that saw the
      loaded data of each record that it referenced. */
  lemma ExactlyOneAnswer(name: string, max: nat, first: Behaviour, events: seq<Event>)
    requires Reach(Create(name, max, first), events).Some?
    ensures var s := Reach(Create(name, max, first), events).value;
      && (Quiescent(s) ==> Answers(s.trace) == 1 + SurplusOfAll(name, max, first, events))
      && (Quiescent(s) ==> (Answers(s.trace) == 1 <==> SurplusOfAll(name, max, first, events) == 0))
      && Informed(s.trace)
  {
    ReachGoes(name, max, first, events);
    AlwaysAnswered(name, max, first, events);
  }

  // ---------- Runs with a fault ----------

  predicate LoadsAny(acts: seq<Act>) {
    exists i :: 0 <= i < |acts| && Loads(acts[i])
  }

  predicate NoneFails(acts: seq<Act>) {
    forall i :: 0 <= i < |acts| ==>
      match acts[i] case Refer(_, sync) => sync != Some(Failure) case PatchedData(sync) => sync != Some(Failure) case _ => true
  }

  /** Once the application has ended nothing answers but a load that fails at once. */
  lemma OverIsOver(s: State, acts: seq<Act>, act: Act)
    requires Going(s) && Endings(s, acts) > 0 && NoneFails([act])
    ensures !Ends(DoAll(s, acts), act)
  {
    DoAllAnswers(s, acts);
    assert [act][0] == act;
  }

  lemma LoadsAnySnoc(acts: seq<Act>, act: Act)
    ensures LoadsAny(acts + [act]) <==> LoadsAny(acts) || Loads(act)
  {
    assert (acts + [act])[|acts|] == act;
    if LoadsAny(acts) {
      var i :| 0 <= i < |acts| && Loads(acts[i]);
      assert (acts + [act])[i] == acts[i];
    }
  }

  lemma {:induction false} GoesOn(s: State, acts: seq<Act>, after: seq<Act>)
    requires Going(s) && Endings(s, acts) == 1 && Idle(s, acts) && NoneFails(after)
    ensures Endings(s, acts + after) == 1 && (Idle(s, acts + after) <==> !LoadsAny(after))
    decreases |after|
  {
    if after == [] {
      assert acts + [] == acts;
    } else {
      var shorter, act := after[..|after| - 1], after[|after| - 1];
      GoesOn(s, acts, shorter);
      OneMoreLater(s, acts + shorter, shorter, act);
      Reassociated(acts, after);
    }
  }

  lemma Reassociated(acts: seq<Act>, after: seq<Act>)
    requires after != []
    ensures var shorter, act := after[..|after| - 1], after[|after| - 1];
      shorter + [act] == after && acts + shorter + [act] == acts + after
  {
  }

  lemma OneMoreLater(s: State, acts: seq<Act>, shorter: seq<Act>, act: Act)
    requires Going(s) && Endings(s, acts) == 1 && (Idle(s, acts) <==> !LoadsAny(shorter)) && NoneFails([act])
    ensures Endings(s, acts + [act]) == 1 && (Idle(s, acts + [act]) <==> !LoadsAny(shorter + [act]))
  {
    OneMore(s, acts, act);
    OverIsOver(s, acts, act);
    LoadsAnySnoc(shorter, act);
  }

  lemma AfterTheError(s: State, before: seq<Act>, error: Act, after: seq<Act>)
    requires Going(s) && Endings(s, before) == 0 && Ends(DoAll(s, before), error) && NoneFails(after)
    ensures var acts := before + [error] + after; Endings(s, acts) == 1 && (Idle(s, acts) <==> !LoadsAny(after))
  {
    OneMore(s, before, error);
    GoesOn(s, before + [error], after);
  }

  lemma OneMore(s: State, acts: seq<Act>, act: Act)
    ensures var ends := Ends(DoAll(s, acts), act);
      && Endings(s, acts + [act]) == Endings(s, acts) + (if ends then 1 else 0)
      && (Idle(s, acts + [act]) <==> ends || (Idle(s, acts) && !Loads(act)))
  {
    assert (acts + [act])[..|acts + [act]| - 1] == acts;
  }

  /** An error anywhere in a run, of any kind, with no load failing at once after it: the run goes on
      with the ended application, and answers a second time exactly if the rule returns and no
      reference follows the error. */
  lemma ErrorAnswersTwiceIff(s: State, before: seq<Act>, error: Act, after: seq<Act>, outcome: Outcome)
    requires Settled(s) && s.ticks > 0 && !s.isDestroyed && s.iterations < s.maxIterations && Informed(s.trace)
    requires var r := Begin(s.(ticks := s.ticks - 1)); Endings(r, before) == 0 && Ends(DoAll(r, before), error)
    requires NoneFails(after)
    ensures Answers(Step(s, Tick(Behaviour(before + [error] + after, outcome))).trace) ==
            if LoadsAny(after) || outcome.Throws? then 1 else 2
  {
    var r, b := s.(ticks := s.ticks - 1), Behaviour(before + [error] + after, outcome);
    assert Going(Begin(r));
    AfterTheError(Begin(r), before, error, after);
    RunIs(r, b);
    DoAllAnswers(Begin(r), b.acts);
    ConcludeDead(DoAll(Begin(r), b.acts), outcome, 1, Idle(Begin(r), b.acts));
  }

  lemma DoOne(s: State, a: Act)
    ensures DoAll(s, [a]) == Do(s, a)
  {
    assert [a][..0] == [];
  }

  /** A patch of a record that does not exist: its data is loaded, found to be missing, and the sender
      is told of an error and then given the verdict of the rule. */
  lemma PatchOnMissingRecordAnswersTwice(name: string, max: nat, allowed: bool)
    requires max >= 2
    ensures var first := Behaviour([PatchedData(None)], Throws);
      var end := Reach(Create(name, max, first), [LoadEnds(name, Success(Null))] + [Tick(Behaviour([PatchedData(None)], Returns(allowed)))]);
      end.Some? && Quiescent(end.value) && Answers(end.value.trace) == 2
  {
    var first, i := Behaviour([PatchedData(None)], Throws), Initial(name, max);
    RunIs(i, first);
    DoOne(Begin(i), PatchedData(None));
    var t := State(name, max, false, false, map[name := Loading], 1, 0, multiset{name}, After(After(Start, Started), Saw(name, None)));
    assert Do(Begin(i), PatchedData(None)) == t && t.records[name] == Loading;
    assert Create(name, max, first) == t;
    var u := State(name, max, false, true, map[name := Loaded(Null)], 1, 1, multiset{}, After(t.trace, Arrived(name, Null)));
    assert Step(t, LoadEnds(name, Success(Null))) == u by {
      assert map[name := Loading][name := Loaded(Null)] == map[name := Loaded(Null)];
    }
    ReachOn(t, [], LoadEnds(name, Success(Null)));
    assert [] + [LoadEnds(name, Success(Null))] == [LoadEnds(name, Success(Null))];
    assert Answers(t.trace) == 0 && Answers(u.trace) == 0;
    ReachOn(t, [LoadEnds(name, Success(Null))], Tick(Behaviour([PatchedData(None)], Returns(allowed))));
    PatchRun(u, allowed);
  }

  lemma PatchRun(u: State, allowed: bool)
    requires !u.isDestroyed && u.ticks == 1 && u.loads == multiset{} && u.iterations < u.maxIterations && Answers(u.trace) == 0
    requires u.name in u.records && u.records[u.name] == Loaded(Null)
    ensures var v := Step(u, Tick(Behaviour([PatchedData(None)], Returns(allowed)))); Quiescent(v) && Answers(v.trace) == 2
  {
    var r := u.(ticks := 0);
    RunIs(r, Behaviour([PatchedData(None)], Returns(allowed)));
    DoOne(Begin(r), PatchedData(None));
    var v := OnRuleError(Begin(r));
    assert Answers(Begin(r).trace) == 0 && Answers(v.trace) == 1;
    assert Do(Begin(r), PatchedData(None)) == v && Ready(v);
  }

  lemma DoTwo(s: State, a: Act, b: Act)
    ensures DoAll(s, [a, b]) == Do(Do(s, a), b)
  {
    assert [a, b][..1] == [a] && [a][..0] == [];
    assert DoAll(s, []) == s && DoAll(s, [a]) == Do(s, a);
  }

  lemma ReachOn(s: State, past: seq<Event>, e: Event)
    requires Reach(s, past).Some? && Possible(Reach(s, past).value, e)
    ensures Reach(s, past + [e]) == Some(Step(Reach(s, past).value, e))
  {
    assert (past + [e])[..|past + [e]| - 1] == past;
  }

  /** Two records under way, both of whose loads fail. */
  lemma BothFail(s: State, a: string, b: string)
    requires a != b && s.loads == multiset{a, b}
    ensures Possible(Step(s, LoadEnds(a, Failure)), LoadEnds(b, Failure))
    ensures var v := Step(Step(s, LoadEnds(a, Failure)), LoadEnds(b, Failure));
      v.loads == multiset{} && v.ticks == s.ticks && Answers(v.trace) == Answers(s.trace) + 2
  {
    Fails(s, a);
    Fails(Step(s, LoadEnds(a, Failure)), b);
  }

  lemma Fails(s: State, a: string)
    requires a in s.loads
    ensures var u := Step(s, LoadEnds(a, Failure));
      u.loads == s.loads - multiset{a} && u.ticks == s.ticks && Answers(u.trace) == Answers(s.trace) + 1
  {
  }

  lemma FirstRun(own: string, a: string, b: string)
    requires a != b
    ensures var t := Create(own, 1, Behaviour([Refer(a, None), Refer(b, None)], Throws));
      t.loads == multiset{a, b} && t.ticks == 0 && Answers(t.trace) == 0
  {
    var i := State(own, 1, false, false, map[], 0, 0, multiset{}, Start);
    var first := Behaviour([Refer(a, None), Refer(b, None)], Throws);
    RunIs(i, first);
    DoTwo(Begin(i), Refer(a, None), Refer(b, None));
    ReferTwo(Begin(i), a, b);
  }

  lemma ReferTwo(s: State, a: string, b: string)
    requires a != b && s.records == map[] && s.loads == multiset{}
    ensures var u := Do(Do(s, Refer(a, None)), Refer(b, None));
      !Ready(u) && u.loads == multiset{a, b} && u.ticks == s.ticks && Answers(u.trace) == Answers(s.trace)
  {
    var u := Do(Do(s, Refer(a, None)), Refer(b, None));
    assert u.records == map[a := Loading, b := Loading];
    assert u.records[a] == Loading;
  }

  /** Two references, both of whose loads fail, give two answers. */
  lemma TwoFailuresAnswerTwice(own: string, a: string, b: string)
    requires a != b
    ensures var first := Behaviour([Refer(a, None), Refer(b, None)], Throws);
      var end := Reach(Create(own, 1, first), [LoadEnds(a, Failure)] + [LoadEnds(b, Failure)]);
      end.Some? && Quiescent(end.value) && Answers(end.value.trace) == 2
  {
    FirstRun(own, a, b);
    var t := Create(own, 1, Behaviour([Refer(a, None), Refer(b, None)], Throws));
    BothFail(t, a, b);
    ReachOn(t, [], LoadEnds(a, Failure));
    assert [] + [LoadEnds(a, Failure)] == [LoadEnds(a, Failure)];
    ReachOn(t, [LoadEnds(a, Failure)], LoadEnds(b, Failure));
  }
}
