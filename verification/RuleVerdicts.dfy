/** What the sender is told first, in every run of a rule's evaluation: the verdict that the rule function
    returned, or which error. */
module RuleVerdicts {
  import opened Common
  import opened RuleApplication

  function FirstAnswer(t: History): Option<Answer> {
    match t
    case Start => None
    case After(past, last) =>
      if FirstAnswer(past).Some? then FirstAnswer(past) else if last.Answered? then Some(last.answer) else None
  }

  // ---------- What calls for an answer ----------

  /** The first act that ends the application: a load that fails at once, or an error. */
  function CauseInActs(s: State, acts: seq<Act>): Option<Answer>
    decreases |acts|
  {
    if acts == [] then None
    else
      var before, act := acts[..|acts| - 1], acts[|acts| - 1];
      if CauseInActs(s, before).Some? then CauseInActs(s, before)
      else if FailsAtOnce(DoAll(s, before), act) then Some(LoadError)
      else if IsError(DoAll(s, before), act) then Some(RuleError)
      else None
  }

  /** A run beyond the limit is an error. Otherwise its acts decide; and if they do not, then its outcome,
      provided that nothing is loading and no run scheduled. */
  function CauseInRun(s: State, b: Behaviour): Option<Answer> {
    if s.iterations >= s.maxIterations then Some(RuleError)
    else if CauseInActs(Begin(s), b.acts).Some? then CauseInActs(Begin(s), b.acts)
    else if Ready(DoAll(Begin(s), b.acts)) then Some(if b.outcome.Returns? then Verdict(b.outcome.allowed) else RuleError)
    else None
  }

  function CauseInEvent(s: State, e: Event): Option<Answer>
    requires Possible(s, e)
  {
    match e
    case Tick(b) => CauseInRun(s.(ticks := s.ticks - 1), b)
    case LoadEnds(_, result) => if result.Failure? then Some(LoadError) else None
  }

  /** The first cause in the whole run, the constructor's evaluation included. */
  function FirstCause(name: string, max: nat, first: Behaviour, events: seq<Event>): Option<Answer>
    decreases |events|
  {
    if events == [] then CauseInRun(Initial(name, max), first)
    else
      var past, e := events[..|events| - 1], events[|events| - 1];
      var s := Reach(Create(name, max, first), past);
      if FirstCause(name, max, first, past).Some? then FirstCause(name, max, first, past)
      else if s.Some? && Possible(s.value, e) then CauseInEvent(s.value, e)
      else None
  }

  // ---------- The answer is the one called for ----------

  /** An application is destroyed exactly when it has answered. */
  predicate Marked(s: State) {
    s.isDestroyed <==> FirstAnswer(s.trace).Some?
  }

  /** The first answer in `u`: the one in the history `t`, or else `cause`. */
  predicate AnswersFirst(t: History, u: State, cause: Option<Answer>) {
    Marked(u) && FirstAnswer(u.trace) == if FirstAnswer(t).Some? then FirstAnswer(t) else cause
  }

  lemma LookAnswers(s: State, name: string, sync: Option<LoadResult>)
    requires Marked(s)
    ensures AnswersFirst(s.trace, Look(s, name, sync), if name !in s.records && sync == Some(Failure) then Some(LoadError) else None)
  {
  }

  lemma DoAnswers(s: State, act: Act)
    requires Marked(s)
    ensures AnswersFirst(s.trace, Do(s, act), if FailsAtOnce(s, act) then Some(LoadError) else if IsError(s, act) then Some(RuleError) else None)
  {
    match act
    case Refer(name, sync) => LookAnswers(s, name, sync);
    case OldData(sync) => LookAnswers(s, s.name, sync);
    case PatchedData(sync) => LookAnswers(s, s.name, sync);
    case _ =>
  }

  lemma {:induction false} DoAllAnswersFirst(s: State, acts: seq<Act>)
    requires Marked(s) && !s.isDestroyed
    ensures AnswersFirst(s.trace, DoAll(s, acts), CauseInActs(s, acts))
    decreases |acts|
  {
    if acts != [] {
      DoAllAnswersFirst(s, acts[..|acts| - 1]);
      DoAnswers(DoAll(s, acts[..|acts| - 1]), acts[|acts| - 1]);
    }
  }

  lemma ConcludeAnswers(s: State, outcome: Outcome)
    requires Marked(s)
    ensures AnswersFirst(s.trace, Conclude(s, outcome),
                     if !Ready(s) then None else Some(if outcome.Returns? then Verdict(outcome.allowed) else RuleError))
  {
  }

  lemma RunAnswers(s: State, b: Behaviour)
    requires Marked(s)
    ensures AnswersFirst(s.trace, Run(s, b), CauseInRun(s, b))
  {
    if !s.isDestroyed && s.iterations < s.maxIterations {
      RunIs(s, b);
      DoAllAnswersFirst(Begin(s), b.acts);
      ConcludeAnswers(DoAll(Begin(s), b.acts), b.outcome);
    }
  }

  lemma TickAnswers(s: State, r: State, b: Behaviour, u: State)
    requires Marked(s) && r.trace == s.trace && r.isDestroyed == s.isDestroyed && u == Run(r, b)
    ensures AnswersFirst(s.trace, u, CauseInRun(r, b))
  {
    RunAnswers(r, b);
  }

  lemma FinishAnswers(s: State, name: string, result: LoadResult)
    requires Marked(s)
    ensures AnswersFirst(s.trace, Finish(s, name, result), if result.Failure? then Some(LoadError) else None)
  {
  }

  /** In every run the sender is told first what the first cause calls for: the verdict that the rule
      function returned, with nothing loading and no run scheduled; RuleError for a throw at such a moment,
      a run beyond the limit, or an act that is an error; LoadError for a load that failed. */
  lemma {:induction false} FirstAnswerIsFirstCause(name: string, max: nat, first: Behaviour, events: seq<Event>)
    requires Reach(Create(name, max, first), events).Some?
    ensures var s := Reach(Create(name, max, first), events).value;
      FirstAnswer(s.trace) == FirstCause(name, max, first, events) && Marked(s)
    decreases |events|
  {
    if events == [] {
      RunAnswers(Initial(name, max), first);
    } else {
      var past := events[..|events| - 1];
      FirstAnswerIsFirstCause(name, max, first, past);
      var s := Reach(Create(name, max, first), past).value;
      match events[|events| - 1]
      case Tick(b) => TickAnswers(s, s.(ticks := s.ticks - 1), b, Reach(Create(name, max, first), events).value);
      case LoadEnds(n, result) => FinishAnswers(s.(loads := s.loads - multiset{n}), n, result);
    }
  }

  // ---------- Verdicts ----------

  /** Some evaluation returned this. */
  predicate Returned(first: Behaviour, events: seq<Event>, allowed: bool) {
    first.outcome == Returns(allowed) || exists i :: 0 <= i < |events| && events[i].Tick? && events[i].behaviour.outcome == Returns(allowed)
  }

  predicate Tells(t: History, answer: Answer) {
    t.After? && (t.last == Answered(answer) || Tells(t.past, answer))
  }

  lemma LookTells(s: State, name: string, sync: Option<LoadResult>, allowed: bool)
    ensures Tells(Look(s, name, sync).trace, Verdict(allowed)) == Tells(s.trace, Verdict(allowed))
  {
  }

  lemma {:induction false} DoAllTells(s: State, acts: seq<Act>, allowed: bool)
    ensures Tells(DoAll(s, acts).trace, Verdict(allowed)) == Tells(s.trace, Verdict(allowed))
    decreases |acts|
  {
    if acts != [] {
      var before, act := DoAll(s, acts[..|acts| - 1]), acts[|acts| - 1];
      DoAllTells(s, acts[..|acts| - 1], allowed);
      match act
      case Refer(name, sync) => LookTells(before, name, sync, allowed);
      case OldData(sync) => LookTells(before, before.name, sync, allowed);
      case PatchedData(sync) => LookTells(before, before.name, sync, allowed);
      case _ =>
    }
  }

  lemma RunTells(s: State, b: Behaviour, allowed: bool)
    requires b.outcome != Returns(allowed)
    ensures Tells(Run(s, b).trace, Verdict(allowed)) == Tells(s.trace, Verdict(allowed))
  {
    if !s.isDestroyed && s.iterations < s.maxIterations {
      RunIs(s, b);
      DoAllTells(Begin(s), b.acts, allowed);
    }
  }

  /** In every run, also among answers beyond the first: a verdict is one that some evaluation returned. No
      sender is allowed what the rule never allowed, and none refused what it never refused. */
  lemma {:induction false} VerdictsAreReturned(name: string, max: nat, first: Behaviour, events: seq<Event>, allowed: bool)
    requires Reach(Create(name, max, first), events).Some? && !Returned(first, events, allowed)
    ensures !Tells(Reach(Create(name, max, first), events).value.trace, Verdict(allowed))
    decreases |events|
  {
    if events == [] {
      RunTells(Initial(name, max), first, allowed);
    } else {
      var past, e := events[..|events| - 1], events[|events| - 1];
      assert forall i :: 0 <= i < |past| ==> past[i] == events[i];
      VerdictsAreReturned(name, max, first, past, allowed);
      var s := Reach(Create(name, max, first), past).value;
      if e.Tick? {
        assert events[|events| - 1].behaviour.outcome != Returns(allowed);
        RunTells(s.(ticks := s.ticks - 1), e.behaviour, allowed);
      }
    }
  }
}
