/** How a transition ends, in every run: when it fails, who is told, and that the handler is told once. */
module TransitionErrors {
  import opened Common
  import opened Transition
  import opened TransitionLaws

  /** What a history says about failures: errors sent for the queued step `x`, rounds of errors for outstanding
      acknowledgements, errors for the step in turn, and reports to the handler. */
  datatype Tally = Tally(steps: nat, acks: nat, current: nat, completed: nat)

  function Tallied(h: History, x: nat): Tally {
    match h
    case Start => Tally(0, 0, 0, 0)
    case After(past, e) =>
      var n := Tallied(past, x);
      match e
      case StepError(_, id) => n.(steps := n.steps + One(id, x))
      case AckErrors(_) => n.(acks := n.acks + 1)
      case CurrentError(_, _) => n.(current := n.current + 1)
      case Completed => n.(completed := n.completed + 1)
      case _ => n
  }

  /** How often the step `x` stands in the queue with a sender on this server. */
  function LocalTimes(steps: seq<Step>, x: nat): nat {
    if steps == [] then 0 else (if steps[0].sender.isRemote then 0 else One(steps[0].id, x)) + LocalTimes(steps[1..], x)
  }

  /** The event is a failure. */
  predicate Fails(t: State, e: Event)
    requires Enabled(t, e)
  {
    match e
    case LoadDone(found) => Missing(found) && !t.load.value
    case LoadFailed => true
    case StorageDone(_, error) => error
    case CacheDone(_, error) => error || t.current.None?
    case _ => false
  }

  /** The failures that the senders of queued steps are told: not a load that fails. */
  predicate TellsQueue(t: State, e: Event)
    requires Enabled(t, e)
  {
    Fails(t, e) && !e.LoadFailed? && (e.CacheDone? ==> t.current.Some?)
  }

  /** No error, and the handler is told exactly if the transition ends. */
  predicate Quietly(t: State, u: State, x: nat) {
    && (t.destroyed ==> u.destroyed)
    && Tallied(u.trace, x) == var n := Tallied(t.trace, x); n.(completed := n.completed + if u.destroyed && !t.destroyed then 1 else 0)
  }

  lemma WriteQuietly(cfg: Config, t: State, step: Step, x: nat)
    ensures Quietly(t, Write(cfg, t, step), x)
  {
    var data := if step.message.payload.Parsed? then Apply(cfg, t.data, step.message) else None;
    if data.Some? {
      WriteTrace(cfg, t, step, Written(step, Snapshot(step.message.version, data.value)));
    }
  }

  lemma {:induction false} NextQuietly(cfg: Config, t: State, x: nat)
    ensures Quietly(t, Next(cfg, t), x)
    decreases |t.steps|
  {
    if t.destroyed || t.data == Null || t.steps == [] {
    } else {
      var step := Resolve(t.steps[0], t.version);
      var taken := t.(steps := t.steps[1..], current := Some(step));
      if step.message.version > t.version + 1 {
      } else if t.version != step.message.version - 1 {
        NextQuietly(cfg, SendVersionExists(taken, step), x);
      } else {
        WriteQuietly(cfg, taken, step, x);
      }
    }
  }

  lemma {:induction false} ResendQuietly(t: State, steps: seq<Step>, x: nat)
    ensures Quietly(t, Resend(t, steps), x) && Resend(t, steps).destroyed == t.destroyed
    decreases |steps|
  {
    if steps != [] { ResendQuietly(SendVersionExists(t, steps[0]), steps[1..], x); }
  }

  lemma HandleAckQuietly(t: State, socket: Socket, message: Message, x: nat)
    ensures var u := HandleAck(t, socket, message);
      Quietly(t, u, x) && u == t.(acks := u.acks, trace := u.trace)
  {
  }

  lemma AddQuietly(cfg: Config, t: State, step: Step, upsert: bool, x: nat)
    ensures Quietly(t, Add(cfg, t, step, upsert), x)
  {
    var noted := Note(t, Received(step));
    assert Quietly(t, noted, x);
    if Acceptable(t, step.message) {
      var queued := Enqueue(noted, step);
      assert Quietly(t, queued, x) && queued.destroyed == t.destroyed;
      NextQuietly(cfg, queued, x);
    }
  }

  lemma LoadQuietly(cfg: Config, t: State, found: Option<Snapshot>, upsert: bool, x: nat)
    requires !(Missing(found) && !upsert)
    ensures Quietly(t, OnRecord(cfg, t, found, upsert), x)
  {
    var start := if Missing(found) then Snapshot(0, EMPTY_OBJECT) else found.value;
    var loaded := Note(t.(data := start.data, version := start.version), Loaded(start));
    if !Hangs(loaded) {
      ResendQuietly(loaded, loaded.existing, x);
      NextQuietly(cfg, FlushExisting(loaded), x);
    }
  }

  lemma {:induction false} StepErrorsTold(past: History, steps: seq<Step>, x: nat)
    ensures var n := Tallied(past, x); Tallied(StepErrors(past, steps), x) == n.(steps := n.steps + LocalTimes(steps, x))
    decreases |steps|
  {
    if steps != [] {
      StepErrorsTold(if steps[0].sender.isRemote then past else After(past, StepError(steps[0].sender, steps[0].id)), steps[1..], x);
    }
  }

  /** A live transition has failed: each local sender of a queued step was told for that step, if `queue`; those
      who wait for an acknowledgement were told, and the local sender of the step in turn; it is over, and
      nothing of the queue is written any more. */
  predicate Failed(t: State, u: State, queue: bool, x: nat) {
    var n := Tallied(t.trace, x);
    && u.destroyed && u.acks == map[] && u.steps == t.steps && u.data == t.data && u.version == t.version
    && Tallied(u.trace, x) == Tally(
         n.steps + (if queue then LocalTimes(t.steps, x) else 0), n.acks + 1,
         n.current + (if t.current.Some? && !t.current.value.sender.isRemote then 1 else 0), n.completed + 1)
  }

  lemma DestroyFails(t: State, x: nat)
    requires !t.destroyed
    ensures Failed(t, Destroy(t, true), false, x)
  {
    var told := Note(t.(acks := map[]), AckErrors(t.acks));
    var n := Tallied(t.trace, x);
    assert Tallied(told.trace, x) == n.(acks := n.acks + 1);
    var current := t.current.Some? && !t.current.value.sender.isRemote;
    assert Tallied(ReportErrors(t).trace, x) == n.(acks := n.acks + 1, current := n.current + if current then 1 else 0);
  }

  lemma FatalFails(t: State, x: nat)
    requires !t.destroyed
    ensures Failed(t, Fatal(t), true, x)
  {
    StepErrorsTold(t.trace, t.steps, x);
    DestroyFails(t.(trace := StepErrors(t.trace, t.steps)), x);
  }

  lemma CacheEnds(cfg: Config, t: State, error: bool, ack: Option<Message>, x: nat)
    ensures var u := OnCacheSet(cfg, t, error, ack);
      if !t.destroyed && (error || t.current.None?) then Failed(t, u, t.current.Some?, x) else Quietly(t, u, x)
  {
    if t.current.None? {
      if !t.destroyed { DestroyFails(t, x); }
    } else {
      if ack.Some? { HandleAckQuietly(t, t.current.value.sender, ack.value, x); }
      var acked := if ack.Some? then HandleAck(t, t.current.value.sender, ack.value) else t;
      if error {
        if !t.destroyed { FatalFails(acked, x); }
      } else if !acked.destroyed {
        NextQuietly(cfg, Note(acked, Broadcast(t.current.value)), x);
      }
    }
  }

  lemma StorageEnds(t: State, error: bool, ack: Option<Message>, x: nat)
    ensures var u := OnStorageSet(t, error, ack);
      if !t.destroyed && error then Failed(t, u, true, x) else Quietly(t, u, x)
  {
    if ack.Some? && t.current.Some? { HandleAckQuietly(t, t.current.value.sender, ack.value, x); }
    if error && !t.destroyed {
      FatalFails(if ack.Some? && t.current.Some? then HandleAck(t, t.current.value.sender, ack.value) else t, x);
    }
  }

  lemma AnswerEnds(cfg: Config, t: State, e: Event, x: nat)
    requires Enabled(t, e) && (e.StorageDone? || e.CacheDone?)
    ensures var u := Occur(cfg, t, e);
      if !t.destroyed && Fails(t, e) then Failed(t, u, TellsQueue(t, e), x) else Quietly(t, u, x)
  {
    match e
    case StorageDone(i, error) =>
      var call := t.storageCalls[i];
      var answered := Note(t.(storageCalls := Without(t.storageCalls, i)), StorageAnswered(call.id));
      assert Tallied(answered.trace, x) == Tallied(t.trace, x);
      StorageEnds(answered, error, call.ack, x);
    case CacheDone(i, error) =>
      var call := t.cacheCalls[i];
      var answered := Note(t.(cacheCalls := Without(t.cacheCalls, i)), CacheAnswered(call.id));
      assert Tallied(answered.trace, x) == Tallied(t.trace, x);
      CacheEnds(cfg, answered, error, call.ack, x);
  }

  /** One event: a failure ends a live transition and is told to everybody concerned, once; nothing else is told
      as an error; and after the end nobody is told anything of the kind. */
  lemma EventEnds(cfg: Config, t: State, e: Event, x: nat)
    requires Enabled(t, e)
    ensures var u := Occur(cfg, t, e);
      if !t.destroyed && Fails(t, e) then Failed(t, u, TellsQueue(t, e), x) else Quietly(t, u, x)
  {
    match e
    case Submit(step, upsert) => AddQuietly(cfg, t, step, upsert, x);
    case Refuse(step) =>
    case LoadDone(found) =>
      if Fails(t, e) {
        if !t.destroyed { FatalFails(t.(load := None), x); }
      } else {
        LoadQuietly(cfg, t.(load := None), found, t.load.value, x);
      }
    case LoadFailed => if !t.destroyed { DestroyFails(t.(load := None), x); }
    case StorageDone(_, _) => AnswerEnds(cfg, t, e, x);
    case CacheDone(_, _) => AnswerEnds(cfg, t, e, x);
    case Stop =>
  }

  /** The queue at the moment of the failure that ended the run, if its senders were to be told. */
  function QueueTold(cfg: Config, events: seq<Event>): seq<Step>
    requires Run(cfg, INITIAL, events).Some?
    decreases |events|
  {
    if events == [] then []
    else
      var past, e := events[..|events| - 1], events[|events| - 1];
      var t := Run(cfg, INITIAL, past).value;
      if t.destroyed then QueueTold(cfg, past) else if TellsQueue(t, e) then t.steps else []
  }

  /** A failure, the first thing that ended the run. */
  predicate HasFailed(cfg: Config, events: seq<Event>)
    requires Run(cfg, INITIAL, events).Some?
    decreases |events|
  {
    events != [] &&
    var past, e := events[..|events| - 1], events[|events| - 1];
    var t := Run(cfg, INITIAL, past).value;
    if t.destroyed then HasFailed(cfg, past) else Fails(t, e)
  }

  /** In every run: the handler is told exactly once if the transition is over, and not before; errors go out only
      if a failure ended it: then each local sender of a step that was queued at that moment is told once for
      that step, unless the failure was that of the load, and those who wait for acknowledgements once. */
  lemma {:induction false} FailuresAreTold(cfg: Config, events: seq<Event>, x: nat)
    requires Run(cfg, INITIAL, events).Some?
    ensures var t := Run(cfg, INITIAL, events).value; var n := Tallied(t.trace, x);
      && n.completed == (if t.destroyed then 1 else 0)
      && n.steps == LocalTimes(QueueTold(cfg, events), x)
      && n.acks == (if HasFailed(cfg, events) then 1 else 0)
      && (!t.destroyed ==> !HasFailed(cfg, events) && QueueTold(cfg, events) == [])
    decreases |events|
  {
    if events != [] {
      var past := events[..|events| - 1];
      FailuresAreTold(cfg, past, x);
      EventEnds(cfg, Run(cfg, INITIAL, past).value, events[|events| - 1], x);
    }
  }
}
