/** Broadcasts, write acknowledgements and completion of a transition. They come out right in calm
    runs; the one assumption of calm runs that concerns the callers, that no write is accepted into
    an empty queue while a cache write is in flight, cannot be dropped. */
module TransitionAcks {
  import opened Common
  import opened Transition
  import opened TransitionLaws

  /** The part of a history that concerns stores, acknowledgements and subscribers, oldest first. */
  function Stores(h: History): seq<Trace> {
    match h
    case Start => []
    case After(past, e) => Stores(past) + (if Concerns(e) then [e] else [])
  }

  predicate Concerns(e: Trace) {
    e.StorageSet? || e.CacheSet? || e.StorageAnswered? || e.CacheAnswered? || e.WriteAck? || e.Broadcast?
  }

  /** The calls that start one write. */
  function Opening(cfg: Config, w: Written): seq<Trace> {
    (if cfg.excluded then [] else [StorageSet(w.step, w.snapshot)]) + [CacheSet(w.step, w.snapshot)]
  }

  /** Then the answers. */
  function Answers(cfg: Config, w: Written): seq<Trace> {
    (if cfg.excluded then [] else [StorageAnswered(w.step.id)]) + [CacheAnswered(w.step.id)]
  }

  /** Then the acknowledgement, if it was asked for, and the broadcast. */
  function Closing(w: Written): seq<Trace> {
    (if w.step.message.isWriteAck
     then [WriteAck(w.step.sender, w.step.message.name, w.step.message.correlationId)] else [])
    + [Broadcast(w.step)]
  }

  function Block(cfg: Config, w: Written): seq<Trace> {
    Opening(cfg, w) + Answers(cfg, w) + Closing(w)
  }

  function Blocks(cfg: Config, writes: seq<Written>): seq<Trace> {
    if writes == [] then []
    else Blocks(cfg, writes[..|writes| - 1]) + Block(cfg, writes[|writes| - 1])
  }

  /** The step that was taken off the queue last is further ahead than the next version: `next`
      answered INVALID_VERSION and did not go on. */
  predicate Halted(t: State) {
    t.current.Some? && t.current.value.message.version > t.version + 1
  }

  /** The write in flight and how far it has come. */
  predicate InFlight(cfg: Config, t: State, done: seq<Written>, w: Written) {
    var call := Callback(w.step.id, AckOf(w.step.message));
    && !t.destroyed
    && t.load.None?
    && t.current == Some(w.step)
    && t.cacheCalls == [call]
    && (t.storageCalls == [] || (!cfg.excluded && t.storageCalls == [call]))
    && t.acks == (if w.step.message.isWriteAck
                  then map[w.step.sender := map[w.step.message.correlationId := Num(1 + |t.storageCalls|)]] else map[])
    && Stores(t.trace) == Blocks(cfg, done) + Opening(cfg, w)
                          + (if !cfg.excluded && t.storageCalls == [] then [StorageAnswered(w.step.id)] else [])
  }

  /** No write in flight: all that was written is finished, and unless the load is outstanding the
      transition is destroyed with an empty queue, or stands still for one of two reasons. */
  predicate Resting(cfg: Config, t: State, done: seq<Written>) {
    && t.cacheCalls == [] && t.storageCalls == [] && t.acks == map[]
    && Stores(t.trace) == Blocks(cfg, done)
    && (t.destroyed ==> t.steps == [] && t.load.None?)
    && (t.requested && t.load.None? ==> t.destroyed || Halted(t) || t.data == Null)
  }

  predicate Tidy(cfg: Config, t: State) {
    var writes := Summarize(t.trace, 0).cache;
    t.crashed || Resting(cfg, t, writes)
    || (writes != [] && InFlight(cfg, t, writes[..|writes| - 1], writes[|writes| - 1]))
  }

  /** The assumptions of a calm run. Stores answer without errors, storage before cache; the record
      exists or may be created; nobody deletes it; writes go to a live transition; and none is
      accepted into an empty queue while a cache write is in flight. */
  predicate Calm(t: State, e: Event) {
    match e
    case Submit(step, _) => !t.destroyed && !InWindow(t, step.message)
    case Refuse(_) => true
    case LoadDone(found) => t.load.Some? && (!Missing(found) || t.load.value)
    case LoadFailed => false
    case StorageDone(_, error) => !error
    case CacheDone(i, error) =>
      !error && i < |t.cacheCalls| && forall c :: c in t.storageCalls ==> c.id != t.cacheCalls[i].id
    case Stop => false
  }

  predicate InWindow(t: State, message: Message) {
    t.cacheCalls != [] && t.steps == [] && Acceptable(t, message)
  }

  predicate CalmRun(cfg: Config, events: seq<Event>)
    decreases |events|
  {
    events == [] ||
    var before := events[..|events| - 1];
    && CalmRun(cfg, before)
    && Run(cfg, INITIAL, before).Some?
    && Calm(Run(cfg, INITIAL, before).value, events[|events| - 1])
  }

  // ---------- Each event keeps a calm run tidy ----------

  lemma SendVersionExistsTidy(t: State, step: Step)
    ensures var u := SendVersionExists(t, step);
      && u == t.(existing := u.existing, trace := u.trace)
      && Stores(u.trace) == Stores(t.trace) && Summarize(u.trace, 0).cache == Summarize(t.trace, 0).cache
  {
  }

  /** `next` on a transition that has nothing in flight. */
  predicate Ready(cfg: Config, t: State) {
    && !t.crashed && !t.destroyed && t.requested && t.load.None?
    && t.cacheCalls == [] && t.storageCalls == [] && t.acks == map[]
    && Stores(t.trace) == Blocks(cfg, Summarize(t.trace, 0).cache)
  }

  lemma WriteTidy(cfg: Config, t: State, step: Step)
    requires Ready(cfg, t) && t.current == Some(step)
    ensures Tidy(cfg, Write(cfg, t, step))
  {
    var data := if step.message.payload.Parsed? then Apply(cfg, t.data, step.message) else None;
    if data.Some? {
      var done := Summarize(t.trace, 0).cache;
      var w := Written(step, Snapshot(step.message.version, data.value));
      var u := Write(cfg, t, step);
      WriteTrace(cfg, t, step, w);
      WriteSummary(cfg, t.trace, w, 0);
      WriteStores(cfg, t.trace, w);
      WriteCalls(cfg, t, step);
      assert (done + [w])[..|done|] == done;
      assert Stores(u.trace) == Blocks(cfg, done) + Opening(cfg, w) + [];
      assert InFlight(cfg, u, done, w);
    }
  }

  lemma WriteStores(cfg: Config, past: History, w: Written)
    ensures Stores(WriteMark(cfg, past, w)) == Stores(past) + Opening(cfg, w)
  {
  }

  lemma WriteCalls(cfg: Config, t: State, step: Step)
    requires t.cacheCalls == [] && t.storageCalls == [] && t.acks == map[]
    requires step.message.payload.Parsed? && Apply(cfg, t.data, step.message).Some?
    ensures var u := Write(cfg, t, step);
      && u.cacheCalls == [Callback(step.id, AckOf(step.message))]
      && u.storageCalls == (if cfg.excluded then [] else [Callback(step.id, AckOf(step.message))])
      && u.acks == (if step.message.isWriteAck
                    then map[step.sender := map[step.message.correlationId := Num(1 + |u.storageCalls|)]] else map[])
  {
    if step.message.isWriteAck {
      SetUpAckTwice(t, step);
      assert SetUpAck(t.(version := step.message.version), step).acks == SetUpAck(t, step).acks;
    }
  }

  lemma SetUpAckTwice(t: State, step: Step)
    requires t.acks == map[] && step.message.isWriteAck
    ensures SetUpAck(t, step).acks == map[step.sender := map[step.message.correlationId := Num(1)]]
    ensures SetUpAck(SetUpAck(t, step), step).acks == map[step.sender := map[step.message.correlationId := Num(2)]]
  {
    assert map[][step.message.correlationId := Num(1)] == map[step.message.correlationId := Num(1)];
    assert map[step.message.correlationId := Num(1)][step.message.correlationId := Num(2)] == map[step.message.correlationId := Num(2)];
  }

  lemma {:induction false} NextTidy(cfg: Config, t: State)
    requires Ready(cfg, t)
    ensures Tidy(cfg, Next(cfg, t))
    decreases |t.steps|
  {
    if t.data == Null {
    } else if t.steps == [] {
    } else {
      var step := Resolve(t.steps[0], t.version);
      var taken := t.(steps := t.steps[1..], current := Some(step));
      if step.message.version > t.version + 1 {
      } else if t.version != step.message.version - 1 {
        SendVersionExistsTidy(taken, step);
        NextTidy(cfg, SendVersionExists(taken, step));
      } else {
        WriteTidy(cfg, taken, step);
      }
    }
  }

  /** Queueing a step, or answering one, changes nothing that `Tidy` looks at. */
  lemma TidyFrame(cfg: Config, t: State, u: State)
    requires Tidy(cfg, t)
    requires u == t.(existing := u.existing, last := u.last, steps := u.steps, trace := u.trace)
    requires Stores(u.trace) == Stores(t.trace) && Summarize(u.trace, 0).cache == Summarize(t.trace, 0).cache
    requires u.steps == t.steps || !t.destroyed
    ensures Tidy(cfg, u)
  {
  }

  /** With a callback outstanding there is a write in flight, and it is the last one. */
  lemma MustBeInFlight(cfg: Config, t: State) returns (done: seq<Written>, w: Written)
    requires Tidy(cfg, t) && !t.crashed && (t.cacheCalls != [] || t.storageCalls != [])
    ensures Summarize(t.trace, 0).cache == done + [w] && InFlight(cfg, t, done, w)
  {
    var writes := Summarize(t.trace, 0).cache;
    done, w := writes[..|writes| - 1], writes[|writes| - 1];
  }

  lemma AnswerTidy(cfg: Config, t: State, step: Step)
    requires Tidy(cfg, t)
    ensures Tidy(cfg, SendVersionExists(Note(t, Received(step)), step))
  {
    var noted := Note(t, Received(step));
    SendVersionExistsTidy(noted, step);
    TidyFrame(cfg, t, SendVersionExists(noted, step));
  }

  lemma SubmitTidy(cfg: Config, t: State, step: Step, upsert: bool)
    requires Linked(cfg, t, Summarize(t.trace, 0)) && Tidy(cfg, t) && !t.crashed && Calm(t, Submit(step, upsert))
    ensures Tidy(cfg, Add(cfg, t, step, upsert))
  {
    if Acceptable(t, step.message) {
      var queued := Enqueue(Note(t, Received(step)), step);
      assert Stores(queued.trace) == Stores(t.trace) && Summarize(queued.trace, 0).cache == Summarize(t.trace, 0).cache;
      TidyFrame(cfg, t, queued);
      if !t.requested {
        FirstSubmit(cfg, queued, upsert);
      } else if |queued.steps| == 1 {
        LoneSubmit(cfg, queued);
      }
    } else {
      AnswerTidy(cfg, t, step);
      RejectTidy(cfg, t, InvalidData(step.sender, step.id), step);
      RejectTidy(cfg, t, InvalidVersion(step.sender, step.id, step.message.version), step);
    }
  }

  lemma RejectTidy(cfg: Config, t: State, e: Trace, step: Step)
    requires Tidy(cfg, t) && (e.InvalidData? || e.InvalidVersion?)
    ensures Tidy(cfg, Note(Note(t, Received(step)), e))
  {
    TidyFrame(cfg, t, Note(t, Received(step)));
    TidyFrame(cfg, Note(t, Received(step)), Note(Note(t, Received(step)), e));
  }

  lemma LoneSubmit(cfg: Config, t: State)
    requires Linked(cfg, t, Summarize(t.trace, 0)) && Tidy(cfg, t)
    requires !t.crashed && !t.destroyed && t.requested && t.cacheCalls == []
    ensures Tidy(cfg, Next(cfg, t))
  {
    if t.load.None? {
      NextTidy(cfg, t);
    } else {
      assert Next(cfg, t) == t;
    }
  }

  lemma FirstSubmit(cfg: Config, t: State, upsert: bool)
    requires Linked(cfg, t, Summarize(t.trace, 0)) && Tidy(cfg, t) && !t.crashed && !t.destroyed && !t.requested
    ensures Tidy(cfg, Note(t.(requested := true, load := Some(upsert)), LoadCalled))
  {
    var u := Note(t.(requested := true, load := Some(upsert)), LoadCalled);
    assert Stores(u.trace) == Stores(t.trace) && Summarize(u.trace, 0).cache == Summarize(t.trace, 0).cache == [];
  }

  lemma {:induction false} ResendTidy(t: State, steps: seq<Step>)
    requires steps != [] ==> Truthy(t.data)
    ensures var u := Resend(t, steps);
      && u == t.(trace := u.trace)
      && Stores(u.trace) == Stores(t.trace) && Summarize(u.trace, 0).cache == Summarize(t.trace, 0).cache
    decreases |steps|
  {
    if steps == [] {
    } else {
      SendVersionExistsTidy(t, steps[0]);
      ResendTidy(SendVersionExists(t, steps[0]), steps[1..]);
    }
  }

  lemma LoadTidy(cfg: Config, t: State, found: Option<Snapshot>)
    requires Linked(cfg, t, Summarize(t.trace, 0)) && Tidy(cfg, t)
    requires Enabled(t, LoadDone(found)) && Calm(t, LoadDone(found))
    ensures Tidy(cfg, Occur(cfg, t, LoadDone(found)))
  {
    var start := if Missing(found) then Snapshot(0, EMPTY_OBJECT) else found.value;
    var loaded := Note(t.(load := None, data := start.data, version := start.version), Loaded(start));
    if !Hangs(loaded) {
      ResendTidy(loaded, loaded.existing);
      NextTidy(cfg, FlushExisting(loaded));
    }
  }

  lemma WithoutOnly<T>(c: T)
    ensures Without([c], 0) == []
  {
  }

  lemma StorageTidy(cfg: Config, t: State, i: nat)
    requires Tidy(cfg, t) && Enabled(t, StorageDone(i, false))
    ensures Tidy(cfg, Occur(cfg, t, StorageDone(i, false)))
  {
    var done, w := MustBeInFlight(cfg, t);
    var answered := Note(t.(storageCalls := []), StorageAnswered(w.step.id));
    StorageStep(cfg, t, done, w);
    TidyInFlight(cfg, OnStorageSet(answered, false, AckOf(w.step.message)), done, w);
    StorageOccurs(cfg, t, i, Callback(w.step.id, AckOf(w.step.message)));
  }

  lemma StorageOccurs(cfg: Config, t: State, i: nat, call: Callback)
    requires Enabled(t, StorageDone(i, false)) && t.storageCalls == [call]
    ensures Occur(cfg, t, StorageDone(i, false)) == OnStorageSet(Note(t.(storageCalls := []), StorageAnswered(call.id)), false, call.ack)
  {
    assert i == 0;
    WithoutOnly(call);
  }

  lemma TidyInFlight(cfg: Config, t: State, done: seq<Written>, w: Written)
    requires InFlight(cfg, t, done, w) && Summarize(t.trace, 0).cache == done + [w]
    ensures Tidy(cfg, t)
  {
    assert (done + [w])[..|done|] == done;
  }

  lemma StorageStep(cfg: Config, t: State, done: seq<Written>, w: Written)
    requires InFlight(cfg, t, done, w) && t.storageCalls != []
    ensures var u := OnStorageSet(Note(t.(storageCalls := []), StorageAnswered(w.step.id)), false, AckOf(w.step.message));
      InFlight(cfg, u, done, w) && Summarize(u.trace, 0).cache == Summarize(t.trace, 0).cache
  {
    var answered := Note(t.(storageCalls := []), StorageAnswered(w.step.id));
    AckHalfway(answered, w);
    assert Stores(answered.trace) == Blocks(cfg, done) + Opening(cfg, w) + [StorageAnswered(w.step.id)];
  }

  lemma AckHalfway(t: State, w: Written)
    requires t.current == Some(w.step)
    requires t.acks == (if w.step.message.isWriteAck
                        then map[w.step.sender := map[w.step.message.correlationId := Num(2)]] else map[])
    ensures OnStorageSet(t, false, AckOf(w.step.message)) ==
            t.(acks := if w.step.message.isWriteAck
                       then map[w.step.sender := map[w.step.message.correlationId := Num(1)]] else map[])
  {
    if w.step.message.isWriteAck {
      var id := w.step.message.correlationId;
      assert map[id := Num(2)][id := Num(1)] == map[id := Num(1)];
      assert id in map[id := Num(1)];
    }
  }

  lemma AckDone(t: State, w: Written)
    requires t.acks == (if w.step.message.isWriteAck
                        then map[w.step.sender := map[w.step.message.correlationId := Num(1)]] else map[])
    ensures var acked := if w.step.message.isWriteAck then HandleAck(t, w.step.sender, w.step.message) else t;
      && acked == t.(acks := map[], trace := acked.trace)
      && Stores(After(acked.trace, Broadcast(w.step))) == Stores(t.trace) + Closing(w)
      && Summarize(acked.trace, 0).cache == Summarize(t.trace, 0).cache
  {
    if w.step.message.isWriteAck {
      var id := w.step.message.correlationId;
      assert map[id := Num(1)] - {id} == map[];
    }
  }

  lemma CacheTidy(cfg: Config, t: State, i: nat)
    requires Linked(cfg, t, Summarize(t.trace, 0)) && Tidy(cfg, t)
    requires Enabled(t, CacheDone(i, false)) && Calm(t, CacheDone(i, false))
    ensures Tidy(cfg, Occur(cfg, t, CacheDone(i, false)))
  {
    var done, w := MustBeInFlight(cfg, t);
    var call := Callback(w.step.id, AckOf(w.step.message));
    assert t.storageCalls == [call] ==> call in t.storageCalls;
    assert t.storageCalls == [];
    WithoutOnly(call);
    CacheStep(cfg, t, done, w);
    var answered := Note(t.(cacheCalls := []), CacheAnswered(call.id));
    var acked := if call.ack.Some? then HandleAck(answered, w.step.sender, call.ack.value) else answered;
    NextTidy(cfg, Note(acked, Broadcast(w.step)));
  }

  lemma CacheStep(cfg: Config, t: State, done: seq<Written>, w: Written)
    requires InFlight(cfg, t, done, w) && t.storageCalls == [] && Summarize(t.trace, 0).cache == done + [w]
    requires !t.crashed && t.requested
    ensures var answered := Note(t.(cacheCalls := []), CacheAnswered(w.step.id));
      var acked := if w.step.message.isWriteAck then HandleAck(answered, w.step.sender, w.step.message) else answered;
      Ready(cfg, Note(acked, Broadcast(w.step)))
  {
    var answered := Note(t.(cacheCalls := []), CacheAnswered(w.step.id));
    assert Summarize(answered.trace, 0).cache == done + [w];
    AckDone(answered, w);
    BlockFinished(cfg, t, done, w);
    var acked := if w.step.message.isWriteAck then HandleAck(answered, w.step.sender, w.step.message) else answered;
    Finished(cfg, acked, w, done + [w]);
  }

  lemma Finished(cfg: Config, t: State, w: Written, writes: seq<Written>)
    requires !t.crashed && !t.destroyed && t.requested && t.load.None? && t.cacheCalls == [] && t.storageCalls == [] && t.acks == map[]
    requires Summarize(t.trace, 0).cache == writes && Stores(After(t.trace, Broadcast(w.step))) == Blocks(cfg, writes)
    ensures Ready(cfg, Note(t, Broadcast(w.step)))
  {
  }

  lemma BlockFinished(cfg: Config, t: State, done: seq<Written>, w: Written)
    requires InFlight(cfg, t, done, w) && t.storageCalls == []
    ensures Stores(After(t.trace, CacheAnswered(w.step.id))) + Closing(w) == Blocks(cfg, done + [w])
  {
    BlockClosed(cfg, t.trace, done, w);
    BlocksSnoc(cfg, done, w);
  }

  lemma BlocksSnoc(cfg: Config, done: seq<Written>, w: Written)
    ensures Blocks(cfg, done + [w]) == Blocks(cfg, done) + Block(cfg, w)
  {
    assert (done + [w])[..|done|] == done;
  }

  lemma BlockClosed(cfg: Config, past: History, done: seq<Written>, w: Written)
    requires Stores(past) == Blocks(cfg, done) + Opening(cfg, w)
                             + (if !cfg.excluded then [StorageAnswered(w.step.id)] else [])
    ensures Stores(After(past, CacheAnswered(w.step.id))) + Closing(w) == Blocks(cfg, done) + Block(cfg, w)
  {
  }

  lemma EventTidy(cfg: Config, t: State, e: Event)
    requires Linked(cfg, t, Summarize(t.trace, 0)) && Tidy(cfg, t) && Enabled(t, e) && Calm(t, e)
    ensures Tidy(cfg, Occur(cfg, t, e))
  {
    match e
    case Submit(step, upsert) => SubmitTidy(cfg, t, step, upsert);
    case Refuse(step) => AnswerTidy(cfg, t, step);
    case LoadDone(found) => LoadTidy(cfg, t, found);
    case StorageDone(i, _) => StorageTidy(cfg, t, i);
    case CacheDone(i, _) => CacheTidy(cfg, t, i);
  }

  /** In every calm run the traffic with the stores, the requestors and the subscribers is a sequence
      of whole blocks, one for each write in version order, followed by the opened part of the block
      of the write in flight, if there is one. */
  lemma {:induction false} CalmRunsAreTidy(cfg: Config, events: seq<Event>)
    requires CalmRun(cfg, events) && Run(cfg, INITIAL, events).Some?
    ensures Tidy(cfg, Run(cfg, INITIAL, events).value)
    decreases |events|
  {
    if events == [] {
      assert Resting(cfg, INITIAL, []);
    } else {
      var before := events[..|events| - 1];
      CalmRunsAreTidy(cfg, before);
      RunKeeps(cfg, before, 0);
      EventTidy(cfg, Run(cfg, INITIAL, before).value, events[|events| - 1]);
    }
  }

  /** At the end of a calm run with nothing outstanding, each written step had its stores called and
      answered, then its acknowledgement if it asked for one, then its broadcast, once and in
      version order; and the transition is destroyed with an empty queue unless it stands still. */
  lemma CalmRunsFinish(cfg: Config, events: seq<Event>)
    requires CalmRun(cfg, events) && Run(cfg, INITIAL, events).Some?
    ensures var t := Run(cfg, INITIAL, events).value;
      !t.crashed && t.cacheCalls == [] ==>
        && Stores(t.trace) == Blocks(cfg, Summarize(t.trace, 0).cache)
        && t.acks == map[]
        && (t.requested && t.load.None? && !Halted(t) && t.data != Null ==> t.destroyed && t.steps == [])
  {
    CalmRunsAreTidy(cfg, events);
  }

  // ---------- The window cannot be dropped ----------

  function Broadcasts(h: History, x: nat): nat {
    match h
    case Start => 0
    case After(past, Broadcast(step)) => Broadcasts(past, x) + One(step.id, x)
    case After(past, _) => Broadcasts(past, x)
  }

  /** Step `x` is neither current nor queued, so nothing can broadcast it any more. */
  predicate Bypassed(t: State, x: nat, n: nat) {
    && (forall s :: s in t.steps ==> s.id != x)
    && t.current.Some? && t.current.value.id != x
    && Broadcasts(t.trace, x) == n
  }

  lemma SendVersionExistsBypasses(t: State, step: Step, x: nat)
    ensures Broadcasts(SendVersionExists(t, step).trace, x) == Broadcasts(t.trace, x)
  {
  }

  lemma {:induction false} NextBypasses(cfg: Config, t: State, x: nat, n: nat)
    requires Bypassed(t, x, n) || (t.steps != [] && !t.destroyed && t.data != Null
                                   && (forall s :: s in t.steps ==> s.id != x) && Broadcasts(t.trace, x) == n)
    ensures Bypassed(Next(cfg, t), x, n)
    decreases |t.steps|
  {
    if t.destroyed || t.data == Null || t.steps == [] {
    } else {
      var step := Resolve(t.steps[0], t.version);
      assert t.steps[0] in t.steps;
      var taken := t.(steps := t.steps[1..], current := Some(step));
      if step.message.version > t.version + 1 {
      } else if t.version != step.message.version - 1 {
        SendVersionExistsBypasses(taken, step, x);
        NextBypasses(cfg, SendVersionExists(taken, step), x, n);
      } else {
        WriteBypasses(cfg, taken, step, x);
      }
    }
  }

  lemma WriteBypasses(cfg: Config, t: State, step: Step, x: nat)
    ensures var u := Write(cfg, t, step);
      u.steps == t.steps && u.current == t.current && Broadcasts(u.trace, x) == Broadcasts(t.trace, x)
  {
    var data := if step.message.payload.Parsed? then Apply(cfg, t.data, step.message) else None;
    if data.Some? {
      var w := Written(step, Snapshot(step.message.version, data.value));
      WriteTrace(cfg, t, step, w);
      assert Broadcasts(WriteMark(cfg, t.trace, w), x) == Broadcasts(t.trace, x);
    }
  }

  lemma {:induction false} StepErrorsBypass(past: History, steps: seq<Step>, x: nat)
    ensures Broadcasts(StepErrors(past, steps), x) == Broadcasts(past, x)
    decreases |steps|
  {
    if steps == [] {
    } else {
      StepErrorsBypass(if steps[0].sender.isRemote then past else After(past, StepError(steps[0].sender, steps[0].id)), steps[1..], x);
    }
  }

  lemma DestroyBypasses(t: State, failed: bool, x: nat, n: nat)
    requires Bypassed(t, x, n)
    ensures Bypassed(Destroy(t, failed), x, n)
  {
    var told := Note(t.(acks := map[]), AckErrors(t.acks));
    assert Bypassed(told, x, n);
    assert Bypassed(if failed then ReportErrors(t) else t, x, n);
  }

  lemma FatalBypasses(t: State, x: nat, n: nat)
    requires Bypassed(t, x, n)
    ensures Bypassed(Fatal(t), x, n)
  {
    StepErrorsBypass(t.trace, t.steps, x);
    if !t.destroyed {
      DestroyBypasses(t.(trace := StepErrors(t.trace, t.steps)), true, x, n);
    }
  }

  lemma HandleAckBypasses(t: State, socket: Socket, message: Message, x: nat, n: nat)
    requires Bypassed(t, x, n)
    ensures Bypassed(HandleAck(t, socket, message), x, n)
  {
  }

  lemma {:induction false} ResendBypasses(t: State, steps: seq<Step>, x: nat)
    ensures var u := Resend(t, steps);
      u.steps == t.steps && u.current == t.current && u.data == t.data && Broadcasts(u.trace, x) == Broadcasts(t.trace, x)
    decreases |steps|
  {
    if steps == [] {
    } else {
      ResendBypasses(SendVersionExists(t, steps[0]), steps[1..], x);
    }
  }

  lemma SubmitBypasses(cfg: Config, t: State, step: Step, upsert: bool, x: nat, n: nat)
    requires Bypassed(t, x, n) && step.id != x
    ensures Bypassed(Add(cfg, t, step, upsert), x, n)
  {
    var noted := Note(t, Received(step));
    if Acceptable(t, step.message) {
      var queued := Enqueue(noted, step);
      assert Bypassed(queued, x, n);
      if t.requested && |queued.steps| == 1 {
        NextBypasses(cfg, queued, x, n);
      }
    } else {
      SendVersionExistsBypasses(noted, step, x);
    }
  }

  lemma LoadBypasses(cfg: Config, t: State, found: Option<Snapshot>, upsert: bool, x: nat, n: nat)
    requires Bypassed(t, x, n)
    ensures Bypassed(OnRecord(cfg, t, found, upsert), x, n)
  {
    if Missing(found) && !upsert {
      FatalBypasses(t, x, n);
    } else {
      var start := if Missing(found) then Snapshot(0, EMPTY_OBJECT) else found.value;
      ProceedBypasses(cfg, Note(t.(data := start.data, version := start.version), Loaded(start)), x, n);
    }
  }

  lemma ProceedBypasses(cfg: Config, t: State, x: nat, n: nat)
    requires Bypassed(t, x, n)
    ensures Bypassed(Proceed(cfg, t), x, n)
  {
    if !Hangs(t) {
      ResendBypasses(t, t.existing, x);
      NextBypasses(cfg, FlushExisting(t), x, n);
    }
  }

  lemma CacheSetBypasses(cfg: Config, t: State, error: bool, ack: Option<Message>, x: nat, n: nat)
    requires Bypassed(t, x, n)
    ensures Bypassed(OnCacheSet(cfg, t, error, ack), x, n)
  {
    var acked := if ack.Some? then HandleAck(t, t.current.value.sender, ack.value) else t;
    if ack.Some? { HandleAckBypasses(t, t.current.value.sender, ack.value, x, n); }
    if error {
      FatalBypasses(acked, x, n);
    } else if !acked.destroyed {
      NextBypasses(cfg, Note(acked, Broadcast(t.current.value)), x, n);
    }
  }

  lemma EventBypasses(cfg: Config, t: State, e: Event, x: nat, n: nat)
    requires Bypassed(t, x, n) && Enabled(t, e) && (e.Submit? ==> e.step.id != x)
    ensures Bypassed(Occur(cfg, t, e), x, n)
  {
    match e
    case Submit(step, upsert) => SubmitBypasses(cfg, t, step, upsert, x, n);
    case Refuse(step) => SendVersionExistsBypasses(Note(t, Received(step)), step, x);
    case LoadDone(found) => LoadBypasses(cfg, t.(load := None), found, t.load.value, x, n);
    case LoadFailed => DestroyBypasses(t.(load := None), true, x, n);
    case StorageDone(i, error) =>
      var call := t.storageCalls[i];
      var answered := Note(t.(storageCalls := Without(t.storageCalls, i)), StorageAnswered(call.id));
      if call.ack.Some? { HandleAckBypasses(answered, t.current.value.sender, call.ack.value, x, n); }
      FatalBypasses(if call.ack.Some? then HandleAck(answered, t.current.value.sender, call.ack.value) else answered, x, n);
    case CacheDone(i, error) =>
      var call := t.cacheCalls[i];
      CacheSetBypasses(cfg, Note(t.(cacheCalls := Without(t.cacheCalls, i)), CacheAnswered(call.id)), error, call.ack, x, n);
    case Stop => DestroyBypasses(t, false, x, n);
  }

  /** A write accepted in the window costs the write in flight its broadcast: whatever happens
      afterwards, subscribers are never told of it. */
  lemma {:induction false} WindowLosesBroadcast(
    cfg: Config, t: State, done: seq<Written>, w: Written, step: Step, upsert: bool, more: seq<Event>)
    requires InFlight(cfg, t, done, w) && t.requested && t.data != Null
    requires InWindow(t, step.message) && step.id != w.step.id
    requires forall i :: 0 <= i < |more| && more[i].Submit? ==> more[i].step.id != w.step.id
    ensures var end := Run(cfg, Add(cfg, t, step, upsert), more);
      end.Some? ==> Broadcasts(end.value.trace, w.step.id) == Broadcasts(t.trace, w.step.id) && Bypassed(end.value, w.step.id, Broadcasts(t.trace, w.step.id))
    decreases |more|
  {
    if more == [] {
      var queued := Enqueue(Note(t, Received(step)), step);
      assert Broadcasts(queued.trace, w.step.id) == Broadcasts(t.trace, w.step.id);
      NextBypasses(cfg, queued, w.step.id, Broadcasts(t.trace, w.step.id));
    } else {
      var before := more[..|more| - 1];
      WindowLosesBroadcast(cfg, t, done, w, step, upsert, before);
      var s := Run(cfg, Add(cfg, t, step, upsert), before);
      if s.Some? && Enabled(s.value, more[|more| - 1]) {
        EventBypasses(cfg, s.value, more[|more| - 1], w.step.id, Broadcasts(t.trace, w.step.id));
      }
    }
  }

  // ---------- A gap in the versions wedges the record ----------

  /** Nothing is outstanding and `next` stands before a gap. */
  predicate Wedged(t: State, n: nat) {
    && !t.destroyed && !t.crashed && t.requested && t.load.None? && t.cacheCalls == [] && t.storageCalls == []
    && t.data != Null && Halted(t) && t.version >= -2
    && t.last.Some? && t.last.value >= t.current.value.message.version
    && |Summarize(t.trace, 0).cache| == n
  }

  /** After INVALID_VERSION in `next` no later write is ever applied and the transition never ends,
      unless the record is deleted: every further submission is rejected, queued for good, or meets
      the same gap. */
  lemma {:induction false} GapWedges(cfg: Config, t: State, n: nat, more: seq<Event>)
    requires Wedged(t, n) && forall i :: 0 <= i < |more| ==> more[i] != Stop
    ensures Run(cfg, t, more).Some? ==> Wedged(Run(cfg, t, more).value, n) && Run(cfg, t, more).value.version == t.version
    decreases |more|
  {
    if more == [] {
    } else {
      var before := more[..|more| - 1];
      GapWedges(cfg, t, n, before);
      var s := Run(cfg, t, before);
      var e := more[|more| - 1];
      if s.Some? && Enabled(s.value, e) {
        WedgeHolds(cfg, s.value, n, e);
      }
    }
  }

  lemma WedgeHolds(cfg: Config, t: State, n: nat, e: Event)
    requires Wedged(t, n) && Enabled(t, e) && e != Stop
    ensures Wedged(Occur(cfg, t, e), n) && Occur(cfg, t, e).version == t.version
  {
    var step := e.step;
    var noted := Note(t, Received(step));
    SendVersionExistsTidy(noted, step);
    if e.Submit? && Acceptable(t, step.message) && t.steps == [] {
      var queued := Enqueue(noted, step);
      assert queued.steps == [step] && queued.steps[1..] == [];
      assert step.message.version == t.last.value + 1 > t.version + 1;
    }
  }

  /** One explicit version too far ahead, sent while the record is being loaded, is enough. */
  lemma GapOccurs(cfg: Config, sender: Socket, version: int, snapshot: Snapshot)
    requires Truthy(snapshot.data) && snapshot.version >= -2 && version > snapshot.version + 1
    ensures Run(cfg, INITIAL, [] + [WholeUpdate(0, version, sender)] + [LoadDone(Some(snapshot))]).Some?
    ensures Wedged(Run(cfg, INITIAL, [] + [WholeUpdate(0, version, sender)] + [LoadDone(Some(snapshot))]).value, 0)
  {
    var e := WholeUpdate(0, version, sender);
    SubmitBeforeLoad(cfg, INITIAL, e.step, false);
    RunSnoc(cfg, [], INITIAL, e);
    var s1 := Occur(cfg, INITIAL, e);
    RunSnoc(cfg, [] + [e], s1, LoadDone(Some(snapshot)));
    var loaded := Note(s1.(load := None, data := snapshot.data, version := snapshot.version), Loaded(snapshot));
    assert FlushExisting(loaded) == loaded;
    var taken := loaded.(steps := loaded.steps[1..], current := Some(e.step));
    assert Next(cfg, loaded) == Note(taken, InvalidVersion(sender, 0, snapshot.version));
  }
}
