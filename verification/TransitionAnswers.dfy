/** What senders are told, in every run: each refusal goes to the sender of a step that came in, a
    VERSION_EXISTS carries the version and data the record had just then, and which refusal a step
    gets depends on nothing but its payload and the versions let in before it. */
module TransitionAnswers {
  import opened Common
  import opened Transition
  import opened TransitionLaws

  /** A step that asked for the next version may carry, later on, the version it was given. */
  predicate SameWrite(came: Step, step: Step) {
    came == step || (came.message.version == -1 && came.(message := came.message.(version := step.message.version)) == step)
  }

  predicate CameIn(h: History, step: Step) {
    match h
    case Start => false
    case After(past, e) => CameIn(past, step) || (e.Received? && SameWrite(e.step, step))
  }

  /** The record as the history has it: what was loaded, or the last write since. */
  predicate Stands(h: History, now: Snapshot) {
    var s := Summarize(h, 0);
    s.base.Some? && now == Head(s.base.value, s.cache)
  }

  // ---------- When an entry is right, given the history before it ----------

  ghost predicate ExistsIsRight(past: History, e: Trace)
    requires e.VersionExists?
  {
    && Stands(past, Snapshot(e.version, e.data))
    && Truthy(e.data)
    && exists step :: CameIn(past, step) && step.sender == e.to && step.id == e.id
         && step.message.isWriteAck == e.isWriteAck && step.message.correlationId == e.correlationId
  }

  /** Too far ahead of what was let in, on arrival; or of the record, when its turn has come. */
  ghost predicate VersionIsRight(past: History, e: Trace)
    requires e.InvalidVersion?
  {
    || (past.After? && past.last.Received? && TooFar(past.past, past.last.step.message)
        && e == InvalidVersion(past.last.step.sender, past.last.step.id, past.last.step.message.version))
    || exists step, now :: CameIn(past, step) && Stands(past, now) && step.message.version > now.version + 1
         && e == InvalidVersion(step.sender, step.id, now.version)
  }

  predicate DataIsRight(past: History, e: Trace)
    requires e.InvalidData?
  {
    && past.After? && past.last.Received? && BadData(past.last.step.message)
    && e == InvalidData(past.last.step.sender, past.last.step.id)
  }

  predicate AcceptIsRight(past: History, e: Trace)
    requires e.Accepted?
  {
    && past.After? && past.last.Received? && FitsIn(past.past, past.last.step.message)
    && e == Accepted(past.last.step.id, past.last.step.message)
  }

  ghost predicate AckIsRight(past: History, e: Trace)
    requires e.WriteAck?
  {
    && (exists step :: CameIn(past, step) && step.sender == e.to)
    && (exists step :: CameIn(past, step) && step.message.isWriteAck
          && step.message.name == e.name && step.message.correlationId == e.correlationId)
  }

  ghost predicate ErrorIsRight(past: History, e: Trace)
    requires e.StepError? || e.CurrentError?
  {
    exists step :: CameIn(past, step) && step.sender == e.to && !step.sender.isRemote
      && (if e.StepError? then step.id == e.id else step.message.name == e.name)
  }

  ghost predicate Right(past: History, e: Trace) {
    match e
    case VersionExists(_, _, _, _, _, _) => ExistsIsRight(past, e)
    case InvalidVersion(_, _, _) => VersionIsRight(past, e)
    case InvalidData(_, _) => DataIsRight(past, e)
    case Accepted(_, _) => AcceptIsRight(past, e)
    case StorageSet(step, _) => CameIn(past, step)
    case CacheSet(step, _) => CameIn(past, step)
    case Broadcast(step) => CameIn(past, step)
    case WriteAck(_, _, _) => AckIsRight(past, e)
    case StepError(_, _) => ErrorIsRight(past, e)
    case CurrentError(_, _) => ErrorIsRight(past, e)
    case _ => true
  }

  /** The two tests on arrival, on the versions let in before. */
  predicate TooFar(past: History, message: Message) {
    var last := LastExplicit(Summarize(past, 0).accepted);
    !BadData(message) && last.Some? && message.version > last.value + 1
  }

  predicate FitsIn(past: History, message: Message) {
    var last := LastExplicit(Summarize(past, 0).accepted);
    !BadData(message) && (last.Some? ==> message.version == last.value + 1)
  }

  ghost predicate Truthful(h: History) {
    h.After? ==> Truthful(h.past) && Right(h.past, h.last)
  }

  // ---------- The steps that the transition holds came in ----------

  ghost predicate Known(t: State) {
    && (forall step :: step in t.steps ==> CameIn(t.trace, step))
    && (forall step :: step in t.existing ==> CameIn(t.trace, step))
    && (t.current.Some? ==> CameIn(t.trace, t.current.value))
    && (forall call :: call in t.storageCalls ==> FromStep(t.trace, call))
    && (forall call :: call in t.cacheCalls ==> FromStep(t.trace, call))
  }

  ghost predicate FromStep(h: History, call: Callback) {
    exists step :: CameIn(h, step) && call == Callback(step.id, AckOf(step.message))
  }

  ghost predicate Honest(t: State) {
    Known(t) && Truthful(t.trace)
  }

  /** Once the record is loaded the fields are the record. */
  predicate Standing(t: State) {
    t.data != Null ==> Stands(t.trace, Snapshot(t.version, t.data))
  }

  lemma FromStepLater(h: History, e: Trace, call: Callback)
    requires FromStep(h, call)
    ensures FromStep(After(h, e), call)
  {
    var step :| CameIn(h, step) && call == Callback(step.id, AckOf(step.message));
    assert CameIn(After(h, e), step);
  }

  lemma NoteHonest(t: State, e: Trace)
    requires Honest(t) && Right(t.trace, e)
    ensures Honest(Note(t, e))
  {
    var u := Note(t, e);
    forall call | call in t.storageCalls ensures FromStep(u.trace, call) { FromStepLater(t.trace, e, call); }
    forall call | call in t.cacheCalls ensures FromStep(u.trace, call) { FromStepLater(t.trace, e, call); }
  }

  lemma SendVersionExistsHonest(t: State, step: Step)
    requires Honest(t) && Standing(t) && CameIn(t.trace, step)
    ensures Honest(SendVersionExists(t, step)) && Standing(SendVersionExists(t, step))
  {
    if Truthy(t.data) {
      var e := VersionExists(step.sender, step.id, t.version, t.data, step.message.isWriteAck, step.message.correlationId);
      assert ExistsIsRight(t.trace, e);
      NoteHonest(t, e);
    }
  }

  lemma {:induction false} ResendHonest(t: State, steps: seq<Step>)
    requires Honest(t) && Standing(t) && forall step :: step in steps ==> CameIn(t.trace, step)
    ensures Honest(Resend(t, steps)) && Standing(Resend(t, steps))
    decreases |steps|
  {
    if steps != [] {
      SendVersionExistsHonest(t, steps[0]);
      ResendHonest(SendVersionExists(t, steps[0]), steps[1..]);
    }
  }

  lemma CallStorageHonest(t: State, step: Step, snapshot: Snapshot)
    requires Honest(t) && CameIn(t.trace, step)
    ensures Honest(CallStorage(t, step, snapshot))
  {
    var called := SetUpAck(t, step).(storageCalls := t.storageCalls + [Callback(step.id, AckOf(step.message))]);
    assert FromStep(t.trace, Callback(step.id, AckOf(step.message)));
    NoteHonest(called, StorageSet(step, snapshot));
  }

  lemma CallCacheHonest(t: State, step: Step, snapshot: Snapshot)
    requires Honest(t) && CameIn(t.trace, step)
    ensures Honest(CallCache(t, step, snapshot))
  {
    var called := SetUpAck(t, step).(cacheCalls := t.cacheCalls + [Callback(step.id, AckOf(step.message))]);
    assert FromStep(t.trace, Callback(step.id, AckOf(step.message)));
    NoteHonest(called, CacheSet(step, snapshot));
  }

  lemma WriteHonest(cfg: Config, t: State, step: Step)
    requires Honest(t) && CameIn(t.trace, step)
    ensures Honest(Write(cfg, t, step))
  {
    var data := if step.message.payload.Parsed? then Apply(cfg, t.data, step.message) else None;
    if data.Some? {
      var snapshot := Snapshot(step.message.version, data.value);
      var applied := t.(version := step.message.version, data := data.value);
      if cfg.excluded {
        CallCacheHonest(applied, step, snapshot);
      } else {
        CallStorageHonest(applied, step, snapshot);
        CallCacheHonest(CallStorage(applied, step, snapshot), step, snapshot);
      }
    }
  }

  lemma {:induction false} CameInGiven(h: History, step: Step, version: int)
    requires CameIn(h, step)
    ensures CameIn(h, Resolve(step, version))
  {
    if !CameIn(h.past, step) {
    } else {
      CameInGiven(h.past, step, version);
    }
  }

  lemma {:induction false} NextHonest(cfg: Config, t: State)
    requires Honest(t) && Standing(t)
    ensures Honest(Next(cfg, t))
    decreases |t.steps|
  {
    if t.destroyed || t.data == Null {
    } else if t.steps == [] {
      DestroyHonest(t, false);
    } else {
      var step := Resolve(t.steps[0], t.version);
      var taken := t.(steps := t.steps[1..], current := Some(step));
      CameInGiven(t.trace, t.steps[0], t.version);
      if step.message.version > t.version + 1 {
        assert Stands(t.trace, Snapshot(t.version, t.data));
        NoteHonest(taken, InvalidVersion(step.sender, step.id, t.version));
      } else if t.version != step.message.version - 1 {
        SendVersionExistsHonest(taken, step);
        NextHonest(cfg, SendVersionExists(taken, step));
      } else {
        WriteHonest(cfg, taken, step);
      }
    }
  }

  lemma ReportErrorsHonest(t: State)
    requires Honest(t)
    ensures Honest(ReportErrors(t))
  {
    NoteHonest(t.(acks := map[]), AckErrors(t.acks));
    var told := Note(t.(acks := map[]), AckErrors(t.acks));
    if t.current.Some? && !t.current.value.sender.isRemote {
      NoteHonest(told, CurrentError(t.current.value.sender, t.current.value.message.name));
    }
  }

  lemma DestroyHonest(t: State, failed: bool)
    requires Honest(t)
    ensures Honest(Destroy(t, failed))
  {
    if !t.destroyed {
      ReportErrorsHonest(t);
      NoteHonest((if failed then ReportErrors(t) else t).(destroyed := true), Completed);
    }
  }

  lemma {:induction false} StepErrorsHonest(t: State, steps: seq<Step>)
    requires Honest(t) && forall step :: step in steps ==> CameIn(t.trace, step)
    ensures Honest(t.(trace := StepErrors(t.trace, steps)))
    decreases |steps|
  {
    if steps != [] {
      var step := steps[0];
      if step.sender.isRemote {
        StepErrorsHonest(t, steps[1..]);
      } else {
        assert CameIn(t.trace, step);
        NoteHonest(t, StepError(step.sender, step.id));
        StepErrorsHonest(Note(t, StepError(step.sender, step.id)), steps[1..]);
      }
    }
  }

  lemma FatalHonest(t: State)
    requires Honest(t)
    ensures Honest(Fatal(t))
  {
    if !t.destroyed {
      StepErrorsHonest(t, t.steps);
      DestroyHonest(t.(trace := StepErrors(t.trace, t.steps)), true);
    }
  }

  ghost predicate Acknowledges(t: State, message: Message) {
    exists step :: CameIn(t.trace, step) && step.message == message && message.isWriteAck
  }

  lemma HandleAckHonest(t: State, sender: Socket, message: Message)
    requires Honest(t) && t.current.Some? && sender == t.current.value.sender && Acknowledges(t, message)
    ensures Honest(HandleAck(t, sender, message))
  {
    var u := HandleAck(t, sender, message);
    var counted := t.(acks := u.acks);
    if u.trace != t.trace {
      var step :| CameIn(t.trace, step) && step.message == message && message.isWriteAck;
      assert CameIn(t.trace, t.current.value);
      NoteHonest(counted, WriteAck(sender, message.name, message.correlationId));
    }
  }

  lemma AddHonest(cfg: Config, t: State, step: Step, upsert: bool)
    requires Honest(t) && Standing(t) && t.last == LastExplicit(Summarize(t.trace, 0).accepted)
    ensures Honest(Add(cfg, t, step, upsert))
  {
    var noted := Note(t, Received(step));
    NoteHonest(t, Received(step));
    assert CameIn(noted.trace, step);
    if BadData(step.message) {
      NoteHonest(noted, InvalidData(step.sender, step.id));
    } else if TooFar(t.trace, step.message) {
      NoteHonest(noted, InvalidVersion(step.sender, step.id, step.message.version));
    } else if !FitsIn(t.trace, step.message) {
      SendVersionExistsHonest(noted, step);
    } else {
      EnqueueHonest(noted, step);
      var queued := Enqueue(noted, step);
      if !t.requested {
        NoteHonest(queued.(requested := true, load := Some(upsert)), LoadCalled);
      } else if |queued.steps| == 1 {
        NextHonest(cfg, queued);
      }
    }
  }

  lemma EnqueueHonest(t: State, step: Step)
    requires Honest(t) && Standing(t) && t.trace.After? && t.trace.last == Received(step)
    requires FitsIn(t.trace.past, step.message)
    ensures Honest(Enqueue(t, step)) && Standing(Enqueue(t, step))
  {
    var u := t.(last := Enqueue(t, step).last, steps := t.steps + [step]);
    assert Known(u);
    NoteHonest(u, Accepted(step.id, step.message));
  }

  lemma OnRecordHonest(cfg: Config, t: State, found: Option<Snapshot>, upsert: bool)
    requires Honest(t) && Summarize(t.trace, 0).cache == []
    ensures Honest(OnRecord(cfg, t, found, upsert))
  {
    if Missing(found) && !upsert {
      FatalHonest(t);
    } else {
      var start := if Missing(found) then Snapshot(0, EMPTY_OBJECT) else found.value;
      var loaded := Note(t.(data := start.data, version := start.version), Loaded(start));
      NoteHonest(t.(data := start.data, version := start.version), Loaded(start));
      if !Hangs(loaded) {
        ResendHonest(loaded, loaded.existing);
        NextHonest(cfg, FlushExisting(loaded));
      }
    }
  }

  lemma AckHonest(t: State, call: Callback)
    requires Honest(t) && FromStep(t.trace, call) && call.ack.Some? && t.current.Some?
    ensures Honest(HandleAck(t, t.current.value.sender, call.ack.value))
  {
    var step :| CameIn(t.trace, step) && call == Callback(step.id, AckOf(step.message));
    assert Acknowledges(t, call.ack.value);
    HandleAckHonest(t, t.current.value.sender, call.ack.value);
  }

  lemma CacheDoneHonest(cfg: Config, t: State, error: bool, call: Callback)
    requires Honest(t) && Standing(t) && FromStep(t.trace, call)
    ensures Honest(OnCacheSet(cfg, t, error, call.ack))
  {
    if t.current.None? {
      DestroyHonest(t, true);
    } else {
      if call.ack.Some? {
        AckHonest(t, call);
        HandleAckFrame(t, t.current.value.sender, call.ack.value, 0);
      }
      var acked := if call.ack.Some? then HandleAck(t, t.current.value.sender, call.ack.value) else t;
      if error {
        FatalHonest(acked);
      } else if !acked.destroyed {
        NoteHonest(acked, Broadcast(t.current.value));
        NextHonest(cfg, Note(acked, Broadcast(t.current.value)));
      }
    }
  }

  lemma StorageDoneHonest(t: State, error: bool, call: Callback)
    requires Honest(t) && FromStep(t.trace, call)
    ensures Honest(OnStorageSet(t, error, call.ack))
  {
    if call.ack.Some? && t.current.Some? { AckHonest(t, call); }
    FatalHonest(if call.ack.Some? && t.current.Some? then HandleAck(t, t.current.value.sender, call.ack.value) else t);
  }

  lemma EventHonest(cfg: Config, t: State, e: Event)
    requires Honest(t) && Lawful(cfg, t, 0) && Enabled(t, e)
    ensures Honest(Occur(cfg, t, e))
  {
    match e
    case Submit(step, upsert) => AddHonest(cfg, t, step, upsert);
    case Refuse(step) =>
      NoteHonest(t, Received(step));
      SendVersionExistsHonest(Note(t, Received(step)), step);
    case LoadDone(found) => OnRecordHonest(cfg, t.(load := None), found, t.load.value);
    case LoadFailed => DestroyHonest(t.(load := None), true);
    case StorageDone(i, error) =>
      var call := t.storageCalls[i];
      var u := t.(storageCalls := Without(t.storageCalls, i));
      NoteHonest(u, StorageAnswered(call.id));
      FromStepLater(t.trace, StorageAnswered(call.id), call);
      StorageDoneHonest(Note(u, StorageAnswered(call.id)), error, call);
    case CacheDone(i, error) =>
      var call := t.cacheCalls[i];
      var u := t.(cacheCalls := Without(t.cacheCalls, i));
      NoteHonest(u, CacheAnswered(call.id));
      FromStepLater(t.trace, CacheAnswered(call.id), call);
      CacheDoneHonest(cfg, Note(u, CacheAnswered(call.id)), error, call);
    case Stop => DestroyHonest(t, false);
  }

  lemma {:induction false} RunHonest(cfg: Config, events: seq<Event>)
    requires Run(cfg, INITIAL, events).Some?
    ensures Honest(Run(cfg, INITIAL, events).value)
    decreases |events|
  {
    if events != [] {
      var before := events[..|events| - 1];
      RunHonest(cfg, before);
      RunKeeps(cfg, before, 0);
      EventHonest(cfg, Run(cfg, INITIAL, before).value, events[|events| - 1]);
    }
  }

  // ---------- What follows for every run ----------

  /** `p` is a moment in the history `h`. */
  predicate Within(h: History, p: History) {
    h == p || (h.After? && Within(h.past, p))
  }

  lemma {:induction false} EntryIsRight(h: History, past: History, e: Trace)
    requires Truthful(h) && Within(h, After(past, e))
    ensures Right(past, e)
  {
    if h != After(past, e) {
      EntryIsRight(h.past, past, e);
    }
  }

  /** In every run each entry is right, given what was before it. */
  lemma EveryAnswerIsRight(cfg: Config, events: seq<Event>, past: History, e: Trace)
    requires Run(cfg, INITIAL, events).Some?
    requires Within(Run(cfg, INITIAL, events).value.trace, After(past, e))
    ensures Right(past, e)
  {
    RunHonest(cfg, events);
    EntryIsRight(Run(cfg, INITIAL, events).value.trace, past, e);
  }

  /** Whenever, in any run, a VERSION_EXISTS goes out, it carries the version and the data that the record
      has at that moment, and goes to the sender of a step that came in, with that step's id and flag. */
  lemma VersionExistsTellsTheRecord(
    cfg: Config, events: seq<Event>, past: History, to: Socket, id: nat, version: int, data: Json, isWriteAck: bool, correlationId: string)
    requires Run(cfg, INITIAL, events).Some?
    requires Within(Run(cfg, INITIAL, events).value.trace, After(past, VersionExists(to, id, version, data, isWriteAck, correlationId)))
    ensures var s := Summarize(past, 0);
      && s.base.Some?
      && Snapshot(version, data) == Head(s.base.value, s.cache)
      && exists step :: CameIn(past, step) && step.sender == to && step.id == id
           && step.message.isWriteAck == isWriteAck && step.message.correlationId == correlationId
  {
    EveryAnswerIsRight(cfg, events, past, VersionExists(to, id, version, data, isWriteAck, correlationId));
  }

  lemma {:induction false} NextLetsNoneIn(cfg: Config, t: State)
    ensures Summarize(Next(cfg, t).trace, 0).accepted == Summarize(t.trace, 0).accepted
    decreases |t.steps|
  {
    if t.destroyed || t.data == Null || t.steps == [] {
    } else {
      var step := Resolve(t.steps[0], t.version);
      var taken := t.(steps := t.steps[1..], current := Some(step));
      if step.message.version > t.version + 1 {
      } else if t.version != step.message.version - 1 {
        NextLetsNoneIn(cfg, SendVersionExists(taken, step));
      } else {
        var data := if step.message.payload.Parsed? then Apply(cfg, t.data, step.message) else None;
        if data.Some? {
          var w := Written(step, Snapshot(step.message.version, data.value));
          WriteTrace(cfg, taken, step, w);
          WriteSummary(cfg, t.trace, w, 0);
        }
      }
    }
  }

  lemma AddLetsIn(cfg: Config, t: State, step: Step, upsert: bool)
    requires FitsIn(t.trace, step.message) && t.last == LastExplicit(Summarize(t.trace, 0).accepted)
    ensures Summarize(Add(cfg, t, step, upsert).trace, 0).accepted == Summarize(t.trace, 0).accepted + [step.message.version]
  {
    var queued := Enqueue(Note(t, Received(step)), step);
    assert Summarize(queued.trace, 0).accepted == Summarize(t.trace, 0).accepted + [step.message.version];
    NextLetsNoneIn(cfg, queued);
  }

  /** The record as it stands, if it is loaded and its data is truthy. */
  function Shown(h: History): Option<Snapshot> {
    var s := Summarize(h, 0);
    if s.base.Some? && Truthy(Head(s.base.value, s.cache).data) then Some(Head(s.base.value, s.cache)) else None
  }

  /** A step on arrival, given the payload and `last`, the last explicit version let in: a bad payload is
      INVALID_DATA; more than one ahead of `last` is INVALID_VERSION; otherwise anything but the next version is
      VERSION_EXISTS, now if the record can be shown and kept for later if not; and exactly the rest is let in. */
  predicate Fate(t: State, u: State, step: Step) {
    var m := step.message; var accepted := Summarize(t.trace, 0).accepted; var last := LastExplicit(accepted);
    var came := After(t.trace, Received(step)); var now := Shown(t.trace);
    && (u == t.(trace := After(came, InvalidData(step.sender, step.id))) <==> BadData(m))
    && (u == t.(trace := After(came, InvalidVersion(step.sender, step.id, m.version)))
        <==> !BadData(m) && last.Some? && m.version > last.value + 1)
    && (u == (if now.Some?
              then t.(trace := After(came, VersionExists(step.sender, step.id, now.value.version, now.value.data, m.isWriteAck, m.correlationId)))
              else t.(trace := came, existing := t.existing + [step]))
        <==> !BadData(m) && last.Some? && m.version <= last.value)
    && (Summarize(u.trace, 0).accepted == accepted + [m.version] <==> !BadData(m) && (last.Some? ==> m.version == last.value + 1))
  }

  lemma FateIfRefused(cfg: Config, t: State, step: Step, upsert: bool)
    requires Lawful(cfg, t, 0) && !t.crashed && !FitsIn(t.trace, step.message)
    ensures Fate(t, Add(cfg, t, step, upsert), step)
  {
    var u := Add(cfg, t, step, upsert);
    var noted := Note(t, Received(step));
    assert Summarize(noted.trace, 0).accepted == Summarize(t.trace, 0).accepted;
    assert Summarize(u.trace, 0).accepted == Summarize(noted.trace, 0).accepted;
  }

  lemma FateIfLetIn(cfg: Config, t: State, step: Step, upsert: bool)
    requires Lawful(cfg, t, 0) && FitsIn(t.trace, step.message)
    ensures Fate(t, Add(cfg, t, step, upsert), step)
  {
    AddLetsIn(cfg, t, step, upsert);
  }

  /** So it is after every run. */
  lemma FateOnArrival(cfg: Config, events: seq<Event>, step: Step, upsert: bool)
    requires Run(cfg, INITIAL, events).Some? && !Run(cfg, INITIAL, events).value.crashed
    ensures var t := Run(cfg, INITIAL, events).value; Fate(t, Add(cfg, t, step, upsert), step)
  {
    RunKeeps(cfg, events, 0);
    var t := Run(cfg, INITIAL, events).value;
    if FitsIn(t.trace, step.message) {
      FateIfLetIn(cfg, t, step, upsert);
    } else {
      FateIfRefused(cfg, t, step, upsert);
    }
  }

  // ---------- Kept answers ----------

  predicate AlwaysShown(s: Summary) {
    s.base.Some? && Truthy(s.base.value.data) && forall w :: w in s.cache ==> Truthy(w.snapshot.data)
  }

  /** Nobody is kept waiting for VERSION_EXISTS while the record can be shown. */
  predicate NobodyWaits(t: State) {
    AlwaysShown(Summarize(t.trace, 0)) && !t.crashed ==> t.existing == []
  }

  lemma ShownIsTruthy(cfg: Config, t: State)
    requires Linked(cfg, t, Summarize(t.trace, 0)) && AlwaysShown(Summarize(t.trace, 0)) && !t.crashed
    ensures Truthy(t.data)
  {
  }

  lemma {:induction false} NextKeepsNobody(cfg: Config, t: State)
    requires Lawful(cfg, t, 0) && !t.crashed && NobodyWaits(t)
    ensures NobodyWaits(Next(cfg, t))
    decreases |t.steps|
  {
    if t.destroyed || t.data == Null || t.steps == [] {
    } else {
      var step := Resolve(t.steps[0], t.version);
      var taken := t.(steps := t.steps[1..], current := Some(step));
      if step.message.version > t.version + 1 {
      } else if t.version != step.message.version - 1 {
        SendVersionExistsKeeps(cfg, taken, step, 0);
        NextKeepsNobody(cfg, SendVersionExists(taken, step));
      } else {
        WriteKeepsNobody(cfg, taken, step);
      }
    }
  }

  lemma WriteKeepsNobody(cfg: Config, t: State, step: Step)
    requires NobodyWaits(t) && !t.crashed
    ensures NobodyWaits(Write(cfg, t, step))
  {
    var data := if step.message.payload.Parsed? then Apply(cfg, t.data, step.message) else None;
    if data.Some? {
      var w := Written(step, Snapshot(step.message.version, data.value));
      WriteTrace(cfg, t, step, w);
      WriteSummary(cfg, t.trace, w, 0);
      var s := Summarize(t.trace, 0);
      assert forall v :: v in s.cache ==> v in s.cache + [w];
    }
  }

  lemma SameRecord(t: State, u: State)
    requires u.trace == t.trace || (u.trace.After? && u.trace.past == t.trace && (u.trace.last.Received? || u.trace.last.VersionExists?))
    ensures AlwaysShown(Summarize(u.trace, 0)) == AlwaysShown(Summarize(t.trace, 0))
  {
    assert Summarize(u.trace, 0).base == Summarize(t.trace, 0).base && Summarize(u.trace, 0).cache == Summarize(t.trace, 0).cache;
  }

  lemma FatalKeepsNobody(t: State)
    requires NobodyWaits(t)
    ensures NobodyWaits(Fatal(t))
  {
    StepErrorsKeep(t.trace, t.steps, 0);
    ReportErrorsFrame(t.(trace := StepErrors(t.trace, t.steps)), 0);
  }

  lemma ExistsKeepsNobody(cfg: Config, t: State, step: Step)
    requires Linked(cfg, t, Summarize(t.trace, 0)) && !t.crashed && NobodyWaits(t)
    ensures NobodyWaits(SendVersionExists(Note(t, Received(step)), step))
  {
    var noted := Note(t, Received(step));
    SameRecord(t, noted);
    SameRecord(noted, SendVersionExists(noted, step));
    if AlwaysShown(Summarize(t.trace, 0)) { ShownIsTruthy(cfg, t); }
  }

  lemma AddKeepsNobody(cfg: Config, t: State, step: Step, upsert: bool)
    requires Lawful(cfg, t, 0) && !t.crashed && NobodyWaits(t)
    ensures NobodyWaits(Add(cfg, t, step, upsert))
  {
    ExistsKeepsNobody(cfg, t, step);
    if Acceptable(t, step.message) {
      var queued := Enqueue(Note(t, Received(step)), step);
      QueuedIsLawful(cfg, t, step);
      if t.requested && |queued.steps| == 1 { NextKeepsNobody(cfg, queued); }
    }
  }

  lemma QueuedIsLawful(cfg: Config, t: State, step: Step)
    requires Lawful(cfg, t, 0) && Acceptable(t, step.message)
    ensures Lawful(cfg, Enqueue(Note(t, Received(step)), step), 0)
    ensures NobodyWaits(t) ==> NobodyWaits(Enqueue(Note(t, Received(step)), step))
  {
    TimesSnoc(t.steps, step, 0);
    var before := Summarize(t.trace, 0).accepted;
    assert (before + [step.message.version])[..|before|] == before;
  }

  lemma CacheKeepsNobody(cfg: Config, t: State, error: bool, ack: Option<Message>)
    requires Lawful(cfg, t, 0) && !t.crashed && NobodyWaits(t)
    ensures NobodyWaits(OnCacheSet(cfg, t, error, ack))
  {
    if t.current.None? {
      ReportErrorsFrame(t, 0);
    } else {
      var acked := if ack.Some? then HandleAck(t, t.current.value.sender, ack.value) else t;
      if ack.Some? { HandleAckKeeps(cfg, t, t.current.value.sender, ack.value, 0); HandleAckFrame(t, t.current.value.sender, ack.value, 0); }
      FatalKeepsNobody(acked);
      if !error && !acked.destroyed { NextKeepsNobody(cfg, Note(acked, Broadcast(t.current.value))); }
    }
  }

  lemma LoadKeepsNobody(cfg: Config, t: State, found: Option<Snapshot>, upsert: bool)
    requires Lawful(cfg, t, 0) && !t.crashed && NobodyWaits(t) && t.requested && t.load.None? && Summarize(t.trace, 0).base.None?
    ensures NobodyWaits(OnRecord(cfg, t, found, upsert))
  {
    FatalKeepsNobody(t);
    if !Missing(found) || upsert {
      var start := if Missing(found) then Snapshot(0, EMPTY_OBJECT) else found.value;
      var loaded := Note(t.(data := start.data, version := start.version), Loaded(start));
      if !Hangs(loaded) {
        FlushedIsLawful(cfg, t, start);
        NextKeepsNobody(cfg, FlushExisting(loaded));
      }
    }
  }

  lemma FlushedIsLawful(cfg: Config, t: State, start: Snapshot)
    requires Lawful(cfg, t, 0) && !t.crashed && t.requested && t.load.None? && Summarize(t.trace, 0).base.None?
    requires var loaded := Note(t.(data := start.data, version := start.version), Loaded(start)); !Hangs(loaded)
    ensures var u := FlushExisting(Note(t.(data := start.data, version := start.version), Loaded(start)));
      Lawful(cfg, u, 0) && !u.crashed && u.existing == []
  {
    var loaded := Note(t.(data := start.data, version := start.version), Loaded(start));
    ResendAnswers(loaded, loaded.existing, 0);
  }

  lemma EventKeepsNobody(cfg: Config, t: State, e: Event)
    requires Lawful(cfg, t, 0) && Enabled(t, e) && NobodyWaits(t)
    ensures NobodyWaits(Occur(cfg, t, e))
  {
    match e
    case Submit(step, upsert) => AddKeepsNobody(cfg, t, step, upsert);
    case Refuse(step) => ExistsKeepsNobody(cfg, t, step);
    case LoadDone(found) => LoadKeepsNobody(cfg, t.(load := None), found, t.load.value);
    case LoadFailed => ReportErrorsFrame(t.(load := None), 0);
    case StorageDone(i, error) =>
      var call := t.storageCalls[i];
      var u := Note(t.(storageCalls := Without(t.storageCalls, i)), StorageAnswered(call.id));
      if call.ack.Some? && u.current.Some? { HandleAckFrame(u, u.current.value.sender, call.ack.value, 0); }
      FatalKeepsNobody(if call.ack.Some? && u.current.Some? then HandleAck(u, u.current.value.sender, call.ack.value) else u);
    case CacheDone(i, error) =>
      var call := t.cacheCalls[i];
      CacheKeepsNobody(cfg, Note(t.(cacheCalls := Without(t.cacheCalls, i)), CacheAnswered(call.id)), error, call.ack);
    case Stop =>
  }

  /** In every run, once the record is loaded, and as long as what is loaded and written is truthy, no step
      is kept for a later VERSION_EXISTS: with `TransitionLaws.OneFate`, each refused step was answered. */
  lemma {:induction false} RefusedIsAnswered(cfg: Config, events: seq<Event>)
    requires Run(cfg, INITIAL, events).Some?
    ensures NobodyWaits(Run(cfg, INITIAL, events).value)
    decreases |events|
  {
    if events != [] {
      var before := events[..|events| - 1];
      RefusedIsAnswered(cfg, before);
      RunKeeps(cfg, before, 0);
      EventKeepsNobody(cfg, Run(cfg, INITIAL, before).value, events[|events| - 1]);
    }
  }
}
