/** What becomes of the acknowledgement of a write in flight when another write is accepted in the window. */
module TransitionLostAcks {
  import opened Common
  import opened Transition
  import opened TransitionLaws
  import opened TransitionAcks

  /** Acknowledgements sent with this correlation id. */
  function AcksFor(h: History, id: string): nat {
    match h
    case Start => 0
    case After(past, WriteAck(_, _, c)) => AcksFor(past, id) + (if c == id then 1 else 0)
    case After(past, _) => AcksFor(past, id)
  }

  /** Acknowledgements with this id that went to this socket. */
  function AcksTo(h: History, socket: Socket, id: string): nat {
    match h
    case Start => 0
    case After(past, WriteAck(to, _, c)) => AcksTo(past, socket, id) + (if to == socket && c == id then 1 else 0)
    case After(past, _) => AcksTo(past, socket, id)
  }

  predicate SameAcks(h: History, g: History, id: string) {
    AcksFor(g, id) == AcksFor(h, id)
  }

  // ---------- No acknowledgement is coming ----------

  predicate Asks(m: Message, id: string) {
    m.isWriteAck && m.correlationId == id
  }

  /** No callback that is outstanding, and no queued step, asks for an acknowledgement with this id. */
  predicate Silent(t: State, id: string) {
    && (forall c :: c in t.storageCalls ==> c.ack.Some? ==> c.ack.value.correlationId != id)
    && (forall c :: c in t.cacheCalls ==> c.ack.Some? ==> c.ack.value.correlationId != id)
    && (forall s :: s in t.steps ==> !Asks(s.message, id))
  }

  /** `u` is as silent as `t`, and sent none. */
  predicate StaysSilent(t: State, u: State, id: string) {
    Silent(u, id) && SameAcks(t.trace, u.trace, id)
  }

  lemma ExistsSilent(t: State, step: Step, id: string)
    requires Silent(t, id)
    ensures StaysSilent(t, SendVersionExists(t, step), id)
  {
  }

  lemma WriteSilent(cfg: Config, t: State, step: Step, id: string)
    requires Silent(t, id) && !Asks(step.message, id)
    ensures StaysSilent(t, Write(cfg, t, step), id)
  {
  }

  lemma {:induction false} NextSilent(cfg: Config, t: State, id: string)
    requires Silent(t, id)
    ensures StaysSilent(t, Next(cfg, t), id)
    decreases |t.steps|
  {
    if !t.destroyed && t.data != Null && t.steps != [] {
      assert t.steps[0] in t.steps;
      var step := Resolve(t.steps[0], t.version);
      var taken := t.(steps := t.steps[1..], current := Some(step));
      assert StaysSilent(t, taken, id);
      if step.message.version > t.version + 1 {
      } else if t.version != step.message.version - 1 {
        ExistsSilent(taken, step, id);
        NextSilent(cfg, SendVersionExists(taken, step), id);
      } else {
        WriteSilent(cfg, taken, step, id);
      }
    }
  }

  lemma {:induction false} StepErrorsSilent(past: History, steps: seq<Step>, id: string)
    ensures SameAcks(past, StepErrors(past, steps), id)
    decreases |steps|
  {
    if steps != [] {
      StepErrorsSilent(if steps[0].sender.isRemote then past else After(past, StepError(steps[0].sender, steps[0].id)), steps[1..], id);
    }
  }

  lemma DestroySilent(t: State, failed: bool, id: string)
    requires Silent(t, id)
    ensures StaysSilent(t, Destroy(t, failed), id)
  {
    if failed { ReportSilent(t, id); }
  }

  lemma ReportSilent(t: State, id: string)
    ensures var u := ReportErrors(t); u == t.(acks := u.acks, trace := u.trace) && SameAcks(t.trace, u.trace, id)
  {
    assert SameAcks(t.trace, After(t.trace, AckErrors(t.acks)), id);
  }

  lemma FatalSilent(t: State, id: string)
    requires Silent(t, id)
    ensures StaysSilent(t, Fatal(t), id)
  {
    StepErrorsSilent(t.trace, t.steps, id);
    DestroySilent(t.(trace := StepErrors(t.trace, t.steps)), true, id);
  }

  lemma HandleAckSilent(t: State, socket: Socket, message: Message, id: string)
    requires Silent(t, id) && message.correlationId != id
    ensures var u := HandleAck(t, socket, message); StaysSilent(t, u, id) && u.current == t.current
  {
  }

  lemma AddSilent(cfg: Config, t: State, step: Step, upsert: bool, id: string)
    requires Silent(t, id) && !Asks(step.message, id)
    ensures StaysSilent(t, Add(cfg, t, step, upsert), id)
  {
    var noted := Note(t, Received(step));
    if Acceptable(t, step.message) {
      var queued := Enqueue(noted, step);
      assert StaysSilent(t, queued, id);
      NextSilent(cfg, queued, id);
    } else {
      ExistsSilent(noted, step, id);
    }
  }

  lemma {:induction false} ResendSilent(t: State, steps: seq<Step>, id: string)
    requires Silent(t, id)
    ensures StaysSilent(t, Resend(t, steps), id)
    decreases |steps|
  {
    if steps != [] {
      ExistsSilent(t, steps[0], id);
      ResendSilent(SendVersionExists(t, steps[0]), steps[1..], id);
    }
  }

  lemma ProceedSilent(cfg: Config, t: State, id: string)
    requires Silent(t, id)
    ensures StaysSilent(t, Proceed(cfg, t), id)
  {
    if !Hangs(t) {
      ResendSilent(t, t.existing, id);
      NextSilent(cfg, FlushExisting(t), id);
    }
  }

  lemma LoadSilent(cfg: Config, t: State, found: Option<Snapshot>, upsert: bool, id: string)
    requires Silent(t, id)
    ensures StaysSilent(t, OnRecord(cfg, t, found, upsert), id)
  {
    if Missing(found) && !upsert {
      FatalSilent(t, id);
    } else {
      var start := if Missing(found) then Snapshot(0, EMPTY_OBJECT) else found.value;
      var loaded := Note(t.(data := start.data, version := start.version), Loaded(start));
      assert StaysSilent(t, loaded, id);
      ProceedSilent(cfg, loaded, id);
    }
  }

  lemma CacheSilent(cfg: Config, t: State, error: bool, ack: Option<Message>, id: string)
    requires Silent(t, id) && (ack.Some? ==> ack.value.correlationId != id)
    ensures StaysSilent(t, OnCacheSet(cfg, t, error, ack), id)
  {
    if t.current.None? {
      DestroySilent(t, true, id);
    } else {
      var acked := if ack.Some? then HandleAck(t, t.current.value.sender, ack.value) else t;
      if ack.Some? { HandleAckSilent(t, t.current.value.sender, ack.value, id); }
      if error {
        FatalSilent(acked, id);
      } else if !acked.destroyed {
        NextSilent(cfg, Note(acked, Broadcast(t.current.value)), id);
      }
    }
  }

  lemma StorageSilent(t: State, error: bool, ack: Option<Message>, id: string)
    requires Silent(t, id) && (ack.Some? ==> ack.value.correlationId != id)
    ensures StaysSilent(t, OnStorageSet(t, error, ack), id)
  {
    var acked := if ack.Some? && t.current.Some? then HandleAck(t, t.current.value.sender, ack.value) else t;
    if ack.Some? && t.current.Some? { HandleAckSilent(t, t.current.value.sender, ack.value, id); }
    if error { FatalSilent(acked, id); }
  }

  lemma EventSilent(cfg: Config, t: State, e: Event, id: string)
    requires Silent(t, id) && Enabled(t, e) && (e.Submit? ==> !Asks(e.step.message, id))
    ensures StaysSilent(t, Occur(cfg, t, e), id)
  {
    match e
    case Submit(step, upsert) => AddSilent(cfg, t, step, upsert, id);
    case Refuse(step) => ExistsSilent(Note(t, Received(step)), step, id);
    case LoadDone(found) => LoadSilent(cfg, t.(load := None), found, t.load.value, id);
    case LoadFailed => DestroySilent(t.(load := None), true, id);
    case StorageDone(i, error) =>
      var call := t.storageCalls[i];
      assert call in t.storageCalls;
      StorageSilent(Note(t.(storageCalls := Without(t.storageCalls, i)), StorageAnswered(call.id)), error, call.ack, id);
    case CacheDone(i, error) =>
      var call := t.cacheCalls[i];
      assert call in t.cacheCalls;
      CacheSilent(cfg, Note(t.(cacheCalls := Without(t.cacheCalls, i)), CacheAnswered(call.id)), error, call.ack, id);
    case Stop => DestroySilent(t, false, id);
  }

  /** From then on none is sent, unless the id is used again. */
  lemma {:induction false} SilentForGood(cfg: Config, t: State, more: seq<Event>, id: string)
    requires Silent(t, id) && forall i :: 0 <= i < |more| && more[i].Submit? ==> !Asks(more[i].step.message, id)
    ensures Run(cfg, t, more).Some? ==> StaysSilent(t, Run(cfg, t, more).value, id)
    decreases |more|
  {
    if more != [] {
      var before := more[..|more| - 1];
      SilentForGood(cfg, t, before, id);
      var s := Run(cfg, t, before);
      if s.Some? && Enabled(s.value, more[|more| - 1]) { EventSilent(cfg, s.value, more[|more| - 1], id); }
    }
  }

  // ---------- The answer that comes in the window ----------

  /** Only the cache's answer to a write that asked for an acknowledgement is outstanding. */
  predicate AwaitsAck(cfg: Config, t: State, done: seq<Written>, w: Written) {
    && InFlight(cfg, t, done, w) && t.storageCalls == [] && w.step.message.isWriteAck
    && t.requested && t.data != Null && !t.crashed
  }

  /** The write's counter stands at one, and its one callback is the cache's, the first outstanding one. */
  predicate Pends(u: State, w: Written) {
    var id := w.step.message.correlationId;
    && u.cacheCalls != [] && u.cacheCalls[0] == Callback(w.step.id, Some(w.step.message))
    && (forall i :: 1 <= i < |u.cacheCalls| && u.cacheCalls[i].ack.Some? ==> u.cacheCalls[i].ack.value.correlationId != id)
    && (forall i :: 0 <= i < |u.storageCalls| && u.storageCalls[i].ack.Some? ==> u.storageCalls[i].ack.value.correlationId != id)
    && w.step.sender in u.acks && id in u.acks[w.step.sender] && u.acks[w.step.sender][id] == Num(1)
    && (forall s :: s in u.acks && s != w.step.sender ==> id !in u.acks[s])
  }

  /** Nothing was acknowledged with this id in between. */
  predicate NoneBetween(t: State, u: State, w: Written) {
    var id := w.step.message.correlationId;
    AcksFor(u.trace, id) == AcksFor(t.trace, id) && AcksTo(u.trace, w.step.sender, id) == AcksTo(t.trace, w.step.sender, id)
  }

  lemma SetUpPends(t: State, w: Written, step: Step)
    requires Pends(t, w) && !Asks(step.message, w.step.message.correlationId)
    ensures Pends(SetUpAck(t, step), w)
  {
  }

  lemma CallPends(t: State, w: Written, step: Step, snapshot: Snapshot)
    requires Pends(t, w) && !Asks(step.message, w.step.message.correlationId)
    ensures Pends(CallStorage(t, step, snapshot), w) && Pends(CallCache(t, step, snapshot), w)
    ensures NoneBetween(t, CallStorage(t, step, snapshot), w) && NoneBetween(t, CallCache(t, step, snapshot), w)
  {
    SetUpPends(t, w, step);
  }

  lemma WritePends(cfg: Config, t: State, w: Written, step: Step)
    requires Pends(t, w) && !Asks(step.message, w.step.message.correlationId) && !Write(cfg, t, step).crashed
    ensures var u := Write(cfg, t, step);
      Pends(u, w) && NoneBetween(t, u, w) && u.current == t.current && u.steps == t.steps
  {
    var raised := t.(version := step.message.version);
    var data := if step.message.payload.Parsed? then Apply(cfg, t.data, step.message) else None;
    if data.Some? {
      var snapshot := Snapshot(step.message.version, data.value);
      var applied := raised.(data := data.value);
      CallPends(applied, w, step, snapshot);
      CallPends(if cfg.excluded then applied else CallStorage(applied, step, snapshot), w, step, snapshot);
    }
  }

  /** The step accepted in the window is the current one, written or not. */
  lemma WindowReplaces(cfg: Config, t: State, done: seq<Written>, w: Written, step: Step, upsert: bool)
    requires AwaitsAck(cfg, t, done, w) && InWindow(t, step.message) && !Asks(step.message, w.step.message.correlationId)
    requires !Add(cfg, t, step, upsert).crashed
    ensures var u := Add(cfg, t, step, upsert);
      Pends(u, w) && NoneBetween(t, u, w) && u.steps == [] && u.current.Some? && u.current.value.sender == step.sender && !u.crashed
  {
    var noted := Note(t, Received(step));
    var queued := Enqueue(noted, step);
    assert NoneBetween(t, noted, w) && NoneBetween(t, queued, w);
    assert queued.steps == [step] && queued.steps[1..] == [];
    assert Pends(queued, w);
    assert Add(cfg, t, step, upsert) == Next(cfg, queued);
    NextPends(cfg, queued, w, step);
  }

  lemma NextPends(cfg: Config, t: State, w: Written, step: Step)
    requires Pends(t, w) && t.steps == [step] && t.data != Null && !t.destroyed && !Asks(step.message, w.step.message.correlationId)
    requires !t.crashed && !Next(cfg, t).crashed
    ensures var u := Next(cfg, t);
      Pends(u, w) && NoneBetween(t, u, w) && u.steps == [] && u.current.Some? && u.current.value.sender == step.sender
  {
    var resolved := Resolve(step, t.version);
    var taken := t.(steps := t.steps[1..], current := Some(resolved));
    assert taken.steps == [];
    if resolved.message.version > t.version + 1 {
    } else if t.version != resolved.message.version - 1 {
      var told := SendVersionExists(taken, resolved);
      assert NoneBetween(taken, told, w) && Pends(told, w);
      assert Next(cfg, told) == Destroy(told, false);
    } else {
      WritePends(cfg, taken, w, resolved);
    }
  }

  /** The cache's answer to the write in flight is counted for the sender of the step that is current by
      then: the acknowledgement goes out, to the one who asked, if that is the same socket. */
  lemma LateAnswer(cfg: Config, u: State, w: Written)
    requires Pends(u, w) && u.current.Some? && u.steps == [] && !u.crashed
    ensures var v := Occur(cfg, u, CacheDone(0, false)); var id := w.step.message.correlationId;
      var same := u.current.value.sender == w.step.sender;
      && AcksTo(v.trace, w.step.sender, id) == AcksTo(u.trace, w.step.sender, id) + (if same then 1 else 0)
      && AcksFor(v.trace, id) == AcksFor(u.trace, id) + (if same then 1 else 0)
      && Silent(v, id)
  {
    var id, sender := w.step.message.correlationId, u.current.value.sender;
    var t := Note(u.(cacheCalls := Without(u.cacheCalls, 0)), CacheAnswered(w.step.id));
    assert t.cacheCalls == u.cacheCalls[1..];
    var acked := HandleAck(t, sender, w.step.message);
    AnswerCounts(t, sender, w);
    var last := Note(acked, Broadcast(u.current.value));
    assert Occur(cfg, u, CacheDone(0, false)) == if !acked.destroyed then Next(cfg, last) else acked;
    assert Next(cfg, last) == last || Next(cfg, last) == Destroy(last, false);
  }

  lemma AnswerCounts(t: State, sender: Socket, w: Written)
    requires var id := w.step.message.correlationId;
      && w.step.sender in t.acks && id in t.acks[w.step.sender] && t.acks[w.step.sender][id] == Num(1)
      && (forall s :: s in t.acks && s != w.step.sender ==> id !in t.acks[s])
    ensures var u := HandleAck(t, sender, w.step.message); var id := w.step.message.correlationId; var same := sender == w.step.sender;
      && u == t.(acks := u.acks, trace := u.trace)
      && AcksTo(u.trace, w.step.sender, id) == AcksTo(t.trace, w.step.sender, id) + (if same then 1 else 0)
      && AcksFor(u.trace, id) == AcksFor(t.trace, id) + (if same then 1 else 0)
  {
  }

  /** A write in flight that asked for an acknowledgement, and only the cache's answer is outstanding; a
      write is accepted in the window that asks for no acknowledgement with the same id. If the answer
      comes next, the acknowledgement is sent if and only if both writes have the same sender; otherwise it
      is lost: none with its id is sent, to anybody, however the run goes on, unless the id is used again. */
  lemma AckInWindowIff(
    cfg: Config, t: State, done: seq<Written>, w: Written, step: Step, upsert: bool, more: seq<Event>)
    requires AwaitsAck(cfg, t, done, w) && InWindow(t, step.message) && !Asks(step.message, w.step.message.correlationId)
    requires !Add(cfg, t, step, upsert).crashed
    requires forall i :: 0 <= i < |more| && more[i].Submit? ==> !Asks(more[i].step.message, w.step.message.correlationId)
    ensures var u := Add(cfg, t, step, upsert); var id := w.step.message.correlationId;
      && Enabled(u, CacheDone(0, false))
      && var end := Run(cfg, Occur(cfg, u, CacheDone(0, false)), more);
      end.Some? ==> AcksFor(end.value.trace, id) == AcksFor(t.trace, id) + if step.sender == w.step.sender then 1 else 0
  {
    WindowReplaces(cfg, t, done, w, step, upsert);
    var u := Add(cfg, t, step, upsert);
    LateAnswer(cfg, u, w);
    SilentForGood(cfg, Occur(cfg, u, CacheDone(0, false)), more, w.step.message.correlationId);
  }
}
