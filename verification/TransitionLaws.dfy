/** What every run of one transition keeps, whatever the order of submissions, store answers,
    failures and stops: versions and data of the writes, the fate of every step, and the shape of
    the versions that are let into the queue. */
module TransitionLaws {
  import opened Common
  import opened Transition

  datatype Written = Written(step: Step, snapshot: Snapshot)

  /** What a history says. `base`: the snapshot the store answered. `cache`, `storage`: the writes,
      oldest first. `received`, `answered`, `written`: how often the step with identity `x` came in, was
      told that it will not be written, and was written. `accepted`: the versions let into the queue,
      oldest first. */
  datatype Summary = Summary(
    base: Option<Snapshot>,
    cache: seq<Written>,
    storage: seq<Written>,
    received: nat,
    answered: nat,
    written: nat,
    accepted: seq<int>)

  function Summarize(h: History, x: nat): Summary {
    match h
    case Start => Summary(None, [], [], 0, 0, 0, [])
    case After(past, e) => Observe(Summarize(past, x), e, x)
  }

  function One(id: nat, x: nat): nat {
    if id == x then 1 else 0
  }

  function Observe(s: Summary, e: Trace, x: nat): Summary {
    match e
    case Received(step) => s.(received := s.received + One(step.id, x))
    case Accepted(_, message) => s.(accepted := s.accepted + [message.version])
    case InvalidData(_, id) => s.(answered := s.answered + One(id, x))
    case InvalidVersion(_, id, _) => s.(answered := s.answered + One(id, x))
    case VersionExists(_, id, _, _, _, _) => s.(answered := s.answered + One(id, x))
    case Loaded(snapshot) => s.(base := Some(snapshot))
    case StorageSet(step, snapshot) => s.(storage := s.storage + [Written(step, snapshot)])
    case CacheSet(step, snapshot) =>
      s.(cache := s.cache + [Written(step, snapshot)], written := s.written + One(step.id, x))
    case _ => s
  }

  /** How often the step `x` stands in a queue. */
  function Times(steps: seq<Step>, x: nat): nat {
    if steps == [] then 0 else One(steps[0].id, x) + Times(steps[1..], x)
  }

  lemma {:induction false} TimesSnoc(steps: seq<Step>, step: Step, x: nat)
    ensures Times(steps + [step], x) == Times(steps, x) + One(step.id, x)
    decreases |steps|
  {
    if steps == [] {
    } else {
      assert (steps + [step])[1..] == steps[1..] + [step];
      TimesSnoc(steps[1..], step, x);
    }
  }

  // ---------- The laws ----------

  /** The record's state after the writes: the last write, or what was loaded. */
  function Head(base: Snapshot, writes: seq<Written>): Snapshot {
    if writes == [] then base else writes[|writes| - 1].snapshot
  }

  predicate Follows(cfg: Config, before: Snapshot, w: Written) {
    && w.step.message.payload.Parsed?
    && w.snapshot.version == w.step.message.version == before.version + 1
    && Apply(cfg, before.data, w.step.message) == Some(w.snapshot.data)
  }

  /** Each write is the step's message applied to the state the write before left, one version up. */
  predicate Chain(cfg: Config, base: Snapshot, writes: seq<Written>) {
    writes == [] ||
    var before := writes[..|writes| - 1];
    Chain(cfg, base, before) && Follows(cfg, Head(base, before), writes[|writes| - 1])
  }

  /** The fields agree with the history, and storage gets what the cache gets. */
  predicate Linked(cfg: Config, t: State, s: Summary) {
    && (s.base.None? ==> t.data == Null && t.current.None? && s.cache == [])
    && (s.base.Some? ==> t.requested && t.load.None? && Chain(cfg, s.base.value, s.cache))
    && (s.base.Some? && !t.crashed ==> Head(s.base.value, s.cache) == Snapshot(t.version, t.data))
    && s.storage == (if cfg.excluded then [] else s.cache)
    && (t.load.Some? ==> t.requested)
  }

  /** Every step that came in is in exactly one place: answered, waiting for the load to be
      answered, queued, or written. A step whose path throws takes the process with it. */
  predicate Conserved(t: State, s: Summary, x: nat) {
    s.received == s.answered + Times(t.existing, x) + Times(t.steps, x) + s.written
                  + (if t.crashed && t.current.Some? then One(t.current.value.id, x) else 0)
  }

  /** `lastVersion` is the last explicit version let in, and each version let in obeyed it. */
  function LastExplicit(versions: seq<int>): Option<int> {
    if versions == [] then None
    else
      var v := versions[|versions| - 1];
      if v != -1 then Some(v) else LastExplicit(versions[..|versions| - 1])
  }

  predicate EachFollows(versions: seq<int>) {
    versions == [] ||
    var before := versions[..|versions| - 1];
    && EachFollows(before)
    && (LastExplicit(before).Some? ==> versions[|versions| - 1] == LastExplicit(before).value + 1)
  }

  predicate Gated(t: State, s: Summary) {
    t.last == LastExplicit(s.accepted) && EachFollows(s.accepted)
  }

  predicate Lawful(cfg: Config, t: State, x: nat) {
    var s := Summarize(t.trace, x);
    Linked(cfg, t, s) && Conserved(t, s, x) && Gated(t, s)
  }

  // ---------- One event at a time ----------

  /** While `next` holds a step that it took off the queue, the laws hold but for that step. */
  predicate InHand(cfg: Config, t: State, id: nat, x: nat) {
    var s := Summarize(t.trace, x);
    && Linked(cfg, t, s) && Gated(t, s) && !t.crashed
    && s.received == s.answered + Times(t.existing, x) + Times(t.steps, x) + s.written + One(id, x)
  }

  lemma SendVersionExistsKeeps(cfg: Config, t: State, step: Step, x: nat)
    requires InHand(cfg, t, step.id, x)
    ensures Lawful(cfg, SendVersionExists(t, step), x) && !SendVersionExists(t, step).crashed
  {
    TimesSnoc(t.existing, step, x);
  }

  lemma WriteKeeps(cfg: Config, t: State, step: Step, x: nat)
    requires InHand(cfg, t, step.id, x)
    requires t.current == Some(step) && t.data != Null && step.message.version == t.version + 1
    ensures Lawful(cfg, Write(cfg, t, step), x)
  {
    var data := if step.message.payload.Parsed? then Apply(cfg, t.data, step.message) else None;
    if data.Some? {
      var s := Summarize(t.trace, x);
      var w := Written(step, Snapshot(step.message.version, data.value));
      ChainSnoc(cfg, s.base.value, s.cache, w);
      WriteTrace(cfg, t, step, w);
      WriteSummary(cfg, t.trace, w, x);
      var u := Write(cfg, t, step);
      assert Linked(cfg, u, Summarize(u.trace, x));
    }
  }

  lemma ChainSnoc(cfg: Config, base: Snapshot, writes: seq<Written>, w: Written)
    requires Chain(cfg, base, writes) && Follows(cfg, Head(base, writes), w)
    ensures Chain(cfg, base, writes + [w]) && Head(base, writes + [w]) == w.snapshot
  {
    assert (writes + [w])[..|writes|] == writes;
  }

  /** The trace that one write leaves. */
  function WriteMark(cfg: Config, past: History, w: Written): History {
    After(if cfg.excluded then past else After(past, StorageSet(w.step, w.snapshot)), CacheSet(w.step, w.snapshot))
  }

  lemma WriteSummary(cfg: Config, past: History, w: Written, x: nat)
    ensures var s := Summarize(past, x);
      Summarize(WriteMark(cfg, past, w), x) ==
      s.(cache := s.cache + [w], storage := if cfg.excluded then s.storage else s.storage + [w],
         written := s.written + One(w.step.id, x))
  {
  }

  lemma WriteTrace(cfg: Config, t: State, step: Step, w: Written)
    requires step.message.payload.Parsed? && Apply(cfg, t.data, step.message) == Some(w.snapshot.data)
    requires w == Written(step, Snapshot(step.message.version, w.snapshot.data))
    ensures var u := Write(cfg, t, step);
      && u == t.(version := w.snapshot.version, data := w.snapshot.data, acks := u.acks,
                 storageCalls := u.storageCalls, cacheCalls := u.cacheCalls, trace := u.trace)
      && u.trace == WriteMark(cfg, t.trace, w)
  {
  }

  lemma {:induction false} NextKeeps(cfg: Config, t: State, x: nat)
    requires Lawful(cfg, t, x) && !t.crashed
    ensures Lawful(cfg, Next(cfg, t), x)
    decreases |t.steps|
  {
    if t.destroyed || t.data == Null {
    } else if t.steps == [] {
      DestroyKeeps(cfg, t, false, x);
    } else {
      var step := Resolve(t.steps[0], t.version);
      var taken := t.(steps := t.steps[1..], current := Some(step));
      assert InHand(cfg, taken, step.id, x);
      if step.message.version > t.version + 1 {
      } else if t.version != step.message.version - 1 {
        SendVersionExistsKeeps(cfg, taken, step, x);
        NextKeeps(cfg, SendVersionExists(taken, step), x);
      } else {
        WriteKeeps(cfg, taken, step, x);
      }
    }
  }

  lemma ReportErrorsFrame(t: State, x: nat)
    ensures var u := ReportErrors(t);
      u == t.(acks := map[], trace := u.trace) && Summarize(u.trace, x) == Summarize(t.trace, x)
  {
  }

  lemma DestroyKeeps(cfg: Config, t: State, failed: bool, x: nat)
    requires Lawful(cfg, t, x)
    ensures Lawful(cfg, Destroy(t, failed), x)
  {
    ReportErrorsFrame(t, x);
    var told := if failed then ReportErrors(t) else t;
    assert Lawful(cfg, told, x);
  }

  lemma {:induction false} StepErrorsKeep(past: History, steps: seq<Step>, x: nat)
    ensures Summarize(StepErrors(past, steps), x) == Summarize(past, x)
    decreases |steps|
  {
    if steps == [] {
    } else {
      StepErrorsKeep(if steps[0].sender.isRemote then past else After(past, StepError(steps[0].sender, steps[0].id)), steps[1..], x);
    }
  }

  lemma FatalKeeps(cfg: Config, t: State, x: nat)
    requires Lawful(cfg, t, x)
    ensures Lawful(cfg, Fatal(t), x)
  {
    StepErrorsKeep(t.trace, t.steps, x);
    if !t.destroyed {
      DestroyKeeps(cfg, t.(trace := StepErrors(t.trace, t.steps)), true, x);
    }
  }

  lemma HandleAckFrame(t: State, socket: Socket, message: Message, x: nat)
    ensures var u := HandleAck(t, socket, message);
      u == t.(acks := u.acks, trace := u.trace) && Summarize(u.trace, x) == Summarize(t.trace, x)
  {
  }

  lemma HandleAckKeeps(cfg: Config, t: State, socket: Socket, message: Message, x: nat)
    requires Lawful(cfg, t, x)
    ensures var u := HandleAck(t, socket, message);
      Lawful(cfg, u, x) && u.crashed == t.crashed && u.destroyed == t.destroyed && u.current == t.current
  {
    HandleAckFrame(t, socket, message, x);
  }

  lemma AddKeeps(cfg: Config, t: State, step: Step, upsert: bool, x: nat)
    requires Lawful(cfg, t, x) && !t.crashed
    ensures Lawful(cfg, Add(cfg, t, step, upsert), x)
  {
    var noted := Note(t, Received(step));
    assert InHand(cfg, noted, step.id, x);
    if !Acceptable(t, step.message) {
      if !BadData(step.message) && step.message.version <= t.last.value + 1 {
        SendVersionExistsKeeps(cfg, noted, step, x);
      }
    } else {
      var queued := Enqueue(noted, step);
      TimesSnoc(t.steps, step, x);
      var before := Summarize(t.trace, x).accepted;
      assert (before + [step.message.version])[..|before|] == before;
      assert Lawful(cfg, queued, x);
      if t.requested && |queued.steps| == 1 {
        NextKeeps(cfg, queued, x);
      }
    }
  }

  lemma {:induction false} ResendAnswers(t: State, steps: seq<Step>, x: nat)
    requires steps != [] ==> Truthy(t.data)
    ensures var u := Resend(t, steps);
      && u == t.(trace := u.trace)
      && Summarize(u.trace, x) == Summarize(t.trace, x).(answered := Summarize(t.trace, x).answered + Times(steps, x))
    decreases |steps|
  {
    if steps == [] {
    } else {
      ResendAnswers(SendVersionExists(t, steps[0]), steps[1..], x);
    }
  }

  lemma OnRecordKeeps(cfg: Config, t: State, found: Option<Snapshot>, upsert: bool, x: nat)
    requires Lawful(cfg, t, x) && !t.crashed && t.requested && t.load.None? && Summarize(t.trace, x).base.None?
    ensures Lawful(cfg, OnRecord(cfg, t, found, upsert), x)
  {
    if Missing(found) && !upsert {
      FatalKeeps(cfg, t, x);
    } else {
      var start := if Missing(found) then Snapshot(0, EMPTY_OBJECT) else found.value;
      var loaded := Note(t.(data := start.data, version := start.version), Loaded(start));
      if !Hangs(loaded) {
        ResendAnswers(loaded, loaded.existing, x);
        NextKeeps(cfg, FlushExisting(loaded), x);
      }
    }
  }

  lemma CacheSetKeeps(cfg: Config, t: State, error: bool, ack: Option<Message>, x: nat)
    requires Lawful(cfg, t, x) && !t.crashed
    ensures Lawful(cfg, OnCacheSet(cfg, t, error, ack), x)
  {
    if t.current.None? {
      DestroyKeeps(cfg, t, true, x);
    } else {
      var acked := if ack.Some? then HandleAck(t, t.current.value.sender, ack.value) else t;
      if ack.Some? { HandleAckKeeps(cfg, t, t.current.value.sender, ack.value, x); }
      if error {
        FatalKeeps(cfg, acked, x);
      } else if !acked.destroyed {
        NextKeeps(cfg, Note(acked, Broadcast(t.current.value)), x);
      }
    }
  }

  lemma StorageSetKeeps(cfg: Config, t: State, error: bool, ack: Option<Message>, x: nat)
    requires Lawful(cfg, t, x)
    ensures Lawful(cfg, OnStorageSet(t, error, ack), x)
  {
    if ack.Some? && t.current.Some? { HandleAckKeeps(cfg, t, t.current.value.sender, ack.value, x); }
    if error {
      FatalKeeps(cfg, if ack.Some? && t.current.Some? then HandleAck(t, t.current.value.sender, ack.value) else t, x);
    }
  }

  /** Every event keeps the laws. */
  lemma EventKeeps(cfg: Config, t: State, e: Event, x: nat)
    requires Lawful(cfg, t, x) && Enabled(t, e)
    ensures Lawful(cfg, Occur(cfg, t, e), x)
  {
    match e
    case Submit(step, upsert) => AddKeeps(cfg, t, step, upsert, x);
    case Refuse(step) => SendVersionExistsKeeps(cfg, Note(t, Received(step)), step, x);
    case LoadDone(found) => OnRecordKeeps(cfg, t.(load := None), found, t.load.value, x);
    case LoadFailed => DestroyKeeps(cfg, t.(load := None), true, x);
    case StorageDone(i, error) =>
      var call := t.storageCalls[i];
      StorageSetKeeps(cfg, Note(t.(storageCalls := Without(t.storageCalls, i)), StorageAnswered(call.id)), error, call.ack, x);
    case CacheDone(i, error) =>
      var call := t.cacheCalls[i];
      CacheSetKeeps(cfg, Note(t.(cacheCalls := Without(t.cacheCalls, i)), CacheAnswered(call.id)), error, call.ack, x);
    case Stop => DestroyKeeps(cfg, t, false, x);
  }

  lemma {:induction false} RunKeeps(cfg: Config, events: seq<Event>, x: nat)
    requires Run(cfg, INITIAL, events).Some?
    ensures Lawful(cfg, Run(cfg, INITIAL, events).value, x)
    decreases |events|
  {
    if events == [] {
    } else {
      var before := events[..|events| - 1];
      RunKeeps(cfg, before, x);
      EventKeeps(cfg, Run(cfg, INITIAL, before).value, events[|events| - 1], x);
    }
  }

  // ---------- What follows for every run ----------

  /** Applying messages one after the other. */
  function Fold(cfg: Config, data: Json, writes: seq<Written>): Option<Json> {
    if writes == [] then Some(data)
    else
      var before := Fold(cfg, data, writes[..|writes| - 1]);
      var message := writes[|writes| - 1].step.message;
      if before.Some? && message.payload.Parsed? then Apply(cfg, before.value, message) else None
  }

  lemma {:induction false} ChainClosed(cfg: Config, base: Snapshot, writes: seq<Written>, k: nat)
    requires Chain(cfg, base, writes) && k <= |writes|
    ensures Head(base, writes[..k]).version == base.version + k
    ensures Fold(cfg, base.data, writes[..k]) == Some(Head(base, writes[..k]).data)
    decreases |writes|
  {
    if k < |writes| {
      assert writes[..|writes| - 1][..k] == writes[..k];
      ChainClosed(cfg, base, writes[..|writes| - 1], k);
    } else if k > 0 {
      assert writes[..k] == writes;
      var before := writes[..k - 1];
      ChainClosed(cfg, base, before, k - 1);
      assert before[..k - 1] == before;
    }
  }

  /** In every run the k-th cache write carries version v0 + k and the data that the first k written
      messages make of the loaded data, and storage was given the same writes unless excluded. */
  lemma WritesAreTheFold(cfg: Config, events: seq<Event>)
    requires Run(cfg, INITIAL, events).Some?
    ensures var s := Summarize(Run(cfg, INITIAL, events).value.trace, 0);
      && (s.cache != [] ==> s.base.Some?)
      && s.storage == (if cfg.excluded then [] else s.cache)
      && forall k :: 0 <= k < |s.cache| ==>
           && s.cache[k].snapshot.version == s.cache[k].step.message.version == s.base.value.version + k + 1
           && Fold(cfg, s.base.value.data, s.cache[..k + 1]) == Some(s.cache[k].snapshot.data)
  {
    RunKeeps(cfg, events, 0);
    var s := Summarize(Run(cfg, INITIAL, events).value.trace, 0);
    if s.cache != [] {
      ChainIsTheFold(cfg, s.base.value, s.cache);
    }
  }

  lemma ChainIsTheFold(cfg: Config, base: Snapshot, writes: seq<Written>)
    requires Chain(cfg, base, writes)
    ensures forall k :: 0 <= k < |writes| ==>
              && writes[k].snapshot.version == writes[k].step.message.version == base.version + k + 1
              && Fold(cfg, base.data, writes[..k + 1]) == Some(writes[k].snapshot.data)
  {
    forall k | 0 <= k < |writes|
      ensures writes[k].snapshot.version == writes[k].step.message.version == base.version + k + 1
      ensures Fold(cfg, base.data, writes[..k + 1]) == Some(writes[k].snapshot.data)
    {
      ChainClosed(cfg, base, writes, k);
      ChainClosed(cfg, base, writes, k + 1);
      ChainEach(cfg, base, writes, k);
      assert Head(base, writes[..k + 1]) == writes[k].snapshot;
    }
  }

  lemma {:induction false} ChainEach(cfg: Config, base: Snapshot, writes: seq<Written>, k: nat)
    requires Chain(cfg, base, writes) && k < |writes|
    ensures Follows(cfg, Head(base, writes[..k]), writes[k])
    decreases |writes|
  {
    var before := writes[..|writes| - 1];
    if k < |before| {
      assert before[..k] == writes[..k];
      ChainEach(cfg, base, before, k);
    }
  }

  /** A step that came in once is, in every run, in exactly one place, so one that was answered with
      VERSION_EXISTS, INVALID_VERSION or INVALID_MESSAGE_DATA is never written, and none is written twice. */
  lemma OneFate(cfg: Config, events: seq<Event>, x: nat)
    requires Run(cfg, INITIAL, events).Some?
    requires Summarize(Run(cfg, INITIAL, events).value.trace, x).received == 1
    ensures var t := Run(cfg, INITIAL, events).value; var s := Summarize(t.trace, x);
      && s.answered + Times(t.existing, x) + Times(t.steps, x) + s.written
         + (if t.crashed && t.current.Some? then One(t.current.value.id, x) else 0) == 1
      && (s.answered > 0 ==> s.written == 0 && s.answered == 1)
      && s.written <= 1
  {
    RunKeeps(cfg, events, x);
  }

  // ---------- The versions let into the queue ----------

  /** -1s, then consecutive explicit versions, then -1s again. The last part needs the explicit
      versions to end in -2, whose successor is taken for the marker -1. */
  ghost predicate Shape(versions: seq<int>, a: nat, b: nat) {
    && a <= b <= |versions|
    && (forall i :: 0 <= i < a ==> versions[i] == -1)
    && (forall i :: a <= i < b ==> versions[i] == versions[a] + (i - a) && versions[i] != -1)
    && (forall i :: b <= i < |versions| ==> versions[i] == -1)
    && (b < |versions| ==> a < b && versions[b - 1] == -2)
  }

  lemma {:induction false} LastOfShape(versions: seq<int>, a: nat, b: nat)
    requires Shape(versions, a, b)
    ensures LastExplicit(versions) == if a < b then Some(versions[b - 1]) else None
    decreases |versions|
  {
    if versions != [] {
      var before := versions[..|versions| - 1];
      if versions[|versions| - 1] == -1 {
        LastOfShape(before, if a < |versions| then a else a - 1, if b < |versions| then b else b - 1);
      }
    }
  }

  lemma {:induction false} ShapeOfAccepted(versions: seq<int>) returns (a: nat, b: nat)
    requires EachFollows(versions)
    ensures Shape(versions, a, b)
    decreases |versions|
  {
    if versions == [] {
      a, b := 0, 0;
    } else {
      var before := versions[..|versions| - 1];
      var v := versions[|versions| - 1];
      a, b := ShapeOfAccepted(before);
      LastOfShape(before, a, b);
      if a == b {
        a, b := if v == -1 then a + 1 else a, a + 1;
      } else if v != -1 {
        b := b + 1;
      }
    }
  }

  lemma {:induction false} ShapeIsAccepted(versions: seq<int>, a: nat, b: nat)
    requires Shape(versions, a, b)
    ensures EachFollows(versions)
    decreases |versions|
  {
    if versions != [] {
      var before := versions[..|versions| - 1];
      var a', b' := if a < |versions| then a else a - 1, if b < |versions| then b else b - 1;
      ShapeIsAccepted(before, a', b');
      LastOfShape(before, a', b');
    }
  }

  /** Nothing accepted after an explicit -2: then, and only then, there is no third part. */
  lemma PlainShape(versions: seq<int>, a: nat, b: nat)
    requires Shape(versions, a, b)
    ensures b == |versions| <==> !(exists k :: 0 <= k < |versions| - 1 && versions[k] == -2)
  {
    if b < |versions| {
      assert versions[b - 1] == -2;
    } else {
      forall k | 0 <= k < |versions| - 1 ensures versions[k] != -2 {
        if a <= k {
          assert versions[k + 1] == versions[a] + (k + 1 - a);
        }
      }
    }
  }

  /** In every run the accepted versions are -1s, then consecutive explicit versions, and nothing
      more, if and only if nothing was accepted after an explicit -2. */
  lemma AcceptedVersionsShape(cfg: Config, events: seq<Event>) returns (a: nat, b: nat)
    requires Run(cfg, INITIAL, events).Some?
    ensures var versions := Summarize(Run(cfg, INITIAL, events).value.trace, 0).accepted;
      && Shape(versions, a, b)
      && (b == |versions| <==> !(exists k :: 0 <= k < |versions| - 1 && versions[k] == -2))
  {
    RunKeeps(cfg, events, 0);
    var versions := Summarize(Run(cfg, INITIAL, events).value.trace, 0).accepted;
    a, b := ShapeOfAccepted(versions);
    PlainShape(versions, a, b);
  }

  lemma RunSnoc(cfg: Config, events: seq<Event>, t: State, e: Event)
    requires Run(cfg, INITIAL, events) == Some(t) && Enabled(t, e)
    ensures Run(cfg, INITIAL, events + [e]) == Some(Occur(cfg, t, e))
  {
    assert (events + [e])[..|events|] == events;
  }

  function WholeUpdate(id: nat, version: int, sender: Socket): Event {
    Submit(Step(id, Message(Update, "r", version, None, Parsed(EMPTY_OBJECT), false, ""), sender), false)
  }

  /** Until the record is loaded, an acceptable step is only put into the queue. */
  lemma SubmitBeforeLoad(cfg: Config, t: State, step: Step, upsert: bool)
    requires t.data == Null && Acceptable(t, step.message)
    ensures var queued := Enqueue(Note(t, Received(step)), step);
      && Add(cfg, t, step, upsert) ==
         (if t.requested then queued else Note(queued.(requested := true, load := Some(upsert)), LoadCalled))
      && Summarize(Add(cfg, t, step, upsert).trace, 0).accepted == Summarize(t.trace, 0).accepted + [step.message.version]
      && Summarize(Add(cfg, t, step, upsert).trace, 0).cache == Summarize(t.trace, 0).cache
  {
    var queued := Enqueue(Note(t, Received(step)), step);
    var s := Summarize(t.trace, 0);
    assert Summarize(queued.trace, 0) == Observe(Observe(s, Received(step), 0), Accepted(step.id, step.message), 0);
  }

  /** The third part does occur: a client may send version -2, and then -1 as often as it likes. */
  lemma MinusTwoSticks(cfg: Config, sender: Socket)
    ensures var run := Run(cfg, INITIAL, [] + [WholeUpdate(0, -2, sender)] + [WholeUpdate(1, -1, sender)] + [WholeUpdate(2, -1, sender)]);
      run.Some? && Summarize(run.value.trace, 0).accepted == [-2, -1, -1]
  {
    var e0, e1, e2 := WholeUpdate(0, -2, sender), WholeUpdate(1, -1, sender), WholeUpdate(2, -1, sender);
    SubmitBeforeLoad(cfg, INITIAL, e0.step, false);
    RunSnoc(cfg, [], INITIAL, e0);
    var s1 := Occur(cfg, INITIAL, e0);
    SubmitBeforeLoad(cfg, s1, e1.step, false);
    RunSnoc(cfg, [] + [e0], s1, e1);
    var s2 := Occur(cfg, s1, e1);
    SubmitBeforeLoad(cfg, s2, e2.step, false);
    RunSnoc(cfg, [] + [e0] + [e1], s2, e2);
  }
}
