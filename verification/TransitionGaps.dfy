/** When `next` stands still for good: at a version gap, exactly when the first explicit version that was
    let in is too far ahead of what was loaded; and at null data, exactly when a message without a path
    and with the payload null is written. A calm transition ends exactly otherwise. */
module TransitionGaps {
  import opened Common
  import opened Transition
  import opened TransitionLaws
  import opened TransitionAcks

  // ---------- Versions alone ----------

  /** The record's version after `next` took these versions, starting from the loaded one. */
  function VersionAfter(loaded: int, versions: seq<int>): int
    decreases |versions|
  {
    if versions == [] then loaded
    else
      var before := VersionAfter(loaded, versions[..|versions| - 1]);
      var v := versions[|versions| - 1];
      if v == -1 || v == before + 1 then before + 1 else before
  }

  /** The last of these versions is further ahead than the next one. */
  predicate GapAtEnd(loaded: int, versions: seq<int>) {
    versions != [] &&
    var v := versions[|versions| - 1];
    v != -1 && v > VersionAfter(loaded, versions[..|versions| - 1]) + 1
  }

  predicate GapFree(loaded: int, versions: seq<int>)
    decreases |versions|
  {
    versions == [] || (GapFree(loaded, versions[..|versions| - 1]) && !GapAtEnd(loaded, versions))
  }

  /** The first explicit version exceeds the loaded version plus the number of -1s before it plus 1. */
  predicate TooFar(loaded: int, versions: seq<int>) {
    exists k :: 0 <= k < |versions| && FirstExplicit(versions, k) && versions[k] > loaded + k + 1
  }

  predicate FirstExplicit(versions: seq<int>, k: nat)
    requires k < |versions|
  {
    versions[k] != -1 && forall i :: 0 <= i < k ==> versions[i] == -1
  }

  lemma TooFarSnoc(loaded: int, versions: seq<int>)
    requires versions != []
    ensures var before := versions[..|versions| - 1]; var k := |versions| - 1;
      TooFar(loaded, versions) <==> TooFar(loaded, before) || (FirstExplicit(versions, k) && versions[k] > loaded + k + 1)
  {
    var before := versions[..|versions| - 1];
    if TooFar(loaded, before) {
      var k :| 0 <= k < |before| && FirstExplicit(before, k) && before[k] > loaded + k + 1;
      assert FirstExplicit(versions, k);
    }
    if TooFar(loaded, versions) {
      var k :| 0 <= k < |versions| && FirstExplicit(versions, k) && versions[k] > loaded + k + 1;
      if k < |before| { assert FirstExplicit(before, k); }
    }
  }

  lemma {:induction false} OnlyOnes(versions: seq<int>)
    ensures LastExplicit(versions) == None <==> forall i :: 0 <= i < |versions| ==> versions[i] == -1
    decreases |versions|
  {
    if versions != [] { OnlyOnes(versions[..|versions| - 1]); }
  }

  /** Accepted versions have a gap somewhere exactly if they have one at the first explicit version. */
  lemma {:induction false} GapFreeIff(loaded: int, versions: seq<int>)
    requires EachFollows(versions)
    ensures GapFree(loaded, versions) <==> !TooFar(loaded, versions)
    ensures LastExplicit(versions).None? ==> VersionAfter(loaded, versions) == loaded + |versions|
    ensures GapFree(loaded, versions) && LastExplicit(versions).Some? ==> VersionAfter(loaded, versions) >= LastExplicit(versions).value
    decreases |versions|
  {
    if versions != [] {
      var before := versions[..|versions| - 1];
      GapFreeIff(loaded, before);
      TooFarSnoc(loaded, versions);
      OnlyOnes(before);
    }
  }

  // ---------- Messages ----------

  function Versions(messages: seq<Message>): seq<int> {
    seq(|messages|, i requires 0 <= i < |messages| => messages[i].version)
  }

  /** The message puts null in the record's place. */
  predicate IsNull(m: Message) {
    (m.path.None? || m.path.value == "") && m.payload == Parsed(Null)
  }

  /** One of these messages is written, if `next` gets to it, and leaves null: its version is -1, or
      exactly the next one. */
  predicate NullTaken(loaded: int, messages: seq<Message>)
    decreases |messages|
  {
    messages != [] &&
    var before, m := messages[..|messages| - 1], messages[|messages| - 1];
    || NullTaken(loaded, before)
    || (IsNull(m) && (m.version == -1 || m.version == VersionAfter(loaded, Versions(before)) + 1))
  }

  lemma VersionsOf(messages: seq<Message>, n: nat)
    requires n <= |messages|
    ensures Versions(messages[..n]) == Versions(messages)[..n]
  {
  }

  lemma {:induction false} NullStays(loaded: int, messages: seq<Message>, n: nat)
    requires n <= |messages| && NullTaken(loaded, messages[..n])
    ensures NullTaken(loaded, messages)
    decreases |messages|
  {
    if n == |messages| {
      assert messages[..n] == messages;
    } else {
      assert messages[..|messages| - 1][..n] == messages[..n];
      NullStays(loaded, messages[..|messages| - 1], n);
    }
  }

  // ---------- What a history says ----------

  function LetIn(h: History): seq<Message> {
    match h
    case Start => []
    case After(past, Accepted(_, m)) => LetIn(past) + [m]
    case After(past, _) => LetIn(past)
  }

  function Base(h: History): Option<Snapshot> {
    match h
    case Start => None
    case After(past, Loaded(snapshot)) => Some(snapshot)
    case After(past, _) => Base(past)
  }

  lemma {:induction false} SummaryAgrees(h: History)
    ensures Summarize(h, 0).accepted == Versions(LetIn(h)) && Summarize(h, 0).base == Base(h)
  {
    if h.After? { SummaryAgrees(h.past); }
  }

  predicate SameSaid(t: State, u: State) {
    LetIn(u.trace) == LetIn(t.trace) && Base(u.trace) == Base(t.trace)
  }

  // ---------- The queue ----------

  /** The queue holds the last of the accepted messages. */
  predicate Queued(steps: seq<Step>, messages: seq<Message>) {
    && |steps| <= |messages|
    && forall i :: 0 <= i < |steps| ==> messages[|messages| - |steps| + i] == steps[i].message
  }

  function Taken(t: State, messages: seq<Message>): seq<Message>
    requires |t.steps| <= |messages|
  {
    messages[..|messages| - |t.steps|]
  }

  /** After the load: the version is that of the messages taken so far; the step taken last stands before
      a gap exactly if its version made one; and the data is null exactly if the last message taken left
      it so. */
  predicate Counts(t: State, loaded: int, messages: seq<Message>) {
    && Queued(t.steps, messages)
    && var taken := Taken(t, messages);
    && t.version == VersionAfter(loaded, Versions(taken))
    && (taken == [] ==> t.current.None?)
    && (Halted(t) <==> GapAtEnd(loaded, Versions(taken)))
    && (t.data == Null <==> NullTaken(loaded, taken))
    && (taken != [] ==> !NullTaken(loaded, taken[..|taken| - 1]))
    && (t.destroyed ==> !Halted(t) && t.data != Null)
  }

  lemma TakenMore(loaded: int, messages: seq<Message>, n: nat)
    requires n < |messages|
    ensures messages[..n + 1][..n] == messages[..n]
    ensures var v := messages[n].version; var before := VersionAfter(loaded, Versions(messages[..n]));
      && VersionAfter(loaded, Versions(messages[..n + 1])) == (if v == -1 || v == before + 1 then before + 1 else before)
      && (GapAtEnd(loaded, Versions(messages[..n + 1])) <==> v != -1 && v > before + 1)
      && (GapFree(loaded, Versions(messages[..n + 1])) <==> GapFree(loaded, Versions(messages[..n])) && !(v != -1 && v > before + 1))
      && (NullTaken(loaded, messages[..n + 1]) <==>
          NullTaken(loaded, messages[..n]) || (IsNull(messages[n]) && (v == -1 || v == before + 1)))
  {
    var more := messages[..n + 1];
    assert more[..n] == messages[..n];
    VersionsOf(more, n);
    assert Versions(more)[..|more| - 1] == Versions(messages[..n]);
  }

  /** `u` is `t` after some more steps were taken; only the last of them can have made a gap. */
  predicate Advances(t: State, u: State, loaded: int, messages: seq<Message>)
    requires |t.steps| <= |messages| && |u.steps| <= |messages|
  {
    && |u.steps| <= |t.steps|
    && (GapFree(loaded, Versions(Taken(u, messages))) <==>
        GapFree(loaded, Versions(Taken(t, messages))) && (|u.steps| < |t.steps| ==> !Halted(u)))
    && (|u.steps| == |t.steps| ==> (Halted(u) <==> Halted(t)))
  }

  lemma WriteCounts(cfg: Config, t: State, step: Step)
    requires YieldsNodes(cfg)
    ensures var u := Write(cfg, t, step);
      && SameSaid(t, u) && u.steps == t.steps && u.current == t.current && u.destroyed == t.destroyed
      && u.version == step.message.version
      && (!u.crashed && t.data != Null ==> (u.data == Null <==> IsNull(step.message)))
      && (t.crashed ==> u.crashed)
  {
    var data := if step.message.payload.Parsed? then Apply(cfg, t.data, step.message) else None;
    if data.Some? {
      var w := Written(step, Snapshot(step.message.version, data.value));
      WriteTrace(cfg, t, step, w);
    }
  }

  lemma ExistsCounts(t: State, step: Step)
    ensures var u := SendVersionExists(t, step);
      SameSaid(t, u) && u == t.(existing := u.existing, trace := u.trace)
  {
  }

  lemma {:induction false} NextCounts(cfg: Config, t: State, loaded: int, messages: seq<Message>)
    requires YieldsNodes(cfg) && Counts(t, loaded, messages) && !t.crashed && !t.destroyed
    requires t.steps == [] ==> !Halted(t)
    ensures var u := Next(cfg, t);
      && SameSaid(t, u) && Queued(u.steps, messages)
      && (u.crashed || (Counts(u, loaded, messages) && Advances(t, u, loaded, messages)))
    decreases |t.steps|
  {
    if t.data != Null && t.steps != [] {
      var step := Resolve(t.steps[0], t.version);
      var taken := t.(steps := t.steps[1..], current := Some(step));
      if step.message.version > t.version + 1 {
        StepCounts(t, Note(taken, InvalidVersion(step.sender, step.id, t.version)), loaded, messages);
      } else if t.version != step.message.version - 1 {
        ExistsCounts(taken, step);
        var told := SendVersionExists(taken, step);
        StepCounts(t, told, loaded, messages);
        NextCounts(cfg, told, loaded, messages);
      } else {
        WriteCounts(cfg, taken, step);
        if !Write(cfg, taken, step).crashed { StepCounts(t, Write(cfg, taken, step), loaded, messages); }
        OneTaken(t, messages);
      }
    }
  }

  /** One more message taken: written if its version is the next one, passed over if not. */
  lemma StepCounts(t: State, u: State, loaded: int, messages: seq<Message>)
    requires Counts(t, loaded, messages) && t.data != Null && t.steps != [] && !u.destroyed
    requires var step := Resolve(t.steps[0], t.version); var fits := step.message.version == t.version + 1;
      && u.steps == t.steps[1..] && u.current == Some(step)
      && u.version == (if fits then step.message.version else t.version)
      && (u.data == Null <==> fits && IsNull(step.message))
    ensures Counts(u, loaded, messages) && Advances(t, u, loaded, messages)
  {
    var n := |messages| - |t.steps|;
    TakenMore(loaded, messages, n);
    OneTaken(t, messages);
    assert messages[n] == t.steps[0].message;
    assert Taken(t, messages) == messages[..n] && Taken(u, messages) == messages[..n + 1];
  }

  lemma OneTaken(t: State, messages: seq<Message>)
    requires Queued(t.steps, messages) && t.steps != []
    ensures Queued(t.steps[1..], messages)
  {
    forall i | 0 <= i < |t.steps| - 1 ensures messages[|messages| - (|t.steps| - 1) + i] == t.steps[1..][i].message {
      assert t.steps[1..][i] == t.steps[i + 1];
    }
  }

  // ---------- Calm runs ----------

  /** Before and after the load. */
  predicate Tracked(t: State) {
    var messages, base := LetIn(t.trace), Base(t.trace);
    t.crashed ||
    (if base.Some? then Counts(t, base.value.version, messages)
     else Queued(t.steps, messages) && |t.steps| == |messages| && t.current.None? && !t.destroyed && (t.requested ==> t.load.Some?))
  }

  /** No step taken so far made a gap. */
  predicate Smooth(t: State) {
    var messages, base := LetIn(t.trace), Base(t.trace);
    |t.steps| <= |messages| && (base.Some? ==> GapFree(base.value.version, Versions(Taken(t, messages))))
  }

  /** One event: gaps show themselves in the state right after it. */
  ghost predicate Moves(t: State, u: State) {
    Tracked(u) && (u.crashed || (Smooth(u) <==> Smooth(t) && !Halted(u)))
  }

  lemma QuietFollows(t: State, u: State)
    requires Tracked(t) && !t.crashed && !u.crashed && SameSaid(t, u)
    requires u.steps == t.steps && u.version == t.version && u.current == t.current && u.destroyed == t.destroyed && u.data == t.data
    requires u.requested == t.requested && u.load == t.load
    ensures Moves(t, u)
  {
    HaltedIsNotSmooth(t);
  }

  lemma HaltedIsNotSmooth(t: State)
    requires Tracked(t) && !t.crashed
    ensures Halted(t) ==> !Smooth(t)
  {
  }

  lemma EnqueueCounts(t: State, step: Step)
    requires Tracked(t) && !t.crashed && !t.destroyed
    ensures var u := Enqueue(Note(t, Received(step)), step);
      && Tracked(u) && (Smooth(u) <==> Smooth(t)) && (Halted(u) <==> Halted(t))
      && LetIn(u.trace) == LetIn(t.trace) + [step.message] && Base(u.trace) == Base(t.trace)
  {
    var u := Enqueue(Note(t, Received(step)), step);
    var messages := LetIn(t.trace);
    assert LetIn(u.trace) == messages + [step.message];
    assert Taken(u, LetIn(u.trace)) == Taken(t, messages);
  }

  lemma NextFollows(cfg: Config, t: State, u: State)
    requires YieldsNodes(cfg) && Tracked(u) && !u.crashed && !u.destroyed && (Base(u.trace).None? ==> u.data == Null)
    requires u.steps == [] ==> !Halted(u)
    requires Smooth(u) <==> Smooth(t)
    ensures Moves(t, Next(cfg, u))
  {
    HaltedIsNotSmooth(u);
    if Base(u.trace).Some? {
      NextCounts(cfg, u, Base(u.trace).value.version, LetIn(u.trace));
      if !Next(cfg, u).crashed { HaltedIsNotSmooth(Next(cfg, u)); }
    }
  }

  lemma RejectFollows(cfg: Config, t: State, step: Step, upsert: bool)
    requires Tracked(t) && !t.crashed && !Acceptable(t, step.message)
    ensures Moves(t, Add(cfg, t, step, upsert))
  {
    ExistsCounts(Note(t, Received(step)), step);
    QuietFollows(t, Add(cfg, t, step, upsert));
  }

  lemma AcceptFollows(cfg: Config, t: State, step: Step, upsert: bool, queued: State)
    requires YieldsNodes(cfg) && Tracked(t) && !t.crashed && !t.destroyed && (Base(t.trace).None? ==> t.data == Null)
    requires Acceptable(t, step.message) && queued == Enqueue(Note(t, Received(step)), step)
    ensures Moves(t, Add(cfg, t, step, upsert))
  {
    EnqueueCounts(t, step);
    HaltedIsNotSmooth(queued);
    if t.requested && |queued.steps| == 1 {
      NextFollows(cfg, t, queued);
    }
  }

  lemma SubmitFollows(cfg: Config, t: State, step: Step, upsert: bool)
    requires YieldsNodes(cfg) && Tracked(t) && !t.crashed && !t.destroyed && (Base(t.trace).None? ==> t.data == Null)
    ensures Moves(t, Add(cfg, t, step, upsert))
  {
    if Acceptable(t, step.message) {
      AcceptFollows(cfg, t, step, upsert, Enqueue(Note(t, Received(step)), step));
    } else {
      RejectFollows(cfg, t, step, upsert);
    }
  }

  lemma {:induction false} ResendSays(t: State, steps: seq<Step>)
    ensures var u := Resend(t, steps);
      SameSaid(t, u) && u == t.(existing := u.existing, trace := u.trace)
    decreases |steps|
  {
    if steps != [] {
      ExistsCounts(t, steps[0]);
      ResendSays(SendVersionExists(t, steps[0]), steps[1..]);
    }
  }

  lemma LoadFollows(cfg: Config, t: State, found: Option<Snapshot>)
    requires YieldsNodes(cfg) && Tracked(t) && !t.crashed && Base(t.trace).None? && t.load.Some? && (Missing(found) ==> t.load.value)
    ensures Moves(t, OnRecord(cfg, t.(load := None), found, t.load.value))
  {
    var start := if Missing(found) then Snapshot(0, EMPTY_OBJECT) else found.value;
    var loaded := Note(t.(load := None, data := start.data, version := start.version), Loaded(start));
    if !Hangs(loaded) {
      ResendSays(loaded, loaded.existing);
      var u := FlushExisting(loaded);
      assert Taken(u, LetIn(u.trace)) == [];
      NextFollows(cfg, t, u);
    }
  }

  lemma HandleAckSays(t: State, socket: Socket, message: Message)
    ensures var u := HandleAck(t, socket, message);
      SameSaid(t, u) && u == t.(acks := u.acks, trace := u.trace)
  {
  }

  lemma StorageFollows(t: State, ack: Option<Message>)
    requires Tracked(t) && !t.crashed
    ensures Moves(t, OnStorageSet(t, false, ack))
  {
    if ack.Some? && t.current.Some? { HandleAckSays(t, t.current.value.sender, ack.value); }
    QuietFollows(t, OnStorageSet(t, false, ack));
  }

  lemma CacheFollows(cfg: Config, t: State, ack: Option<Message>)
    requires YieldsNodes(cfg) && Tracked(t) && !t.crashed && !t.destroyed && t.current.Some? && !Halted(t) && Base(t.trace).Some?
    ensures Moves(t, OnCacheSet(cfg, t, false, ack))
  {
    if ack.Some? { HandleAckSays(t, t.current.value.sender, ack.value); }
    var acked := if ack.Some? then HandleAck(t, t.current.value.sender, ack.value) else t;
    NextFollows(cfg, t, Note(acked, Broadcast(t.current.value)));
  }

  /** A write in flight is the step taken last, and its version is the record's. */
  lemma InFlightIsNoHalt(cfg: Config, t: State)
    requires Linked(cfg, t, Summarize(t.trace, 0)) && Tidy(cfg, t) && !t.crashed && t.cacheCalls != []
    ensures t.current.Some? && !Halted(t) && !t.destroyed && Base(t.trace).Some?
  {
    var done, w := MustBeInFlight(cfg, t);
    var s := Summarize(t.trace, 0);
    assert s.cache[|s.cache| - 1] == w;
    SummaryAgrees(t.trace);
  }

  lemma SameButAnswered(t: State, u: State)
    requires Tracked(t) && !t.crashed && SameSaid(t, u) && u == t.(storageCalls := u.storageCalls, cacheCalls := u.cacheCalls, trace := u.trace)
    ensures Tracked(u) && (Smooth(u) <==> Smooth(t)) && (Halted(u) <==> Halted(t))
  {
  }

  lemma StorageAnswerFollows(cfg: Config, t: State, i: nat)
    requires Tracked(t) && Enabled(t, StorageDone(i, false))
    ensures Moves(t, Occur(cfg, t, StorageDone(i, false)))
  {
    var call := t.storageCalls[i];
    var u := Note(t.(storageCalls := Without(t.storageCalls, i)), StorageAnswered(call.id));
    SameButAnswered(t, u);
    StorageFollows(u, call.ack);
  }

  lemma CacheAnswerFollows(cfg: Config, t: State, i: nat)
    requires YieldsNodes(cfg) && Linked(cfg, t, Summarize(t.trace, 0)) && Tidy(cfg, t) && Tracked(t) && Enabled(t, CacheDone(i, false))
    ensures Moves(t, Occur(cfg, t, CacheDone(i, false)))
  {
    var call := t.cacheCalls[i];
    var u := Note(t.(cacheCalls := Without(t.cacheCalls, i)), CacheAnswered(call.id));
    SameButAnswered(t, u);
    InFlightIsNoHalt(cfg, t);
    CacheFollows(cfg, u, call.ack);
  }

  lemma EventFollows(cfg: Config, t: State, e: Event)
    requires YieldsNodes(cfg) && Linked(cfg, t, Summarize(t.trace, 0)) && Tidy(cfg, t) && Tracked(t) && Enabled(t, e) && Calm(t, e)
    ensures Moves(t, Occur(cfg, t, e))
  {
    SummaryAgrees(t.trace);
    match e
    case Submit(step, upsert) => SubmitFollows(cfg, t, step, upsert);
    case Refuse(step) =>
      ExistsCounts(Note(t, Received(step)), step);
      QuietFollows(t, Occur(cfg, t, e));
    case LoadDone(found) => LoadFollows(cfg, t, found);
    case StorageDone(i, _) => StorageAnswerFollows(cfg, t, i);
    case CacheDone(i, _) => CacheAnswerFollows(cfg, t, i);
  }

  /** At some moment of the run `next` stood before a gap. */
  predicate EverHalted(cfg: Config, events: seq<Event>)
    requires Run(cfg, INITIAL, events).Some?
    decreases |events|
  {
    Halted(Run(cfg, INITIAL, events).value) || (events != [] && EverHalted(cfg, events[..|events| - 1]))
  }

  lemma {:induction false} CalmRunsAreTracked(cfg: Config, events: seq<Event>)
    requires YieldsNodes(cfg) && CalmRun(cfg, events) && Run(cfg, INITIAL, events).Some?
    ensures var t := Run(cfg, INITIAL, events).value;
      Tracked(t) && (t.crashed || (Smooth(t) <==> !EverHalted(cfg, events)))
    decreases |events|
  {
    if events != [] {
      var before := events[..|events| - 1];
      CalmRunsAreTracked(cfg, before);
      CalmRunsAreTidy(cfg, before);
      RunKeeps(cfg, before, 0);
      EventFollows(cfg, Run(cfg, INITIAL, before).value, events[|events| - 1]);
    }
  }

  /** A calm run with the record loaded, and nothing outstanding. */
  predicate AtRest(t: State) {
    !t.crashed && t.requested && t.load.None? && t.cacheCalls == []
  }

  lemma {:induction false} PrefixOfGapFree(loaded: int, versions: seq<int>, n: nat)
    requires n <= |versions| && GapFree(loaded, versions)
    ensures GapFree(loaded, versions[..n])
    decreases |versions|
  {
    if n == |versions| {
      assert versions[..n] == versions;
    } else {
      PrefixOfGapFree(loaded, versions[..|versions| - 1], n);
      assert versions[..|versions| - 1][..n] == versions[..n];
    }
  }

  /** Explicit versions after the first one are no nearer. */
  lemma {:induction false} GapsGoOn(loaded: int, versions: seq<int>)
    requires EachFollows(versions) && TooFar(loaded, versions) && versions[|versions| - 1] != -1
    requires forall i :: 0 <= i < |versions| - 1 ==> versions[i] != -2
    ensures GapAtEnd(loaded, versions) && VersionAfter(loaded, versions) < LastExplicit(versions).value
    decreases |versions|
  {
    var before := versions[..|versions| - 1];
    TooFarSnoc(loaded, versions);
    GapFreeIff(loaded, before);
    if TooFar(loaded, before) {
      var k :| 0 <= k < |before| && FirstExplicit(before, k) && before[k] > loaded + k + 1;
      ExplicitToTheEnd(before, k);
      GapsGoOn(loaded, before);
    } else {
      OnlyOnes(before);
    }
  }

  /** Nothing but explicit versions follows an explicit one, unless -2 is among them. */
  lemma {:induction false} ExplicitToTheEnd(versions: seq<int>, k: nat)
    requires EachFollows(versions) && k < |versions| && versions[k] != -1 && forall i :: 0 <= i < |versions| ==> versions[i] != -2
    ensures versions[|versions| - 1] != -1
    decreases |versions|
  {
    var before := versions[..|versions| - 1];
    if k < |before| {
      ExplicitToTheEnd(before, k);
    }
  }

  /** `next` gets to the first explicit message, and that is too far ahead. */
  predicate Stops(loaded: int, messages: seq<Message>) {
    exists k :: 0 <= k < |messages| && FirstExplicit(Versions(messages), k) && messages[k].version > loaded + k + 1
                && !NullTaken(loaded, messages[..k])
  }

  lemma StopsIsTooFar(loaded: int, messages: seq<Message>)
    ensures Stops(loaded, messages) ==> TooFar(loaded, Versions(messages))
    ensures TooFar(loaded, Versions(messages)) ==> Stops(loaded, messages) || NullTaken(loaded, messages)
  {
    if TooFar(loaded, Versions(messages)) {
      var k :| 0 <= k < |messages| && FirstExplicit(Versions(messages), k) && Versions(messages)[k] > loaded + k + 1;
      if NullTaken(loaded, messages[..k]) { NullStays(loaded, messages, k); }
    }
  }

  /** What was taken before the last message left data. */
  lemma NotYetNull(loaded: int, taken: seq<Message>, k: nat)
    requires taken != [] && !NullTaken(loaded, taken[..|taken| - 1]) && k < |taken|
    ensures !NullTaken(loaded, taken[..k])
  {
    if NullTaken(loaded, taken[..k]) {
      assert taken[..|taken| - 1][..k] == taken[..k];
      NullStays(loaded, taken[..|taken| - 1], k);
    }
  }

  /** A gap among the messages taken is at the first explicit one. */
  lemma GapTakenStops(t: State, loaded: int, messages: seq<Message>)
    requires Counts(t, loaded, messages) && EachFollows(Versions(messages))
    requires !GapFree(loaded, Versions(Taken(t, messages)))
    ensures Stops(loaded, messages)
  {
    var taken := Taken(t, messages);
    VersionsOf(messages, |taken|);
    EachFollowsPrefix(Versions(messages), |taken|);
    GapFreeIff(loaded, Versions(taken));
    var k :| 0 <= k < |taken| && FirstExplicit(Versions(taken), k) && Versions(taken)[k] > loaded + k + 1;
    NotYetNull(loaded, taken, k);
    assert taken[..k] == messages[..k];
    assert FirstExplicit(Versions(messages), k);
  }

  lemma {:induction false} EachFollowsPrefix(versions: seq<int>, n: nat)
    requires EachFollows(versions) && n <= |versions|
    ensures EachFollows(versions[..n])
    decreases |versions|
  {
    if n == |versions| {
      assert versions[..n] == versions;
    } else {
      EachFollowsPrefix(versions[..|versions| - 1], n);
      assert versions[..|versions| - 1][..n] == versions[..n];
    }
  }

  /** A transition that comes to rest took everything, or stands before a gap or at null data. If the
      first explicit message stops it, it got that far. */
  lemma StopsIsTaken(t: State, loaded: int, messages: seq<Message>)
    requires Counts(t, loaded, messages) && EachFollows(Versions(messages)) && Stops(loaded, messages)
    requires t.steps == [] || Halted(t) || t.data == Null
    ensures !GapFree(loaded, Versions(Taken(t, messages)))
  {
    var taken := Taken(t, messages);
    var k :| 0 <= k < |messages| && FirstExplicit(Versions(messages), k) && messages[k].version > loaded + k + 1
             && !NullTaken(loaded, messages[..k]);
    VersionsOf(messages, |taken|);
    if |taken| <= k {
      if t.data == Null {
        assert messages[..k][..|taken|] == taken;
        NullStays(loaded, messages[..k], |taken|);
      } else {
        OnesHaveNoGap(loaded, Versions(taken));
      }
    } else {
      EachFollowsPrefix(Versions(messages), |taken|);
      GapFreeIff(loaded, Versions(taken));
      assert FirstExplicit(Versions(taken), k) && Versions(taken)[k] > loaded + k + 1;
    }
  }

  lemma OnesHaveNoGap(loaded: int, versions: seq<int>)
    requires forall i :: 0 <= i < |versions| ==> versions[i] == -1
    ensures !GapAtEnd(loaded, versions)
  {
  }

  /** Over calm runs that come to rest: `next` stood before a gap at some moment if and only if the
      first explicit version that was let in exceeds the loaded version plus the number of -1s let in
      before it plus 1, and none of the messages before it put null in the record's place. */
  lemma HaltsIff(cfg: Config, events: seq<Event>)
    requires YieldsNodes(cfg) && CalmRun(cfg, events) && Run(cfg, INITIAL, events).Some? && AtRest(Run(cfg, INITIAL, events).value)
    ensures var h := Run(cfg, INITIAL, events).value.trace;
      Base(h).Some? && (EverHalted(cfg, events) <==> Stops(Base(h).value.version, LetIn(h)))
  {
    var t := Run(cfg, INITIAL, events).value;
    CalmRunsAreTracked(cfg, events);
    CalmRunsAreTidy(cfg, events);
    RunKeeps(cfg, events, 0);
    SummaryAgrees(t.trace);
    var loaded, messages := Base(t.trace).value.version, LetIn(t.trace);
    assert t.steps == [] || Halted(t) || t.data == Null;
    if !GapFree(loaded, Versions(Taken(t, messages))) {
      GapTakenStops(t, loaded, messages);
    } else if Stops(loaded, messages) {
      StopsIsTaken(t, loaded, messages);
    }
  }

  predicate AfterMinusTwo(versions: seq<int>) {
    exists k :: 0 <= k < |versions| - 1 && versions[k] == -2
  }

  lemma LastIsExplicit(versions: seq<int>, k: nat)
    requires EachFollows(versions) && k < |versions| && versions[k] != -1 && !AfterMinusTwo(versions)
    ensures versions[|versions| - 1] != -1
  {
    var before := versions[..|versions| - 1];
    if k < |before| {
      ExplicitToTheEnd(before, k);
    }
  }

  /** A transition that took all its versions, the first explicit one too far ahead, stands before a gap. */
  lemma TooFarStands(loaded: int, versions: seq<int>)
    requires EachFollows(versions) && TooFar(loaded, versions) && !AfterMinusTwo(versions)
    ensures GapAtEnd(loaded, versions)
  {
    var k :| 0 <= k < |versions| && FirstExplicit(versions, k) && versions[k] > loaded + k + 1;
    LastIsExplicit(versions, k);
    GapsGoOn(loaded, versions);
  }

  /** Versions before -2 are too far ahead of no record whose version is -3 or more. */
  lemma NotSoFarBack(loaded: int, versions: seq<int>)
    requires EachFollows(versions) && TooFar(loaded, versions) && AfterMinusTwo(versions)
    ensures loaded < -3
  {
    var a, b := ShapeOfAccepted(versions);
    var k :| 0 <= k < |versions| && FirstExplicit(versions, k) && versions[k] > loaded + k + 1;
    var j :| 0 <= j < |versions| - 1 && versions[j] == -2;
    assert a <= k < b && a <= j < b;
    assert k == a;
  }

  /** A destroyed transition took all its messages, none of which stopped it. */
  lemma DestroyedTookAll(t: State, loaded: int, messages: seq<Message>)
    requires Counts(t, loaded, messages) && EachFollows(Versions(messages)) && t.destroyed && t.steps == []
    ensures !NullTaken(loaded, messages) && (!TooFar(loaded, Versions(messages)) || AfterMinusTwo(Versions(messages)))
  {
    assert Taken(t, messages) == messages;
    if TooFar(loaded, Versions(messages)) && !AfterMinusTwo(Versions(messages)) {
      TooFarStands(loaded, Versions(messages));
    }
  }

  /** A transition at rest that is not destroyed stands before a gap, or at null data. */
  lemma StandsStill(t: State, loaded: int, messages: seq<Message>)
    requires Counts(t, loaded, messages) && EachFollows(Versions(messages)) && (Halted(t) || t.data == Null)
    ensures NullTaken(loaded, messages) || TooFar(loaded, Versions(messages))
  {
    if t.data == Null {
      NullStays(loaded, messages, |Taken(t, messages)|);
    } else {
      GapTakenStops(t, loaded, messages);
      StopsIsTooFar(loaded, messages);
    }
  }

  /** At the end of a calm run with nothing outstanding, each written step had its stores called and
      answered, then its acknowledgement if it asked for one, then its broadcast, once and in version
      order. The transition is destroyed with an empty queue if the first explicit version let in was not
      too far ahead and no message that is taken puts null in the record's place. Only then, unless -1
      was let in after an explicit -2, which takes a record with a version below -3: for all others the
      two are equivalent. */
  lemma CalmRunsFinishIff(cfg: Config, events: seq<Event>)
    requires YieldsNodes(cfg) && CalmRun(cfg, events) && Run(cfg, INITIAL, events).Some? && AtRest(Run(cfg, INITIAL, events).value)
    ensures var t := Run(cfg, INITIAL, events).value; var s := Summarize(t.trace, 0);
      Stores(t.trace) == Blocks(cfg, s.cache) && t.acks == map[]
    ensures Base(Run(cfg, INITIAL, events).value.trace).Some?
    ensures var t := Run(cfg, INITIAL, events).value; var messages := LetIn(t.trace); var loaded := Base(t.trace).value.version;
      var ends := !TooFar(loaded, Versions(messages)) && !NullTaken(loaded, messages);
      && (ends ==> t.destroyed && t.steps == [])
      && (t.destroyed ==> ends || AfterMinusTwo(Versions(messages)))
      && (loaded >= -3 ==> (t.destroyed <==> ends))
  {
    var t := Run(cfg, INITIAL, events).value;
    CalmRunsFinish(cfg, events);
    CalmRunsAreTidy(cfg, events);
    CalmRunsAreTracked(cfg, events);
    RunKeeps(cfg, events, 0);
    SummaryAgrees(t.trace);
    var loaded, messages := Base(t.trace).value.version, LetIn(t.trace);
    if t.destroyed {
      DestroyedTookAll(t, loaded, messages);
      if TooFar(loaded, Versions(messages)) && AfterMinusTwo(Versions(messages)) { NotSoFarBack(loaded, Versions(messages)); }
    } else {
      StandsStill(t, loaded, messages);
    }
  }
}
