/** The write path of one record: what `RecordTransition` does on each call, written as a function
    from its state to its next state. `RecordHandler.dfy` holds the class that does the same with
    fields; `TransitionLaws.dfy` and the files beside it prove what every run keeps. */
module Transition {
  import opened Common

  /** A connection. Identity is what matters; `isRemote` is false for a client of this server. */
  datatype Socket = Socket(id: nat, isRemote: bool)

  datatype Action = Update | Patch

  /** What `socketWrapper.parseData` makes of the payload. */
  datatype Payload = Malformed | Parsed(value: Json)

  datatype Message = Message(
    action: Action, name: string, version: int, path: Option<string>, payload: Payload,
    isWriteAck: bool, correlationId: string)

  /** One queued write. `id` stands for the identity of the step object. */
  datatype Step = Step(id: nat, message: Message, sender: Socket)

  datatype Snapshot = Snapshot(version: int, data: Json)

  /** JavaScript's answer to `--` on a missing entry is NaN, and it stays NaN. */
  datatype Count = Num(n: int) | NaN

  /** A callback handed to a store and not yet called. `ack` is the message that its closure keeps
      when a write acknowledgement was asked for; otherwise the plain method was passed. */
  datatype Callback = Callback(id: nat, ack: Option<Message>)

  /** Everything observable that happens, in order: calls that come in, answers that arrive, and
      calls that go out to sockets, stores, the subscribers and the record handler. */
  datatype Trace =
    | Received(step: Step)
    | Accepted(id: nat, message: Message)
    | InvalidData(to: Socket, id: nat)
    | InvalidVersion(to: Socket, id: nat, version: int)
    | VersionExists(to: Socket, id: nat, version: int, data: Json, isWriteAck: bool, correlationId: string)
    | LoadCalled
    | Loaded(snapshot: Snapshot)
    | StorageSet(step: Step, snapshot: Snapshot)
    | CacheSet(step: Step, snapshot: Snapshot)
    | StorageAnswered(id: nat)
    | CacheAnswered(id: nat)
    | WriteAck(to: Socket, name: string, correlationId: string)
    | Broadcast(step: Step)
    | AckErrors(pending: map<Socket, map<string, Count>>)
    | StepError(to: Socket, id: nat)
    | CurrentError(to: Socket, name: string)
    | Completed

  /** The trace, newest entry outermost. */
  datatype History = Start | After(past: History, last: Trace)

  /** `excluded`: the record's name starts with a storage exclusion prefix. `patch`: the effect of
      `setValue` on the record's data, `None` when it throws. */
  datatype Config = Config(excluded: bool, patch: (Json, string, Json) -> Option<Json>)

  /** The fields of the class, the callbacks that are outstanding, and the trace. `load` holds the
      `upsert` flag that the outstanding load's closure captured. */
  datatype State = State(
    destroyed: bool,
    steps: seq<Step>,
    version: int,
    data: Json,
    current: Option<Step>,
    requested: bool,
    existing: seq<Step>,
    last: Option<int>,
    acks: map<Socket, map<string, Count>>,
    crashed: bool,
    load: Option<bool>,
    storageCalls: seq<Callback>,
    cacheCalls: seq<Callback>,
    trace: History)

  const INITIAL := State(false, [], -1, Null, None, false, [], None, map[], false, None, [], [], Start)

  function Note(t: State, e: Trace): State {
    t.(trace := After(t.trace, e))
  }

  predicate HasVersion(t: State, version: int) {
    t.last.Some? && version != -1 && version <= t.last.value
  }

  function SendVersionExists(t: State, step: Step): State {
    if Truthy(t.data) then
      Note(t, VersionExists(step.sender, step.id, t.version, t.data, step.message.isWriteAck, step.message.correlationId))
    else
      t.(existing := t.existing + [step])
  }

  /** The two rejections that depend on the payload only. */
  predicate BadData(message: Message) {
    || message.payload.Malformed?
    || (message.action == Update && !message.payload.value.Node?)
  }

  /** `add` puts the step in the queue exactly in this case. */
  predicate Acceptable(t: State, message: Message) {
    !BadData(message) && (t.last.Some? ==> message.version == t.last.value + 1)
  }

  function Add(cfg: Config, t0: State, step: Step, upsert: bool): State {
    var t := Note(t0, Received(step));
    var version := step.message.version;
    if BadData(step.message) then
      Note(t, InvalidData(step.sender, step.id))
    else if t.last.Some? && version > t.last.value + 1 then
      Note(t, InvalidVersion(step.sender, step.id, version))
    else if t.last.Some? && t.last.value != version - 1 then
      SendVersionExists(t, step)
    else
      var queued := Enqueue(t, step);
      if !t.requested then
        Note(queued.(requested := true, load := Some(upsert)), LoadCalled)
      else if |queued.steps| == 1 then
        Next(cfg, queued)
      else
        queued
  }

  function Enqueue(t: State, step: Step): State {
    Note(t.(last := if step.message.version != -1 then Some(step.message.version) else t.last,
            steps := t.steps + [step]), Accepted(step.id, step.message))
  }

  /** The message with the version it will be written as: -1 asks for the next one. */
  function Resolve(step: Step, version: int): Step {
    if step.message.version == -1 then step.(message := step.message.(version := version + 1)) else step
  }

  /** What `setValue` leaves is a container. */
  ghost predicate YieldsNodes(cfg: Config) {
    forall data, path, value :: cfg.patch(data, path, value).Some? ==> cfg.patch(data, path, value).value.Node?
  }

  /** The record's data after one write; `None` when setting the path throws. */
  function Apply(cfg: Config, data: Json, message: Message): Option<Json>
    requires message.payload.Parsed?
  {
    if message.path.Some? && message.path.value != "" then
      cfg.patch(data, message.path.value, message.payload.value)
    else
      Some(message.payload.value)
  }

  function Next(cfg: Config, t: State): State
    decreases |t.steps|
  {
    if t.destroyed || t.data == Null then t
    else if t.steps == [] then Destroy(t, false)
    else
      var step := Resolve(t.steps[0], t.version);
      var taken := t.(steps := t.steps[1..], current := Some(step));
      if step.message.version > t.version + 1 then
        Note(taken, InvalidVersion(step.sender, step.id, t.version))
      else if t.version != step.message.version - 1 then
        Next(cfg, SendVersionExists(taken, step))
      else
        Write(cfg, taken, step)
  }

  function AckOf(message: Message): Option<Message> {
    if message.isWriteAck then Some(message) else None
  }

  /** Applies the step and calls the stores. A throw out of `setValue` is uncaught and ends the
      process, with the version already raised. */
  function Write(cfg: Config, t: State, step: Step): State {
    var raised := t.(version := step.message.version);
    var data := if step.message.payload.Parsed? then Apply(cfg, t.data, step.message) else None;
    if data.None? then raised.(crashed := true)
    else
      var snapshot := Snapshot(step.message.version, data.value);
      var applied := raised.(data := data.value);
      CallCache(if cfg.excluded then applied else CallStorage(applied, step, snapshot), step, snapshot)
  }

  function CallStorage(t: State, step: Step, snapshot: Snapshot): State {
    Note(SetUpAck(t, step).(storageCalls := t.storageCalls + [Callback(step.id, AckOf(step.message))]),
         StorageSet(step, snapshot))
  }

  function CallCache(t: State, step: Step, snapshot: Snapshot): State {
    Note(SetUpAck(t, step).(cacheCalls := t.cacheCalls + [Callback(step.id, AckOf(step.message))]),
         CacheSet(step, snapshot))
  }

  /** The pending counts of one socket, empty when it has none. */
  function Pending(acks: map<Socket, map<string, Count>>, socket: Socket): map<string, Count> {
    if socket in acks then acks[socket] else map[]
  }

  function SetUpAck(t: State, step: Step): State {
    if !step.message.isWriteAck then t
    else
      var id := step.message.correlationId;
      var response := Pending(t.acks, step.sender);
      var count := if id in response && response[id].Num? && response[id].n != 0 then Num(response[id].n + 1) else Num(1);
      t.(acks := t.acks[step.sender := response[id := count]])
  }

  function HandleAck(t: State, socket: Socket, message: Message): State {
    if socket !in t.acks then t
    else
      var id := message.correlationId;
      var response := t.acks[socket];
      var count := if id in response && response[id].Num? then Num(response[id].n - 1) else NaN;
      var rest := if count == Num(0) then response - {id} else response[id := count];
      var acks := if rest == map[] then t.acks - {socket} else t.acks[socket := rest];
      var counted := t.(acks := acks);
      if count == Num(0) then Note(counted, WriteAck(socket, message.name, id)) else counted
  }

  /** `destroy(error)`. `failed` says whether an error was given. */
  function Destroy(t: State, failed: bool): State {
    if t.destroyed then t
    else Note((if failed then ReportErrors(t) else t).(destroyed := true), Completed)
  }

  function ReportErrors(t: State): State {
    var told := Note(t.(acks := map[]), AckErrors(t.acks));
    if t.current.Some? && !t.current.value.sender.isRemote then
      Note(told, CurrentError(t.current.value.sender, t.current.value.message.name))
    else told
  }

  /** One RECORD_UPDATE_ERROR to the local sender of each queued step. */
  function StepErrors(past: History, steps: seq<Step>): History
    decreases |steps|
  {
    if steps == [] then past
    else
      StepErrors(if steps[0].sender.isRemote then past else After(past, StepError(steps[0].sender, steps[0].id)), steps[1..])
  }

  function Fatal(t: State): State {
    if t.destroyed then t
    else Destroy(t.(trace := StepErrors(t.trace, t.steps)), true)
  }

  /** A record that does not exist, or whose data is null. */
  predicate Missing(found: Option<Snapshot>) {
    found.None? || found.value.data == Null
  }

  /** `onRecord`. The loop that sends the waiting VERSION_EXISTS answers puts each of them back while the
      data is falsy, and then never ends: the process hangs, which counts as `crashed`. */
  function OnRecord(cfg: Config, t: State, found: Option<Snapshot>, upsert: bool): State {
    if Missing(found) && !upsert then Fatal(t)
    else
      var start := if Missing(found) then Snapshot(0, EMPTY_OBJECT) else found.value;
      var loaded := Note(t.(data := start.data, version := start.version), Loaded(start));
      Proceed(cfg, loaded)
  }

  function Proceed(cfg: Config, t: State): State {
    if Hangs(t) then t.(crashed := true) else Next(cfg, FlushExisting(t))
  }

  predicate Hangs(t: State) {
    !Truthy(t.data) && t.existing != []
  }

  function FlushExisting(t: State): State {
    Resend(t, t.existing).(existing := [])
  }

  function Resend(t: State, steps: seq<Step>): State
    decreases |steps|
  {
    if steps == [] then t else Resend(SendVersionExists(t, steps[0]), steps[1..])
  }

  /** `onCacheSetResponse`. The closure reads the sender of whatever step is current by then. */
  function OnCacheSet(cfg: Config, t: State, error: bool, ack: Option<Message>): State {
    if t.current.None? then Destroy(t, true)
    else
      var sender := t.current.value.sender;
      var acked := if ack.Some? then HandleAck(t, sender, ack.value) else t;
      if error then Fatal(acked)
      else if !acked.destroyed then Next(cfg, Note(acked, Broadcast(t.current.value)))
      else acked
  }

  /** `onStorageSetResponse`. The write counters that its last branch tests are never lowered, so
      after a write that branch is dead. */
  function OnStorageSet(t: State, error: bool, ack: Option<Message>): State {
    var acked := if ack.Some? && t.current.Some? then HandleAck(t, t.current.value.sender, ack.value) else t;
    if error then Fatal(acked) else acked
  }

  /** What can happen to a transition. Callbacks are chosen among the outstanding ones, in any order. */
  datatype Event =
    | Submit(step: Step, upsert: bool)
    | Refuse(step: Step)
    | LoadDone(found: Option<Snapshot>)
    | LoadFailed
    | StorageDone(i: nat, error: bool)
    | CacheDone(i: nat, error: bool)
    | Stop

  predicate Enabled(t: State, e: Event) {
    && !t.crashed
    && match e
       case Submit(_, _) => true
       case Refuse(step) => HasVersion(t, step.message.version)
       case LoadDone(_) => t.load.Some?
       case LoadFailed => t.load.Some?
       case StorageDone(i, _) => i < |t.storageCalls|
       case CacheDone(i, _) => i < |t.cacheCalls|
       case Stop => true
  }

  function Without<T>(s: seq<T>, i: nat): seq<T>
    requires i < |s|
  {
    s[..i] + s[i + 1..]
  }

  function Occur(cfg: Config, t: State, e: Event): State
    requires Enabled(t, e)
  {
    match e
    case Submit(step, upsert) => Add(cfg, t, step, upsert)
    case Refuse(step) => SendVersionExists(Note(t, Received(step)), step)
    case LoadDone(found) => OnRecord(cfg, t.(load := None), found, t.load.value)
    case LoadFailed => Destroy(t.(load := None), true)
    case StorageDone(i, error) =>
      var call := t.storageCalls[i];
      OnStorageSet(Note(t.(storageCalls := Without(t.storageCalls, i)), StorageAnswered(call.id)), error, call.ack)
    case CacheDone(i, error) =>
      var call := t.cacheCalls[i];
      OnCacheSet(cfg, Note(t.(cacheCalls := Without(t.cacheCalls, i)), CacheAnswered(call.id)), error, call.ack)
    case Stop => Destroy(t, false)
  }

  /** A finite run: `Some(final state)`, or `None` when some event of it cannot happen. */
  function Run(cfg: Config, t: State, events: seq<Event>): Option<State>
    decreases |events|
  {
    if events == [] then Some(t)
    else
      var before := Run(cfg, t, events[..|events| - 1]);
      var e := events[|events| - 1];
      if before.Some? && Enabled(before.value, e) then Some(Occur(cfg, before.value, e)) else None
  }
}
