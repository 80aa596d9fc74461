/** The record handler's map of transitions and the transition object, field by field and call by
    call. Each method is proved to do what the function of the same name in `Transition` says. */
module RecordHandling {
  import opened Common
  import T = Transition

  class RecordTransition {
    const name: string
    const cfg: T.Config
    const recordHandler: RecordHandler

    var isDestroyed: bool
    var steps: seq<T.Step>
    var version: int
    var data: Json
    var currentStep: Option<T.Step>
    var recordRequestMade: bool
    var existingVersions: seq<T.Step>
    var lastVersion: Option<int>
    var writeAckSockets: map<T.Socket, map<string, T.Count>>

    // The world around the object: whether the process is down, callbacks that were handed out and
    // not called yet, and everything observed so far.
    var crashed: bool
    var load: Option<bool>
    var storageCalls: seq<T.Callback>
    var cacheCalls: seq<T.Callback>
    var trace: T.History

    constructor (name: string, cfg: T.Config, recordHandler: RecordHandler)
      ensures this.name == name && this.cfg == cfg && this.recordHandler == recordHandler
      ensures Model() == T.INITIAL
    {
      this.name, this.cfg, this.recordHandler := name, cfg, recordHandler;
      isDestroyed, steps, version, data, currentStep := false, [], -1, Null, None;
      recordRequestMade, existingVersions, lastVersion, writeAckSockets := false, [], None, map[];
      crashed, load, storageCalls, cacheCalls, trace := false, None, [], [], T.Start;
    }

    function Model(): T.State
      reads this
    {
      T.State(isDestroyed, steps, version, data, currentStep, recordRequestMade, existingVersions,
              lastVersion, writeAckSockets, crashed, load, storageCalls, cacheCalls, trace)
    }

    /** The handler's map after a call that took this transition from `before` to its present state:
        a transition takes itself off the map in the moment it is destroyed. */
    twostate predicate Unmapped()
      reads this, recordHandler
    {
      recordHandler.transitions ==
        if isDestroyed && !old(isDestroyed) then old(recordHandler.transitions) - {name} else old(recordHandler.transitions)
    }

    method Note(e: T.Trace)
      modifies this`trace
      ensures trace == T.After(old(trace), e)
    {
      trace := T.After(trace, e);
    }

    method HasVersion(version: int) returns (r: bool)
      ensures r == T.HasVersion(Model(), version)
    {
      if lastVersion == None {
        return false;
      }
      return version != -1 && version <= lastVersion.value;
    }

    method SendVersionExists(step: T.Step)
      modifies this`trace, this`existingVersions
      ensures Model() == T.SendVersionExists(old(Model()), step)
    {
      if Truthy(data) {
        Note(T.VersionExists(step.sender, step.id, version, data, step.message.isWriteAck, step.message.correlationId));
      } else {
        existingVersions := existingVersions + [step];
      }
    }

    method Add(step: T.Step, upsert: bool)
      modifies this, recordHandler
      ensures Model() == T.Add(cfg, old(Model()), step, upsert)
      ensures Unmapped()
    {
      Note(T.Received(step));
      ghost var noted := Model();
      assert noted == T.Note(old(Model()), T.Received(step));
      var version := step.message.version;
      if step.message.payload.Malformed? {
        Note(T.InvalidData(step.sender, step.id));
        return;
      }
      if step.message.action == T.Update && !step.message.payload.value.Node? {
        Note(T.InvalidData(step.sender, step.id));
        return;
      }
      if lastVersion.Some? && version > lastVersion.value + 1 {
        Note(T.InvalidVersion(step.sender, step.id, version));
        return;
      }
      if lastVersion.Some? && lastVersion.value != version - 1 {
        SendVersionExists(step);
        assert Model() == T.SendVersionExists(noted, step);
        return;
      }
      assert T.Acceptable(noted, step.message);
      Enqueue(step);
      assert Model() == T.Enqueue(noted, step);
      if !recordRequestMade {
        recordRequestMade := true;
        load := Some(upsert);
        Note(T.LoadCalled);
      } else if |steps| == 1 {
        Next();
      }
    }

    /** The part of `add` that lets the step into the queue. */
    method Enqueue(step: T.Step)
      modifies this`lastVersion, this`steps, this`trace
      ensures Model() == T.Enqueue(old(Model()), step)
    {
      if step.message.version != -1 {
        lastVersion := Some(step.message.version);
      }
      steps := steps + [step];
      Note(T.Accepted(step.id, step.message));
    }

    method Destroy(failed: bool)
      modifies this, recordHandler
      ensures Model() == T.Destroy(old(Model()), failed)
      ensures Unmapped()
    {
      if isDestroyed {
        return;
      }
      if failed {
        SendWriteAcknowledgementErrors();
        if currentStep.Some? && !currentStep.value.sender.isRemote {
          Note(T.CurrentError(currentStep.value.sender, currentStep.value.message.name));
        }
      }
      recordHandler.TransitionComplete(name);
      Note(T.Completed);
      isDestroyed := true;
    }

    method SendWriteAcknowledgementErrors()
      modifies this`trace, this`writeAckSockets
      ensures trace == T.After(old(trace), T.AckErrors(old(writeAckSockets))) && writeAckSockets == map[]
    {
      Note(T.AckErrors(writeAckSockets));
      writeAckSockets := map[];
    }

    method OnRecord(found: Option<T.Snapshot>, upsert: bool)
      modifies this, recordHandler
      ensures Model() == T.OnRecord(cfg, old(Model()), found, upsert)
      ensures Unmapped()
    {
      if found == None || found.value.data == Null {
        if !upsert {
          OnFatalError();
          return;
        }
        data := EMPTY_OBJECT;
        version := 0;
      } else {
        version := found.value.version;
        data := found.value.data;
      }
      Note(T.Loaded(T.Snapshot(version, data)));
      Proceed();
    }

    /** With falsy data the loop over the waiting answers never ends. */
    method Proceed()
      modifies this, recordHandler
      ensures Model() == T.Proceed(cfg, old(Model()))
      ensures Unmapped()
    {
      if !Truthy(data) && existingVersions != [] {
        crashed := true;
        return;
      }
      FlushVersionExists();
      Next();
    }

    method Next()
      modifies this, recordHandler
      ensures Model() == T.Next(cfg, old(Model()))
      ensures Unmapped()
      decreases |steps|
    {
      if isDestroyed {
        return;
      }
      if data == Null {
        return;
      }
      if steps == [] {
        Destroy(false);
        return;
      }
      var step := steps[0];
      steps := steps[1..];
      if step.message.version == -1 {
        step := step.(message := step.message.(version := version + 1));
      }
      currentStep := Some(step);
      var message := step.message;
      if message.version > version + 1 {
        Note(T.InvalidVersion(step.sender, step.id, version));
        return;
      }
      if version != message.version - 1 {
        SendVersionExists(step);
        Next();
        return;
      }
      Write(step);
    }

    /** The rest of `next`: the step is due, so apply it and call the stores. */
    method Write(step: T.Step)
      modifies this
      ensures Model() == T.Write(cfg, old(Model()), step)
      ensures isDestroyed == old(isDestroyed)
    {
      var message := step.message;
      version := message.version;
      if message.payload.Malformed? {
        crashed := true;
        return;
      }
      if message.path.Some? && message.path.value != "" {
        var patched := cfg.patch(data, message.path.value, message.payload.value);
        if patched == None {
          crashed := true;
          return;
        }
        data := patched.value;
      } else {
        data := message.payload.value;
      }
      if !cfg.excluded {
        CallStorage(step);
      }
      CallCache(step);
    }

    method CallStorage(step: T.Step)
      modifies this`writeAckSockets, this`storageCalls, this`trace
      ensures Model() == T.CallStorage(old(Model()), step, T.Snapshot(version, data))
    {
      if step.message.isWriteAck {
        SetUpWriteAcknowledgement(step);
      }
      storageCalls := storageCalls + [T.Callback(step.id, T.AckOf(step.message))];
      Note(T.StorageSet(step, T.Snapshot(version, data)));
    }

    method CallCache(step: T.Step)
      modifies this`writeAckSockets, this`cacheCalls, this`trace
      ensures Model() == T.CallCache(old(Model()), step, T.Snapshot(version, data))
    {
      if step.message.isWriteAck {
        SetUpWriteAcknowledgement(step);
      }
      cacheCalls := cacheCalls + [T.Callback(step.id, T.AckOf(step.message))];
      Note(T.CacheSet(step, T.Snapshot(version, data)));
    }

    method SetUpWriteAcknowledgement(step: T.Step)
      requires step.message.isWriteAck
      modifies this`writeAckSockets
      ensures Model() == T.SetUpAck(old(Model()), step)
    {
      var correlationId := step.message.correlationId;
      if step.sender !in writeAckSockets {
        writeAckSockets := writeAckSockets[step.sender := map[correlationId := T.Num(1)]];
        return;
      }
      var response := writeAckSockets[step.sender];
      if correlationId in response && response[correlationId].Num? && response[correlationId].n != 0 {
        response := response[correlationId := T.Num(response[correlationId].n + 1)];
      } else {
        response := response[correlationId := T.Num(1)];
      }
      writeAckSockets := writeAckSockets[step.sender := response];
    }

    method FlushVersionExists()
      modifies this`trace, this`existingVersions
      requires Truthy(data) || existingVersions == []
      ensures Model() == T.FlushExisting(old(Model()))
    {
      var waiting := existingVersions;
      ghost var before := Model();
      for i := 0 to |waiting|
        invariant existingVersions == waiting
        invariant Model() == before.(trace := trace)
        invariant T.Resend(Model(), waiting[i..]) == T.Resend(before, waiting)
      {
        assert waiting[i..][1..] == waiting[i + 1..];
        SendVersionExists(waiting[i]);
      }
      existingVersions := [];
    }

    method HandleWriteAcknowledgement(socket: T.Socket, message: T.Message)
      modifies this`trace, this`writeAckSockets
      ensures Model() == T.HandleAck(old(Model()), socket, message)
    {
      var correlationId := message.correlationId;
      if socket !in writeAckSockets {
        return;
      }
      var response := writeAckSockets[socket];
      if correlationId in response && response[correlationId].Num? {
        response := response[correlationId := T.Num(response[correlationId].n - 1)];
      } else {
        response := response[correlationId := T.NaN];
      }
      ghost var counted := response;
      if response[correlationId] == T.Num(0) {
        Note(T.WriteAck(socket, message.name, correlationId));
        response := response - {correlationId};
        assert response == old(writeAckSockets)[socket] - {correlationId};
      }
      if response == map[] {
        writeAckSockets := writeAckSockets - {socket};
      } else {
        writeAckSockets := writeAckSockets[socket := response];
      }
    }

    method OnCacheSetResponse(error: bool, ack: Option<T.Message>)
      modifies this, recordHandler
      ensures Model() == T.OnCacheSet(cfg, old(Model()), error, ack)
      ensures Unmapped()
    {
      if currentStep == None {
        Destroy(true);
        return;
      }
      if ack.Some? {
        HandleWriteAcknowledgement(currentStep.value.sender, ack.value);
      }
      if error {
        OnFatalError();
      } else if !isDestroyed {
        Note(T.Broadcast(currentStep.value));
        Next();
      }
    }

    method OnStorageSetResponse(error: bool, ack: Option<T.Message>)
      modifies this, recordHandler
      ensures Model() == T.OnStorageSet(old(Model()), error, ack)
      ensures Unmapped()
    {
      if ack.Some? && currentStep.Some? {
        HandleWriteAcknowledgement(currentStep.value.sender, ack.value);
      }
      if error {
        OnFatalError();
      }
    }

    method OnFatalError()
      modifies this, recordHandler
      ensures Model() == T.Fatal(old(Model()))
      ensures Unmapped()
    {
      if isDestroyed {
        return;
      }
      ghost var before := Model();
      for i := 0 to |steps|
        invariant Model() == before.(trace := trace)
        invariant T.StepErrors(trace, steps[i..]) == T.StepErrors(before.trace, before.steps)
        invariant recordHandler.transitions == old(recordHandler.transitions)
      {
        assert steps[i..][1..] == steps[i + 1..];
        if !steps[i].sender.isRemote {
          Note(T.StepError(steps[i].sender, steps[i].id));
        }
      }
      Destroy(true);
    }
  }

  class RecordHandler {
    const cfg: T.Config
    var transitions: map<string, RecordTransition>

    constructor (cfg: T.Config)
      ensures this.cfg == cfg && transitions == map[] && Valid()
    {
      this.cfg, transitions := cfg, map[];
    }

    /** Each mapped transition is this record's, and is live. */
    ghost predicate Valid()
      reads this, transitions.Values
    {
      forall n :: n in transitions ==>
        && transitions[n].recordHandler == this && transitions[n].cfg == cfg
        && transitions[n].name == n && !transitions[n].isDestroyed
    }

    method TransitionComplete(recordName: string)
      modifies this`transitions
      ensures transitions == old(transitions) - {recordName}
    {
      transitions := transitions - {recordName};
    }

    /** What `update` makes of the record's transition, a new one when there is none. */
    function Updated(t: T.State, step: T.Step, upsert: bool): T.State {
      if T.HasVersion(t, step.message.version) then T.SendVersionExists(T.Note(t, T.Received(step)), step)
      else T.Add(cfg, t, step, upsert)
    }

    /** `update` for a client's message. The record keeps its entry in the map exactly while its
        transition lives; no other record is touched. */
    method Update(recordName: string, step: T.Step, upsert: bool)
      requires Valid()
      modifies this, transitions.Values
      ensures Valid()
      ensures recordName in old(transitions) ==>
        var t := old(transitions[recordName]);
        && t.Model() == Updated(old(transitions[recordName].Model()), step, upsert)
        && transitions == if t.isDestroyed then old(transitions) - {recordName} else old(transitions)
      ensures recordName !in old(transitions) && recordName in transitions ==>
        && fresh(transitions[recordName])
        && transitions[recordName].Model() == T.Add(cfg, T.INITIAL, step, upsert)
      ensures recordName in transitions <==>
        !Updated(if recordName in old(transitions) then old(transitions[recordName].Model()) else T.INITIAL, step, upsert).destroyed
      ensures forall n :: n in old(transitions) && n != recordName ==>
        n in transitions && transitions[n] == old(transitions[n]) && transitions[n].Model() == old(transitions[n].Model())
    {
      if recordName in transitions {
        var transition := transitions[recordName];
        var known := transition.HasVersion(step.message.version);
        if known {
          transition.Note(T.Received(step));
          transition.SendVersionExists(step);
          return;
        }
        transition.Add(step, upsert);
      } else {
        var transition := new RecordTransition(recordName, cfg, this);
        transitions := transitions[recordName := transition];
        transition.Add(step, upsert);
      }
    }

    /** The part of `delete` and of `remoteDelete` that stops a transition in progress. */
    method StopTransition(recordName: string)
      requires Valid()
      modifies this, transitions.Values
      ensures Valid() && transitions == old(transitions) - {recordName}
      ensures recordName in old(transitions) ==>
        old(transitions[recordName]).Model() == T.Destroy(old(transitions[recordName].Model()), false)
      ensures forall n :: n in transitions ==> transitions[n].Model() == old(transitions[n].Model())
    {
      if recordName in transitions {
        var transition := transitions[recordName];
        transition.Destroy(false);
        transitions := transitions - {recordName};
      }
    }
  }
}
