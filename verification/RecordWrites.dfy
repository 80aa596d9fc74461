/** All the transitions of one record, the handler's `transitions` entry and the cache entry: what
    holds over whole runs of updates through one transition after another. */
module RecordWrites {
  import opened Common
  import opened Transition
  import opened TransitionLaws

  /** `pool`: every transition created for the record so far. `mapped`: the one that the handler's
      map holds. `cache`, `storage`: what the stores hold, each set taking effect when it is called.
      `asked`: what the cache held when each transition sent its load request. `writes`: every cache
      write so far, with its winner. `restarts`: the numbers of writes after which a transition was told
      that the record is missing, and began anew. */
  datatype System = System(
    pool: seq<State>, mapped: Option<nat>, cache: Option<Snapshot>, storage: Option<Snapshot>, asked: seq<Option<Snapshot>>,
    writes: seq<Written>, restarts: set<nat>)

  /** What the stores hold at the start. */
  datatype Stored = Stored(cache: Option<Snapshot>, storage: Option<Snapshot>)

  /** `Update`: a client's update reaches the handler. `LateAdd`: `createAndUpdate` looked a transition
      up, waited for the permission, and adds to it now, mapped or not. `At`: a store answers. */
  datatype Happening =
    | Update(step: Step, upsert: bool)
    | LateAdd(i: nat, step: Step)
    | At(i: nat, e: Event)

  function Begin(stored: Stored): System {
    System([], None, stored.cache, stored.storage, [], [], {})
  }

  /** `recordRequest`: the cache's data if it is truthy; else, unless the name is excluded from storage,
      storage's if that is. The cache's answer for an excluded name is handed on as it is. */
  function Answer(cfg: Config, cached: Option<Snapshot>, storage: Option<Snapshot>): Option<Snapshot> {
    if (cached.Some? && Truthy(cached.value.data)) || cfg.excluded then cached
    else if storage.Some? && Truthy(storage.value.data) then storage
    else None
  }

  /** What the load request of transition `i` is answered, unless it fails. */
  function LoadAnswer(cfg: Config, sys: System, i: nat): Option<Snapshot>
    requires i < |sys.asked|
  {
    Answer(cfg, sys.asked[i], sys.storage)
  }

  predicate CanHappen(cfg: Config, sys: System, h: Happening) {
    && |sys.asked| == |sys.pool|
    && (forall t :: t in sys.pool ==> !t.crashed)
    && match h
       case Update(_, _) => sys.mapped.Some? ==> sys.mapped.value < |sys.pool|
       case LateAdd(i, _) => i < |sys.pool|
       case At(i, e) =>
         && i < |sys.pool|
         && Enabled(sys.pool[i], e)
         && (e.LoadDone? || e.LoadFailed? || e.StorageDone? || e.CacheDone?)
         && (e.LoadDone? ==> e.found == LoadAnswer(cfg, sys, i))
  }

  /** An event of one transition, with its effect on the cache entry and on the map. */
  function Touch(cfg: Config, sys: System, i: nat, e: Event): System
    requires i < |sys.pool| == |sys.asked| && Enabled(sys.pool[i], e)
  {
    var t := sys.pool[i];
    var u := Occur(cfg, t, e);
    var before, after := Summarize(t.trace, 0).cache, Summarize(u.trace, 0).cache;
    var wrote := |after| > |before|;
    System(
      sys.pool[i := u],
      if u.destroyed && !t.destroyed then None else sys.mapped,
      if wrote then Some(after[|after| - 1].snapshot) else sys.cache,
      if wrote && !cfg.excluded then Some(after[|after| - 1].snapshot) else sys.storage,
      if u.load.Some? && t.load.None? then sys.asked[i := sys.cache] else sys.asked,
      if wrote then sys.writes + [after[|after| - 1]] else sys.writes,
      if BeginsAnew(sys, i, e) then sys.restarts + {|sys.writes|} else sys.restarts)
  }

  /** The record was written before, and the transition is told that it is missing, and may create it. */
  predicate BeginsAnew(sys: System, i: nat, e: Event)
    requires i < |sys.pool|
  {
    e.LoadDone? && Missing(e.found) && !sys.pool[i].destroyed && sys.pool[i].load == Some(true) && sys.writes != []
  }

  function Happen(cfg: Config, stored: Stored, sys: System, h: Happening): System
    requires CanHappen(cfg, sys, h)
  {
    match h
    case Update(step, upsert) =>
      if sys.mapped.Some? then
        var i := sys.mapped.value;
        if HasVersion(sys.pool[i], step.message.version) then Touch(cfg, sys, i, Refuse(step))
        else Touch(cfg, sys, i, Submit(step, upsert))
      else
        var added := sys.(pool := sys.pool + [INITIAL], asked := sys.asked + [None], mapped := Some(|sys.pool|));
        Touch(cfg, added, |sys.pool|, Submit(step, upsert))
    case LateAdd(i, step) => Touch(cfg, sys, i, Submit(step, false))
    case At(i, e) => Touch(cfg, sys, i, e)
  }

  function RunAll(cfg: Config, stored: Stored, hs: seq<Happening>): Option<System>
    decreases |hs|
  {
    if hs == [] then Some(Begin(stored))
    else
      var before := RunAll(cfg, stored, hs[..|hs| - 1]);
      var h := hs[|hs| - 1];
      if before.Some? && CanHappen(cfg, before.value, h) then Some(Happen(cfg, stored, before.value, h)) else None
  }

  // ---------- One event of one transition ----------

  /** At most one write is added, the loaded snapshot stays, and destroyed is for good. */
  predicate Extends(t: State, u: State) {
    var s, s' := Summarize(t.trace, 0), Summarize(u.trace, 0);
    && (s'.cache == s.cache || (!t.destroyed && |s'.cache| == |s.cache| + 1 && s'.cache[..|s.cache|] == s.cache))
    && (s.base.Some? ==> s'.base == s.base)
    && (t.destroyed ==> u.destroyed)
  }

  predicate Quiet(t: State, u: State) {
    var s, s' := Summarize(t.trace, 0), Summarize(u.trace, 0);
    s'.cache == s.cache && s'.base == s.base && (t.destroyed ==> u.destroyed) && u.load == t.load
  }

  lemma {:induction false} NextExtends(cfg: Config, t: State)
    ensures Extends(t, Next(cfg, t)) && Next(cfg, t).load == t.load
    ensures Summarize(Next(cfg, t).trace, 0).base == Summarize(t.trace, 0).base
    decreases |t.steps|
  {
    if t.destroyed || t.data == Null || t.steps == [] {
    } else {
      var step := Resolve(t.steps[0], t.version);
      var taken := t.(steps := t.steps[1..], current := Some(step));
      if step.message.version > t.version + 1 {
      } else if t.version != step.message.version - 1 {
        var sent := SendVersionExists(taken, step);
        assert Quiet(t, sent);
        NextExtends(cfg, sent);
      } else {
        WriteExtends(cfg, taken, step);
      }
    }
  }

  lemma WriteExtends(cfg: Config, t: State, step: Step)
    requires !t.destroyed
    ensures Extends(t, Write(cfg, t, step)) && Write(cfg, t, step).load == t.load
    ensures Summarize(Write(cfg, t, step).trace, 0).base == Summarize(t.trace, 0).base
  {
    var data := if step.message.payload.Parsed? then Apply(cfg, t.data, step.message) else None;
    if data.Some? {
      var w := Written(step, Snapshot(step.message.version, data.value));
      WriteTrace(cfg, t, step, w);
      WriteSummary(cfg, t.trace, w, 0);
    }
  }

  lemma FatalQuiet(t: State)
    ensures Quiet(t, Fatal(t))
  {
    StepErrorsKeep(t.trace, t.steps, 0);
    DestroyQuiet(t.(trace := StepErrors(t.trace, t.steps)), true);
  }

  lemma DestroyQuiet(t: State, failed: bool)
    ensures Quiet(t, Destroy(t, failed))
  {
    ReportErrorsFrame(t, 0);
  }

  lemma AddExtends(cfg: Config, t: State, step: Step, upsert: bool)
    ensures var u := Add(cfg, t, step, upsert);
      && Extends(t, u) && (t.load.Some? ==> u.load == t.load || !t.requested)
      && Summarize(u.trace, 0).base == Summarize(t.trace, 0).base
  {
    var noted := Note(t, Received(step));
    if Acceptable(t, step.message) {
      var queued := Enqueue(noted, step);
      assert Quiet(t, queued) && queued.destroyed == t.destroyed;
      NextExtends(cfg, queued);
      if !t.requested {
        assert Quiet(t, Note(queued.(load := t.load, requested := true), LoadCalled));
      }
    } else {
      SendVersionExistsQuiet(noted, step);
      assert Quiet(t, noted);
    }
  }

  lemma SendVersionExistsQuiet(t: State, step: Step)
    ensures Quiet(t, SendVersionExists(t, step))
  {
  }

  lemma CacheSetExtends(cfg: Config, t: State, error: bool, ack: Option<Message>)
    ensures Extends(t, OnCacheSet(cfg, t, error, ack)) && OnCacheSet(cfg, t, error, ack).load == t.load
    ensures Summarize(OnCacheSet(cfg, t, error, ack).trace, 0).base == Summarize(t.trace, 0).base
  {
    if t.current.None? {
      DestroyQuiet(t, true);
    } else {
      var acked := if ack.Some? then HandleAck(t, t.current.value.sender, ack.value) else t;
      if ack.Some? { HandleAckFrame(t, t.current.value.sender, ack.value, 0); }
      FatalQuiet(acked);
      NextExtends(cfg, Note(acked, Broadcast(t.current.value)));
    }
  }

  lemma StorageSetQuiet(t: State, error: bool, ack: Option<Message>)
    ensures Quiet(t, OnStorageSet(t, error, ack))
  {
    if ack.Some? && t.current.Some? { HandleAckFrame(t, t.current.value.sender, ack.value, 0); }
    FatalQuiet(if ack.Some? && t.current.Some? then HandleAck(t, t.current.value.sender, ack.value) else t);
  }

  /** The answer of the load becomes the base, or ends the transition. */
  lemma LoadExtends(cfg: Config, t: State, found: Option<Snapshot>, upsert: bool)
    requires Summarize(t.trace, 0).base.None? && Summarize(t.trace, 0).cache == []
    ensures var u := OnRecord(cfg, t, found, upsert); var s := Summarize(u.trace, 0);
      && |s.cache| <= 1 && (t.destroyed ==> s.cache == [] && u.destroyed) && u.load == t.load
      && (s.base.Some? ==> s.base.value == (if Missing(found) then Snapshot(0, EMPTY_OBJECT) else found.value))
      && (Missing(found) && !upsert ==> s.base.None?)
      && (s.base.None? ==> s.cache == [] && u.destroyed)
  {
    if Missing(found) && !upsert {
      FatalQuiet(t);
    } else {
      var start := if Missing(found) then Snapshot(0, EMPTY_OBJECT) else found.value;
      var loaded := Note(t.(data := start.data, version := start.version), Loaded(start));
      if !Hangs(loaded) {
        ResendAnswers(loaded, loaded.existing, 0);
        NextExtends(cfg, FlushExisting(loaded));
      }
    }
  }

  lemma EventExtends(cfg: Config, t: State, e: Event)
    requires Lawful(cfg, t, 0) && Enabled(t, e) && e != Stop && !e.LoadDone?
    ensures var u := Occur(cfg, t, e);
      && Extends(t, u) && Summarize(u.trace, 0).base == Summarize(t.trace, 0).base
      && (t.load.Some? && u.load.Some? ==> u.load == t.load)
  {
    match e
    case Submit(step, upsert) => AddExtends(cfg, t, step, upsert);
    case Refuse(step) =>
      SendVersionExistsQuiet(Note(t, Received(step)), step);
      assert Quiet(t, Note(t, Received(step)));
    case LoadFailed => DestroyQuiet(t.(load := None), true);
    case StorageDone(i, error) =>
      var call := t.storageCalls[i];
      var answered := Note(t.(storageCalls := Without(t.storageCalls, i)), StorageAnswered(call.id));
      assert Quiet(t, answered);
      StorageSetQuiet(answered, error, call.ack);
    case CacheDone(i, error) =>
      var call := t.cacheCalls[i];
      var answered := Note(t.(cacheCalls := Without(t.cacheCalls, i)), CacheAnswered(call.id));
      assert Quiet(t, answered);
      CacheSetExtends(cfg, answered, error, call.ack);
  }

  // ---------- The whole record ----------

  /** The record before the run. A record found in neither store starts empty at version 0. */
  function Origin(cfg: Config, stored: Stored): Snapshot {
    var found := Answer(cfg, stored.cache, stored.storage);
    if Missing(found) then Snapshot(0, EMPTY_OBJECT) else found.value
  }

  /** The state that the write after these ones builds on. */
  function Before(origin: Snapshot, restarts: set<nat>, writes: seq<Written>): Snapshot {
    if |writes| in restarts then Snapshot(0, EMPTY_OBJECT) else Head(origin, writes)
  }

  /** Each write follows the one before it, or begins anew. */
  predicate Line(cfg: Config, origin: Snapshot, restarts: set<nat>, writes: seq<Written>)
    decreases |writes|
  {
    writes == [] ||
    var before := writes[..|writes| - 1];
    Line(cfg, origin, restarts, before) && Follows(cfg, Before(origin, restarts, before), writes[|writes| - 1])
  }

  lemma {:induction false} LineFrame(cfg: Config, origin: Snapshot, restarts: set<nat>, more: set<nat>, writes: seq<Written>)
    requires Line(cfg, origin, restarts, writes) && forall r :: r < |writes| ==> (r in restarts <==> r in more)
    ensures Line(cfg, origin, more, writes)
    decreases |writes|
  {
    if writes != [] { LineFrame(cfg, origin, restarts, more, writes[..|writes| - 1]); }
  }

  /** At most one transition is undestroyed, and it is the mapped one. */
  predicate OneLive(sys: System) {
    && (sys.mapped.Some? ==> sys.mapped.value < |sys.pool|)
    && forall i :: 0 <= i < |sys.pool| ==> (!sys.pool[i].destroyed <==> sys.mapped == Some(i))
  }

  /** The writes are in line, the stores hold the last one, and a record begins anew only where a load
      is answered that it is missing. */
  predicate OneLine(cfg: Config, stored: Stored, sys: System) {
    && Line(cfg, Origin(cfg, stored), sys.restarts, sys.writes)
    && sys.cache == (if sys.writes == [] then stored.cache else Some(sys.writes[|sys.writes| - 1].snapshot))
    && sys.storage == (if sys.writes == [] || cfg.excluded then stored.storage else Some(sys.writes[|sys.writes| - 1].snapshot))
    && (forall r :: r in sys.restarts ==> 0 < r <= |sys.writes|)
    && (|sys.writes| in sys.restarts ==> Missing(Answer(cfg, sys.cache, sys.storage)))
  }

  /** The live transition knows the record's present state once it has loaded it, and is about to be
      told it while it waits. */
  predicate UpToDate(cfg: Config, stored: Stored, sys: System, i: nat)
    requires i < |sys.pool| == |sys.asked|
  {
    var t := sys.pool[i]; var s := Summarize(t.trace, 0);
    && (s.base.Some? && !t.crashed ==> Head(s.base.value, s.cache) == Before(Origin(cfg, stored), sys.restarts, sys.writes))
    && (t.load.Some? ==> sys.asked[i] == sys.cache)
  }

  predicate Sound(cfg: Config, stored: Stored, sys: System) {
    && |sys.asked| == |sys.pool|
    && (forall i :: 0 <= i < |sys.pool| ==> Lawful(cfg, sys.pool[i], 0))
    && OneLive(sys)
    && OneLine(cfg, stored, sys)
    && (sys.mapped.Some? ==> UpToDate(cfg, stored, sys, sys.mapped.value))
  }

  /** An event that the record's rules allow to transition `i`. */
  predicate Touchable(cfg: Config, sys: System, i: nat, e: Event) {
    && i < |sys.pool| == |sys.asked| && Enabled(sys.pool[i], e) && e != Stop
    && (e.LoadDone? ==> e.found == LoadAnswer(cfg, sys, i))
  }

  function RestartsAfter(sys: System, i: nat, e: Event): set<nat>
    requires i < |sys.pool|
  {
    if BeginsAnew(sys, i, e) then sys.restarts + {|sys.writes|} else sys.restarts
  }

  /** The answer of a load is the record's present state. */
  lemma LoadedIsPresent(cfg: Config, stored: Stored, sys: System, i: nat, found: Option<Snapshot>)
    requires Sound(cfg, stored, sys) && Touchable(cfg, sys, i, LoadDone(found)) && !sys.pool[i].destroyed
    requires Missing(found) ==> sys.pool[i].load == Some(true)
    ensures (if Missing(found) then Snapshot(0, EMPTY_OBJECT) else found.value) ==
            Before(Origin(cfg, stored), RestartsAfter(sys, i, LoadDone(found)), sys.writes)
    ensures BeginsAnew(sys, i, LoadDone(found)) ==> Missing(Answer(cfg, sys.cache, sys.storage))
  {
    assert sys.mapped == Some(i) && sys.asked[i] == sys.cache;
  }

  /** `u` is `t` after an event: it wrote nothing, or one message onto the present state. */
  predicate Progress(cfg: Config, t: State, u: State, present: Snapshot) {
    var s, s' := Summarize(t.trace, 0), Summarize(u.trace, 0);
    && (t.destroyed ==> u.destroyed)
    && (s'.cache == s.cache ||
        (!t.destroyed && |s'.cache| == |s.cache| + 1 && Follows(cfg, present, s'.cache[|s.cache|])))
    && (!t.destroyed && s'.cache == s.cache && s'.base.Some? && !u.crashed ==> Head(s'.base.value, s'.cache) == present)
    && (t.load.Some? && u.load.Some? ==> u.load == t.load)
  }

  lemma LoadProgress(cfg: Config, t: State, found: Option<Snapshot>, present: Snapshot)
    requires Lawful(cfg, t, 0) && Enabled(t, LoadDone(found))
    requires !t.destroyed && (Missing(found) ==> t.load.value) ==> present == if Missing(found) then Snapshot(0, EMPTY_OBJECT) else found.value
    ensures Progress(cfg, t, Occur(cfg, t, LoadDone(found)), present)
  {
    EventKeeps(cfg, t, LoadDone(found), 0);
    LoadExtends(cfg, t.(load := None), found, t.load.value);
  }

  lemma OtherProgress(cfg: Config, t: State, e: Event, present: Snapshot)
    requires Lawful(cfg, t, 0) && Enabled(t, e) && e != Stop && !e.LoadDone?
    requires !t.destroyed && Summarize(t.trace, 0).base.Some? ==> present == Head(Summarize(t.trace, 0).base.value, Summarize(t.trace, 0).cache)
    ensures Progress(cfg, t, Occur(cfg, t, e), present)
  {
    EventKeeps(cfg, t, e, 0);
    EventExtends(cfg, t, e);
  }

  /** What an event of transition `i` adds to the record's writes. */
  lemma WriteOfEvent(cfg: Config, stored: Stored, sys: System, i: nat, e: Event)
    requires Sound(cfg, stored, sys) && Touchable(cfg, sys, i, e)
    ensures Lawful(cfg, Occur(cfg, sys.pool[i], e), 0)
    ensures Progress(cfg, sys.pool[i], Occur(cfg, sys.pool[i], e), Before(Origin(cfg, stored), RestartsAfter(sys, i, e), sys.writes))
  {
    var t := sys.pool[i];
    var present := Before(Origin(cfg, stored), RestartsAfter(sys, i, e), sys.writes);
    EventKeeps(cfg, t, e, 0);
    if e.LoadDone? {
      if !t.destroyed && (Missing(e.found) ==> t.load.value) { LoadedIsPresent(cfg, stored, sys, i, e.found); }
      LoadProgress(cfg, t, e.found, present);
    } else {
      OtherProgress(cfg, t, e, present);
    }
  }

  lemma TouchLive(cfg: Config, stored: Stored, sys: System, i: nat, e: Event)
    requires Sound(cfg, stored, sys) && Touchable(cfg, sys, i, e)
    ensures var sys' := Touch(cfg, sys, i, e);
      OneLive(sys') && forall j :: 0 <= j < |sys'.pool| ==> Lawful(cfg, sys'.pool[j], 0)
  {
    WriteOfEvent(cfg, stored, sys, i, e);
  }

  /** The line, for the restarts known by now. */
  predicate InLine(cfg: Config, stored: Stored, sys: System, more: set<nat>) {
    && Line(cfg, Origin(cfg, stored), more, sys.writes) && (forall r :: r in more ==> 0 < r <= |sys.writes|)
    && (|sys.writes| in more ==> Missing(Answer(cfg, sys.cache, sys.storage)))
  }

  lemma RestartsInLine(cfg: Config, stored: Stored, sys: System, i: nat, e: Event)
    requires Sound(cfg, stored, sys) && Touchable(cfg, sys, i, e)
    ensures InLine(cfg, stored, sys, RestartsAfter(sys, i, e))
  {
    LineFrame(cfg, Origin(cfg, stored), sys.restarts, RestartsAfter(sys, i, e), sys.writes);
    if BeginsAnew(sys, i, e) { LoadedIsPresent(cfg, stored, sys, i, e.found); }
  }

  lemma OneMoreInLine(cfg: Config, stored: Stored, sys: System, sys': System, w: Written)
    requires InLine(cfg, stored, sys, sys'.restarts) && Follows(cfg, Before(Origin(cfg, stored), sys'.restarts, sys.writes), w)
    requires sys'.writes == sys.writes + [w] && sys'.cache == Some(w.snapshot)
    requires sys'.storage == if cfg.excluded then sys.storage else Some(w.snapshot)
    requires cfg.excluded ==> sys.storage == stored.storage
    ensures OneLine(cfg, stored, sys')
  {
    LineSnoc(cfg, Origin(cfg, stored), sys'.restarts, sys.writes, w);
  }

  lemma TouchLine(cfg: Config, stored: Stored, sys: System, i: nat, e: Event)
    requires Sound(cfg, stored, sys) && Touchable(cfg, sys, i, e)
    ensures OneLine(cfg, stored, Touch(cfg, sys, i, e))
  {
    WriteOfEvent(cfg, stored, sys, i, e);
    RestartsInLine(cfg, stored, sys, i, e);
    var sys' := Touch(cfg, sys, i, e);
    var before := Summarize(sys.pool[i].trace, 0).cache;
    var after := Summarize(Occur(cfg, sys.pool[i], e).trace, 0).cache;
    assert sys'.restarts == RestartsAfter(sys, i, e);
    if |after| > |before| {
      OneMoreInLine(cfg, stored, sys, sys', after[|after| - 1]);
    }
  }

  lemma LineSnoc(cfg: Config, origin: Snapshot, restarts: set<nat>, writes: seq<Written>, w: Written)
    requires Line(cfg, origin, restarts, writes) && Follows(cfg, Before(origin, restarts, writes), w)
    ensures Line(cfg, origin, restarts, writes + [w])
  {
    assert (writes + [w])[..|writes|] == writes;
  }

  lemma TouchUpToDate(cfg: Config, stored: Stored, sys: System, i: nat, e: Event)
    requires Sound(cfg, stored, sys) && Touchable(cfg, sys, i, e)
    requires sys.mapped == Some(i) && !Occur(cfg, sys.pool[i], e).destroyed
    ensures UpToDate(cfg, stored, Touch(cfg, sys, i, e), i)
  {
    WriteOfEvent(cfg, stored, sys, i, e);
    var t, u := sys.pool[i], Occur(cfg, sys.pool[i], e);
    var before, after := Summarize(t.trace, 0).cache, Summarize(u.trace, 0).cache;
    assert u.load.Some? ==> after == [];
    if |after| > |before| {
      OneOn(Origin(cfg, stored), RestartsAfter(sys, i, e), sys.writes, after[|after| - 1]);
    }
  }

  lemma OneOn(origin: Snapshot, restarts: set<nat>, writes: seq<Written>, w: Written)
    requires forall r :: r in restarts ==> r <= |writes|
    ensures Before(origin, restarts, writes + [w]) == w.snapshot
  {
  }

  lemma TouchKeeps(cfg: Config, stored: Stored, sys: System, i: nat, e: Event)
    requires Sound(cfg, stored, sys) && Touchable(cfg, sys, i, e)
    ensures Sound(cfg, stored, Touch(cfg, sys, i, e))
  {
    TouchLive(cfg, stored, sys, i, e);
    TouchLine(cfg, stored, sys, i, e);
    if sys.mapped == Some(i) && !Occur(cfg, sys.pool[i], e).destroyed {
      TouchUpToDate(cfg, stored, sys, i, e);
    } else {
      DestroyedChangesNothing(cfg, stored, sys, i, e);
    }
  }

  /** A destroyed transition leaves the record and the live transition alone. */
  lemma DestroyedChangesNothing(cfg: Config, stored: Stored, sys: System, i: nat, e: Event)
    requires Sound(cfg, stored, sys) && Touchable(cfg, sys, i, e)
    requires sys.mapped != Some(i) || Occur(cfg, sys.pool[i], e).destroyed
    ensures var sys' := Touch(cfg, sys, i, e);
      sys'.mapped.Some? ==> sys'.mapped.value < |sys'.pool| == |sys'.asked| && UpToDate(cfg, stored, sys', sys'.mapped.value)
  {
    WriteOfEvent(cfg, stored, sys, i, e);
    if sys.mapped.Some? && sys.mapped != Some(i) {
      assert sys.pool[i].destroyed;
      var sys' := Touch(cfg, sys, i, e);
      assert sys'.writes == sys.writes && sys'.cache == sys.cache && sys'.mapped == sys.mapped && sys'.restarts == sys.restarts;
      assert sys'.pool[sys.mapped.value] == sys.pool[sys.mapped.value];
    }
  }

  lemma HappenKeeps(cfg: Config, stored: Stored, sys: System, h: Happening)
    requires Sound(cfg, stored, sys) && CanHappen(cfg, sys, h)
    ensures Sound(cfg, stored, Happen(cfg, stored, sys, h))
  {
    match h
    case Update(step, upsert) =>
      if sys.mapped.Some? {
        var i := sys.mapped.value;
        if HasVersion(sys.pool[i], step.message.version) {
          TouchKeeps(cfg, stored, sys, i, Refuse(step));
        } else {
          TouchKeeps(cfg, stored, sys, i, Submit(step, upsert));
        }
      } else {
        var added := sys.(pool := sys.pool + [INITIAL], asked := sys.asked + [None], mapped := Some(|sys.pool|));
        assert Lawful(cfg, INITIAL, 0);
        TouchKeeps(cfg, stored, added, |sys.pool|, Submit(step, upsert));
      }
    case LateAdd(i, step) => TouchKeeps(cfg, stored, sys, i, Submit(step, false));
    case At(i, e) => TouchKeeps(cfg, stored, sys, i, e);
  }

  lemma {:induction false} RunAllKeeps(cfg: Config, stored: Stored, hs: seq<Happening>)
    requires RunAll(cfg, stored, hs).Some?
    ensures Sound(cfg, stored, RunAll(cfg, stored, hs).value)
    decreases |hs|
  {
    if hs == [] {
    } else {
      var before := hs[..|hs| - 1];
      RunAllKeeps(cfg, stored, before);
      HappenKeeps(cfg, stored, RunAll(cfg, stored, before).value, hs[|hs| - 1]);
    }
  }

  /** Over whole runs of updates: never two live transitions, and a live one is the mapped one. */
  lemma AtMostOneTransition(cfg: Config, stored: Stored, hs: seq<Happening>)
    requires RunAll(cfg, stored, hs).Some?
    ensures var sys := RunAll(cfg, stored, hs).value;
      && (forall i :: 0 <= i < |sys.pool| ==> (!sys.pool[i].destroyed <==> sys.mapped == Some(i)))
      && (forall i, j :: 0 <= i < |sys.pool| && 0 <= j < |sys.pool| && !sys.pool[i].destroyed && !sys.pool[j].destroyed ==> i == j)
  {
    RunAllKeeps(cfg, stored, hs);
  }

  // ---------- Versions ----------

  lemma {:induction false} LineEach(cfg: Config, origin: Snapshot, restarts: set<nat>, writes: seq<Written>, k: nat)
    requires Line(cfg, origin, restarts, writes) && k < |writes|
    ensures Follows(cfg, Before(origin, restarts, writes[..k]), writes[k])
    decreases |writes|
  {
    var before := writes[..|writes| - 1];
    if k < |before| {
      LineEach(cfg, origin, restarts, before, k);
      assert before[..k] == writes[..k];
    }
  }

  lemma {:induction false} LineIsChain(cfg: Config, origin: Snapshot, writes: seq<Written>)
    requires Line(cfg, origin, {}, writes)
    ensures Chain(cfg, origin, writes)
  {
    if writes != [] { LineIsChain(cfg, origin, writes[..|writes| - 1]); }
  }

  /** The k-th write has the version of the record before the run plus k. */
  predicate Rises(origin: Snapshot, writes: seq<Written>) {
    forall k :: 0 <= k < |writes| ==> writes[k].snapshot.version == origin.version + k + 1
  }

  lemma {:induction false} RisesIff(cfg: Config, origin: Snapshot, restarts: set<nat>, writes: seq<Written>)
    requires Line(cfg, origin, restarts, writes) && forall r :: r in restarts ==> r > 0
    ensures Rises(origin, writes) <==> forall r :: r in restarts && 0 < r < |writes| ==> writes[r - 1].snapshot.version == 0
    decreases |writes|
  {
    if writes != [] {
      var before, n := writes[..|writes| - 1], |writes| - 1;
      RisesIff(cfg, origin, restarts, before);
      LineEach(cfg, origin, restarts, writes, n);
      assert writes[..n] == before;
      assert forall k :: 0 <= k < n ==> before[k] == writes[k];
      if Rises(origin, writes) {
        assert Rises(origin, before);
      } else if Rises(origin, before) {
        assert writes[n].snapshot.version != origin.version + n + 1;
      }
    }
  }

  lemma {:induction false} VersionsArePositive(cfg: Config, origin: Snapshot, restarts: set<nat>, writes: seq<Written>)
    requires Line(cfg, origin, restarts, writes) && origin.version >= 0
    ensures forall k :: 0 <= k < |writes| ==> writes[k].snapshot.version > 0
    decreases |writes|
  {
    if writes != [] { VersionsArePositive(cfg, origin, restarts, writes[..|writes| - 1]); }
  }

  /** Over whole runs of updates, whichever transition made the write: the versions rise by one from
      write to write, so that no two senders win the same version, if and only if no write begins anew
      after another one, but for one with version 0. For a record whose first version is not negative
      there is no such exception. */
  lemma VersionsRiseIff(cfg: Config, stored: Stored, hs: seq<Happening>)
    requires RunAll(cfg, stored, hs).Some?
    ensures var sys := RunAll(cfg, stored, hs).value; var origin := Origin(cfg, stored);
      && (Rises(origin, sys.writes) <==>
          forall r :: r in sys.restarts && 0 < r < |sys.writes| ==> sys.writes[r - 1].snapshot.version == 0)
      && (origin.version >= 0 ==> (Rises(origin, sys.writes) <==> forall r :: r in sys.restarts ==> r == |sys.writes|))
      && (forall k :: 0 <= k < |sys.writes| ==> Follows(cfg, Before(origin, sys.restarts, sys.writes[..k]), sys.writes[k]))
      && sys.cache == (if sys.writes == [] then stored.cache else Some(sys.writes[|sys.writes| - 1].snapshot))
  {
    RunAllKeeps(cfg, stored, hs);
    var sys := RunAll(cfg, stored, hs).value;
    RisesIff(cfg, Origin(cfg, stored), sys.restarts, sys.writes);
    if Origin(cfg, stored).version >= 0 { VersionsArePositive(cfg, Origin(cfg, stored), sys.restarts, sys.writes); }
    forall k | 0 <= k < |sys.writes|
      ensures Follows(cfg, Before(Origin(cfg, stored), sys.restarts, sys.writes[..k]), sys.writes[k])
    {
      LineEach(cfg, Origin(cfg, stored), sys.restarts, sys.writes, k);
    }
  }
}
