/** Which messages make a record begin anew, so that a version is won twice; without them versions rise by
    one over whole runs. */
module RecordRestarts {
  import opened Common
  import opened Transition
  import opened TransitionLaws
  import opened TransitionAcks
  import opened RecordWrites
  import Window = TransitionWindow

  // ---------- Which messages make a record begin anew ----------

  /** The message has no path, and the value that it puts in the record's place is taken for no record:
      a falsy one, or null alone if the name is excluded from storage. */
  predicate Forgotten(cfg: Config, m: Message) {
    && (m.path.None? || m.path.value == "")
    && m.payload.Parsed? && (if cfg.excluded then m.payload.value == Null else !Truthy(m.payload.value))
  }

  lemma LastIsMissingIff(cfg: Config, stored: Stored, sys: System)
    requires YieldsNodes(cfg) && OneLine(cfg, stored, sys) && sys.writes != []
    ensures Missing(Answer(cfg, sys.cache, sys.storage)) <==> Forgotten(cfg, sys.writes[|sys.writes| - 1].step.message)
  {
    var n := |sys.writes| - 1;
    LineEach(cfg, Origin(cfg, stored), sys.restarts, sys.writes, n);
    var before := Before(Origin(cfg, stored), sys.restarts, sys.writes[..n]);
    assert Apply(cfg, before.data, sys.writes[n].step.message) == Some(sys.writes[n].snapshot.data);
  }

  /** In every run, the answer to a load makes the record begin anew if and only if the load may create
      it, and the last message that was written has no path and a payload that is taken for no record. */
  lemma BeginsAnewIff(cfg: Config, stored: Stored, hs: seq<Happening>, i: nat, found: Option<Snapshot>)
    requires YieldsNodes(cfg) && RunAll(cfg, stored, hs).Some?
    requires CanHappen(cfg, RunAll(cfg, stored, hs).value, At(i, LoadDone(found)))
    requires !RunAll(cfg, stored, hs).value.pool[i].destroyed && RunAll(cfg, stored, hs).value.writes != []
    ensures var sys := RunAll(cfg, stored, hs).value;
      BeginsAnew(sys, i, LoadDone(found)) <==>
      sys.pool[i].load == Some(true) && Forgotten(cfg, sys.writes[|sys.writes| - 1].step.message)
  {
    RunAllKeeps(cfg, stored, hs);
    LastIsMissingIff(cfg, stored, RunAll(cfg, stored, hs).value);
  }

  /** Whatever began anew did so after such a message. */
  predicate RestartsForgotten(cfg: Config, sys: System) {
    forall r :: r in sys.restarts ==> 0 < r <= |sys.writes| && Forgotten(cfg, sys.writes[r - 1].step.message)
  }

  lemma TouchForgotten(cfg: Config, stored: Stored, sys: System, i: nat, e: Event)
    requires YieldsNodes(cfg) && Sound(cfg, stored, sys) && Touchable(cfg, sys, i, e) && RestartsForgotten(cfg, sys)
    ensures RestartsForgotten(cfg, Touch(cfg, sys, i, e))
  {
    var sys' := Touch(cfg, sys, i, e);
    if BeginsAnew(sys, i, e) {
      LoadedIsPresent(cfg, stored, sys, i, e.found);
      LastIsMissingIff(cfg, stored, sys);
    }
    assert |sys.writes| <= |sys'.writes| && forall k :: 0 <= k < |sys.writes| ==> sys'.writes[k] == sys.writes[k];
  }

  lemma HappenForgotten(cfg: Config, stored: Stored, sys: System, h: Happening)
    requires YieldsNodes(cfg) && Sound(cfg, stored, sys) && CanHappen(cfg, sys, h) && RestartsForgotten(cfg, sys)
    ensures RestartsForgotten(cfg, Happen(cfg, stored, sys, h))
  {
    match h
    case Update(step, upsert) =>
      if sys.mapped.Some? {
        var i := sys.mapped.value;
        if HasVersion(sys.pool[i], step.message.version) {
          TouchForgotten(cfg, stored, sys, i, Refuse(step));
        } else {
          TouchForgotten(cfg, stored, sys, i, Submit(step, upsert));
        }
      } else {
        var added := sys.(pool := sys.pool + [INITIAL], asked := sys.asked + [None], mapped := Some(|sys.pool|));
        assert Lawful(cfg, INITIAL, 0);
        TouchForgotten(cfg, stored, added, |sys.pool|, Submit(step, upsert));
      }
    case LateAdd(i, step) => TouchForgotten(cfg, stored, sys, i, Submit(step, false));
    case At(i, e) => TouchForgotten(cfg, stored, sys, i, e);
  }

  lemma {:induction false} RunForgotten(cfg: Config, stored: Stored, hs: seq<Happening>)
    requires YieldsNodes(cfg) && RunAll(cfg, stored, hs).Some?
    ensures RestartsForgotten(cfg, RunAll(cfg, stored, hs).value)
    decreases |hs|
  {
    if hs != [] {
      var before := hs[..|hs| - 1];
      RunForgotten(cfg, stored, before);
      RunAllKeeps(cfg, stored, before);
      HappenForgotten(cfg, stored, RunAll(cfg, stored, before).value, hs[|hs| - 1]);
    }
  }

  // ---------- Runs without such messages ----------

  predicate Fine(cfg: Config, t: State) {
    && (forall s :: s in t.steps ==> !Forgotten(cfg, s.message))
    && (forall w :: w in Summarize(t.trace, 0).cache ==> !Forgotten(cfg, w.step.message))
  }

  lemma {:induction false} NextFine(cfg: Config, t: State)
    requires Fine(cfg, t)
    ensures Fine(cfg, Next(cfg, t))
    decreases |t.steps|
  {
    if !t.destroyed && t.data != Null && t.steps != [] {
      assert t.steps[0] in t.steps;
      var step := Resolve(t.steps[0], t.version);
      var taken := t.(steps := t.steps[1..], current := Some(step));
      if step.message.version > t.version + 1 {
      } else if t.version != step.message.version - 1 {
        SendVersionExistsQuiet(taken, step);
        NextFine(cfg, SendVersionExists(taken, step));
      } else {
        var data := if step.message.payload.Parsed? then Apply(cfg, t.data, step.message) else None;
        if data.Some? {
          var w := Written(step, Snapshot(step.message.version, data.value));
          WriteTrace(cfg, taken, step, w);
          WriteSummary(cfg, taken.trace, w, 0);
        }
      }
    }
  }

  lemma AddFine(cfg: Config, t: State, step: Step, upsert: bool)
    requires Fine(cfg, t) && !Forgotten(cfg, step.message)
    ensures Fine(cfg, Add(cfg, t, step, upsert))
  {
    var noted := Note(t, Received(step));
    if Acceptable(t, step.message) {
      NextFine(cfg, Enqueue(noted, step));
    } else {
      SendVersionExistsQuiet(noted, step);
    }
  }

  lemma LoadFine(cfg: Config, t: State, found: Option<Snapshot>, upsert: bool)
    requires Fine(cfg, t)
    ensures Fine(cfg, OnRecord(cfg, t, found, upsert))
  {
    if Missing(found) && !upsert {
      StaysFine(cfg, t, Fatal(t));
    } else {
      var start := if Missing(found) then Snapshot(0, EMPTY_OBJECT) else found.value;
      var loaded := Note(t.(data := start.data, version := start.version), Loaded(start));
      if !Hangs(loaded) {
        ResendAnswers(loaded, loaded.existing, 0);
        NextFine(cfg, FlushExisting(loaded));
      }
    }
  }

  lemma StaysFine(cfg: Config, t: State, u: State)
    requires Fine(cfg, t) && u == Fatal(t)
    ensures Fine(cfg, u)
  {
    FatalQuiet(t);
  }

  lemma EventFine(cfg: Config, t: State, e: Event)
    requires Fine(cfg, t) && Enabled(t, e) && e != Stop && (e.Submit? ==> !Forgotten(cfg, e.step.message))
    ensures Fine(cfg, Occur(cfg, t, e))
  {
    match e
    case Submit(step, upsert) => AddFine(cfg, t, step, upsert);
    case Refuse(step) => SendVersionExistsQuiet(Note(t, Received(step)), step);
    case LoadDone(found) => LoadFine(cfg, t.(load := None), found, t.load.value);
    case LoadFailed => DestroyQuiet(t.(load := None), true);
    case StorageDone(i, error) =>
      var call := t.storageCalls[i];
      var answered := Note(t.(storageCalls := Without(t.storageCalls, i)), StorageAnswered(call.id));
      var acked := if call.ack.Some? && answered.current.Some? then HandleAck(answered, answered.current.value.sender, call.ack.value) else answered;
      if call.ack.Some? && answered.current.Some? { HandleAckFrame(answered, answered.current.value.sender, call.ack.value, 0); }
      StaysFine(cfg, acked, Fatal(acked));
    case CacheDone(i, error) =>
      var call := t.cacheCalls[i];
      var answered := Note(t.(cacheCalls := Without(t.cacheCalls, i)), CacheAnswered(call.id));
      CacheFine(cfg, answered, error, call.ack);
  }

  lemma CacheFine(cfg: Config, t: State, error: bool, ack: Option<Message>)
    requires Fine(cfg, t)
    ensures Fine(cfg, OnCacheSet(cfg, t, error, ack))
  {
    if t.current.None? {
      DestroyQuiet(t, true);
    } else {
      var acked := if ack.Some? then HandleAck(t, t.current.value.sender, ack.value) else t;
      if ack.Some? { HandleAckFrame(t, t.current.value.sender, ack.value, 0); }
      StaysFine(cfg, acked, Fatal(acked));
      NextFine(cfg, Note(acked, Broadcast(t.current.value)));
    }
  }

  /** The messages that came in are not of that kind. */
  predicate NoneForgotten(cfg: Config, hs: seq<Happening>) {
    forall i :: 0 <= i < |hs| ==> (hs[i].Update? || hs[i].LateAdd? ==> !Forgotten(cfg, hs[i].step.message))
  }

  predicate AllFine(cfg: Config, sys: System) {
    && (forall i :: 0 <= i < |sys.pool| ==> Fine(cfg, sys.pool[i]))
    && (forall w :: w in sys.writes ==> !Forgotten(cfg, w.step.message))
  }

  lemma TouchFine(cfg: Config, sys: System, i: nat, e: Event)
    requires AllFine(cfg, sys) && Touchable(cfg, sys, i, e) && (e.Submit? ==> !Forgotten(cfg, e.step.message))
    ensures AllFine(cfg, Touch(cfg, sys, i, e))
  {
    EventFine(cfg, sys.pool[i], e);
    var after := Summarize(Occur(cfg, sys.pool[i], e).trace, 0).cache;
    if after != [] { assert after[|after| - 1] in after; }
  }

  lemma {:induction false} RunFine(cfg: Config, stored: Stored, hs: seq<Happening>)
    requires RunAll(cfg, stored, hs).Some? && NoneForgotten(cfg, hs)
    ensures AllFine(cfg, RunAll(cfg, stored, hs).value)
    decreases |hs|
  {
    if hs != [] {
      var before := hs[..|hs| - 1];
      RunFine(cfg, stored, before);
      RunAllKeeps(cfg, stored, before);
      var sys := RunAll(cfg, stored, before).value;
      match hs[|hs| - 1]
      case Update(step, upsert) =>
        if sys.mapped.Some? {
          var i := sys.mapped.value;
          TouchFine(cfg, sys, i, if HasVersion(sys.pool[i], step.message.version) then Refuse(step) else Submit(step, upsert));
        } else {
          var added := sys.(pool := sys.pool + [INITIAL], asked := sys.asked + [None], mapped := Some(|sys.pool|));
          TouchFine(cfg, added, |sys.pool|, Submit(step, upsert));
        }
      case LateAdd(i, step) => TouchFine(cfg, sys, i, Submit(step, false));
      case At(i, e) => TouchFine(cfg, sys, i, e);
    }
  }

  /** Over whole runs of updates none of which puts a value in the record's place that is taken for no
      record: the k-th cache write raises the version by exactly one, whichever transition made it, so no
      two senders win the same version; the data is the fold of all the winning messages over the
      record's first data; and the cache holds the last write. */
  lemma VersionsRiseByOne(cfg: Config, stored: Stored, hs: seq<Happening>)
    requires YieldsNodes(cfg) && RunAll(cfg, stored, hs).Some? && NoneForgotten(cfg, hs)
    ensures var sys := RunAll(cfg, stored, hs).value; var origin := Origin(cfg, stored);
      && (forall k :: 0 <= k < |sys.writes| ==>
            && sys.writes[k].snapshot.version == sys.writes[k].step.message.version == origin.version + k + 1
            && Fold(cfg, origin.data, sys.writes[..k + 1]) == Some(sys.writes[k].snapshot.data))
      && (forall j, k :: 0 <= j < k < |sys.writes| ==> sys.writes[j].snapshot.version != sys.writes[k].snapshot.version)
      && sys.cache == (if sys.writes == [] then stored.cache else Some(sys.writes[|sys.writes| - 1].snapshot))
  {
    RunAllKeeps(cfg, stored, hs);
    RunForgotten(cfg, stored, hs);
    RunFine(cfg, stored, hs);
    var sys := RunAll(cfg, stored, hs).value;
    NeverAnew(cfg, sys);
    LineIsChain(cfg, Origin(cfg, stored), sys.writes);
    ChainIsTheFold(cfg, Origin(cfg, stored), sys.writes);
  }

  lemma NeverAnew(cfg: Config, sys: System)
    requires AllFine(cfg, sys) && RestartsForgotten(cfg, sys)
    ensures sys.restarts == {}
  {
    assert forall k :: 0 <= k < |sys.writes| ==> sys.writes[k] in sys.writes;
  }

  // ---------- A run in which a version is won twice ----------

  /** A message without a path that asks for the next version and no acknowledgement. */
  predicate Plain(step: Step) {
    && step.message.version == -1 && step.message.path.None? && step.message.payload.Parsed? && step.message.payload.value != Null
    && !step.message.isWriteAck && !BadData(step.message)
  }

  function StartOf(found: Option<Snapshot>): Snapshot {
    if Missing(found) then Snapshot(0, EMPTY_OBJECT) else found.value
  }

  function WrittenBy(step: Step, found: Option<Snapshot>): Written
    requires Plain(step)
  {
    var v := StartOf(found).version + 1;
    Written(step.(message := step.message.(version := v)), Snapshot(v, step.message.payload.value))
  }

  /** The first submission. */
  lemma Asks(cfg: Config, step: Step)
    requires Plain(step)
    ensures var t := Occur(cfg, INITIAL, Submit(step, true));
      Window.Asking(t, step) && t.load == Some(true) && Summarize(t.trace, 0).cache == []
  {
    Window.Submitted(cfg, step, true);
  }

  /** The answer to its load. */
  lemma Loads(cfg: Config, t: State, step: Step, found: Option<Snapshot>)
    requires Plain(step) && Window.Asking(t, step) && t.load == Some(true)
    ensures var u := Occur(cfg, t, LoadDone(found));
      && InFlight(cfg, u, [], WrittenBy(step, found)) && u.steps == [] && !u.crashed && u.data != Null
      && Summarize(u.trace, 0).cache == [WrittenBy(step, found)] && (cfg.excluded || u.storageCalls != [])
  {
    var start, w := StartOf(found), WrittenBy(step, found);
    var loaded := Note(t.(load := None, data := start.data, version := start.version), Loaded(start));
    var taken := loaded.(steps := [], current := Some(w.step));
    LoadIsWrite(cfg, t, step, found, loaded, taken);
    Window.JustWritten(cfg, taken, w.step, w);
    WriteCalls(cfg, taken, w.step);
  }

  lemma LoadIsWrite(cfg: Config, t: State, step: Step, found: Option<Snapshot>, loaded: State, taken: State)
    requires Plain(step) && Window.Asking(t, step) && t.load == Some(true)
    requires var start := StartOf(found);
      loaded == Note(t.(load := None, data := start.data, version := start.version), Loaded(start))
    requires taken == loaded.(steps := [], current := Some(WrittenBy(step, found).step))
    ensures Occur(cfg, t, LoadDone(found)) == Write(cfg, taken, WrittenBy(step, found).step)
  {
    assert FlushExisting(loaded) == loaded;
    assert loaded.steps[1..] == [];
    assert Occur(cfg, t, LoadDone(found)) == Next(cfg, loaded);
  }

  /** Both stores answer, and the transition is over. */
  lemma Ends(cfg: Config, t: State, w: Written)
    requires InFlight(cfg, t, [], w) && t.steps == [] && !t.crashed && t.data != Null && !w.step.message.isWriteAck
    requires t.storageCalls != []
    ensures var u := Occur(cfg, t, StorageDone(0, false)); var v := Occur(cfg, u, CacheDone(0, false));
      && u == t.(storageCalls := [], trace := u.trace) && u.trace == After(t.trace, StorageAnswered(w.step.id))
      && v.destroyed && !v.crashed && v.load.None? && Summarize(v.trace, 0).cache == Summarize(t.trace, 0).cache
  {
    var call := Callback(w.step.id, None);
    WithoutOnly(call);
    var u := Occur(cfg, t, StorageDone(0, false));
    assert u == Note(t.(storageCalls := []), StorageAnswered(w.step.id));
    EndsNext(cfg, u, w);
  }

  lemma EndsNext(cfg: Config, u: State, w: Written)
    requires u.cacheCalls == [Callback(w.step.id, None)] && u.current == Some(w.step) && u.steps == []
    requires !u.crashed && !u.destroyed && u.data != Null
    ensures var v := Occur(cfg, u, CacheDone(0, false));
      v.destroyed && !v.crashed && v.load == u.load && Summarize(v.trace, 0).cache == Summarize(u.trace, 0).cache
  {
    WithoutOnly(Callback(w.step.id, None));
    var last := Note(Note(u.(cacheCalls := []), CacheAnswered(w.step.id)), Broadcast(w.step));
    assert Occur(cfg, u, CacheDone(0, false)) == Next(cfg, last) == Destroy(last, false);
    assert Summarize(After(u.trace, CacheAnswered(w.step.id)), 0).cache == Summarize(u.trace, 0).cache;
    assert Summarize(last.trace, 0).cache == Summarize(u.trace, 0).cache;
  }

  lemma RunOn(cfg: Config, stored: Stored, past: seq<Happening>, h: Happening)
    requires RunAll(cfg, stored, past).Some? && CanHappen(cfg, RunAll(cfg, stored, past).value, h)
    ensures RunAll(cfg, stored, past + [h]) == Some(Happen(cfg, stored, RunAll(cfg, stored, past).value, h))
  {
    assert (past + [h])[..|past|] == past;
  }

  predicate NoneCrashed(sys: System) {
    |sys.asked| == |sys.pool| && forall p :: p in sys.pool ==> !p.crashed
  }

  /** A new transition is mapped and asks for the record. */
  lemma UpdateAsks(cfg: Config, stored: Stored, sys: System, step: Step)
    requires Plain(step) && sys.mapped.None? && NoneCrashed(sys)
    ensures CanHappen(cfg, sys, Happening.Update(step, true))
    ensures Happen(cfg, stored, sys, Happening.Update(step, true)) ==
            sys.(pool := sys.pool + [Occur(cfg, INITIAL, Submit(step, true))], mapped := Some(|sys.pool|), asked := sys.asked + [sys.cache])
  {
    Asks(cfg, step);
    var t := Occur(cfg, INITIAL, Submit(step, true));
    var added := sys.(pool := sys.pool + [INITIAL], asked := sys.asked + [None], mapped := Some(|sys.pool|));
    assert added.pool[|sys.pool|] == INITIAL;
    assert added.pool[|sys.pool| := t] == sys.pool + [t];
    assert added.asked[|sys.pool| := sys.cache] == sys.asked + [sys.cache];
  }

  /** Its load is answered, and it writes. */
  lemma LoadWrites(cfg: Config, stored: Stored, sys: System, i: nat, step: Step)
    requires Plain(step) && NoneCrashed(sys) && i < |sys.pool| && sys.mapped == Some(i)
    requires Window.Asking(sys.pool[i], step) && sys.pool[i].load == Some(true)
    ensures var found := LoadAnswer(cfg, sys, i); var e := LoadDone(found); var w := WrittenBy(step, found);
      && CanHappen(cfg, sys, At(i, e))
      && Happen(cfg, stored, sys, At(i, e)) ==
         System(sys.pool[i := Occur(cfg, sys.pool[i], e)], Some(i), Some(w.snapshot),
                if cfg.excluded then sys.storage else Some(w.snapshot), sys.asked, sys.writes + [w],
                if Missing(found) && sys.writes != [] then sys.restarts + {|sys.writes|} else sys.restarts)
  {
    Loads(cfg, sys.pool[i], step, LoadAnswer(cfg, sys, i));
    assert sys.pool[i] in sys.pool;
  }

  /** Both stores answer, and it takes itself off the map. */
  lemma AnswersEnd(cfg: Config, stored: Stored, sys: System, i: nat, w: Written) returns (v: State)
    requires NoneCrashed(sys) && i < |sys.pool| && sys.mapped == Some(i)
    requires InFlight(cfg, sys.pool[i], [], w) && sys.pool[i].steps == [] && sys.pool[i].data != Null && !w.step.message.isWriteAck
    requires sys.pool[i].storageCalls != []
    ensures CanHappen(cfg, sys, At(i, StorageDone(0, false)))
    ensures var mid := Happen(cfg, stored, sys, At(i, StorageDone(0, false)));
      && CanHappen(cfg, mid, At(i, CacheDone(0, false)))
      && Happen(cfg, stored, mid, At(i, CacheDone(0, false))) == sys.(pool := sys.pool[i := v], mapped := None) && !v.crashed
  {
    var t := sys.pool[i];
    assert t in sys.pool;
    Ends(cfg, t, w);
    var u := Occur(cfg, t, StorageDone(0, false));
    v := Occur(cfg, u, CacheDone(0, false));
    var mid := sys.(pool := sys.pool[i := u]);
    assert Happen(cfg, stored, sys, At(i, StorageDone(0, false))) == mid;
    assert forall p :: p in mid.pool ==> p in sys.pool || p == u;
    assert mid.pool[i := v] == sys.pool[i := v];
  }

  /** One message alone: its transition asks, writes and ends. */
  lemma OneMessage(cfg: Config, stored: Stored, a: Step) returns (hs: seq<Happening>, v: State)
    requires !cfg.excluded && stored.cache.Some? && Truthy(stored.cache.value.data) && Plain(a)
    ensures |hs| == 4 && hs[0] == Happening.Update(a, true) && !v.crashed
    ensures var w := WrittenBy(a, stored.cache);
      RunAll(cfg, stored, hs) == Some(System([v], None, Some(w.snapshot), Some(w.snapshot), [stored.cache], [w], {}))
  {
    var h0, h1 := Happening.Update(a, true), At(0, LoadDone(stored.cache));
    var s0 := Begin(stored);
    UpdateAsks(cfg, stored, s0, a);
    Asks(cfg, a);
    RunOn(cfg, stored, [], h0);
    var s1 := Happen(cfg, stored, s0, h0);
    var t := Occur(cfg, INITIAL, Submit(a, true));
    assert s1 == System([t], Some(0), stored.cache, stored.storage, [stored.cache], [], {});
    LoadWrites(cfg, stored, s1, 0, a);
    Loads(cfg, t, a, stored.cache);
    RunOn(cfg, stored, [] + [h0], h1);
    assert LoadAnswer(cfg, s1, 0) == stored.cache && !Missing(stored.cache);
    assert [t][0 := Occur(cfg, t, h1.e)] == [Occur(cfg, t, h1.e)] && [] + [WrittenBy(a, stored.cache)] == [WrittenBy(a, stored.cache)];
    hs, v := AndEnds(cfg, stored, [] + [h0] + [h1], a, Occur(cfg, t, LoadDone(stored.cache)));
  }

  lemma AndEnds(cfg: Config, stored: Stored, past: seq<Happening>, a: Step, u: State) returns (hs: seq<Happening>, v: State)
    requires !cfg.excluded && stored.cache.Some? && Plain(a) && |past| == 2
    requires var w := WrittenBy(a, stored.cache);
      && InFlight(cfg, u, [], w) && u.steps == [] && u.data != Null && u.storageCalls != [] && !u.crashed
      && RunAll(cfg, stored, past) == Some(System([u], Some(0), Some(w.snapshot), Some(w.snapshot), [stored.cache], [w], {}))
    ensures |hs| == 4 && hs[..2] == past && !v.crashed
    ensures var w := WrittenBy(a, stored.cache);
      RunAll(cfg, stored, hs) == Some(System([v], None, Some(w.snapshot), Some(w.snapshot), [stored.cache], [w], {}))
  {
    var sys := RunAll(cfg, stored, past).value;
    v := AnswersEnd(cfg, stored, sys, 0, WrittenBy(a, stored.cache));
    RunOn(cfg, stored, past, At(0, StorageDone(0, false)));
    RunOn(cfg, stored, past + [At(0, StorageDone(0, false))], At(0, CacheDone(0, false)));
    hs := past + [At(0, StorageDone(0, false))] + [At(0, CacheDone(0, false))];
    assert [u][0 := v] == [v];
  }

  /** A patch without a path that carries nothing, and then any other plain message, both allowed to
      create the record: the first is written with the version after the loaded one; the second begins
      anew and is written with version 1, which for a record of version 0 is the same one. */
  lemma FalsyPatchWinsTwice(cfg: Config, stored: Stored, a: Step, b: Step) returns (hs: seq<Happening>)
    requires !cfg.excluded && stored.cache.Some? && Truthy(stored.cache.value.data)
    requires Plain(a) && a.message.payload.value == Undefined && Plain(b)
    ensures |hs| == 6 && hs[0] == Happening.Update(a, true) && hs[4] == Happening.Update(b, true)
    ensures RunAll(cfg, stored, hs).Some?
    ensures var sys := RunAll(cfg, stored, hs).value;
      && sys.writes == [WrittenBy(a, stored.cache), WrittenBy(b, None)] && sys.restarts == {1}
      && sys.writes[0].snapshot.version == stored.cache.value.version + 1 && sys.writes[1].snapshot.version == 1
      && sys.cache == Some(sys.writes[1].snapshot)
  {
    var four, v := OneMessage(cfg, stored, a);
    hs := ThenBegins(cfg, stored, four, v, WrittenBy(a, stored.cache), b);
    assert hs[..4] == four;
  }

  lemma ThenBegins(cfg: Config, stored: Stored, past: seq<Happening>, v: State, w: Written, b: Step) returns (hs: seq<Happening>)
    requires !cfg.excluded && Plain(b) && !v.crashed && !Truthy(w.snapshot.data)
    requires RunAll(cfg, stored, past) == Some(System([v], None, Some(w.snapshot), Some(w.snapshot), [stored.cache], [w], {}))
    ensures hs == past + [Happening.Update(b, true)] + [At(1, LoadDone(None))]
    ensures RunAll(cfg, stored, hs).Some?
    ensures var sys := RunAll(cfg, stored, hs).value;
      sys.writes == [w, WrittenBy(b, None)] && sys.restarts == {1} && sys.cache == Some(WrittenBy(b, None).snapshot)
  {
    var sys := RunAll(cfg, stored, past).value;
    UpdateAsks(cfg, stored, sys, b);
    Asks(cfg, b);
    RunOn(cfg, stored, past, Happening.Update(b, true));
    var t := Occur(cfg, INITIAL, Submit(b, true));
    var asking := Happen(cfg, stored, sys, Happening.Update(b, true));
    assert asking == System([v, t], Some(1), Some(w.snapshot), Some(w.snapshot), [stored.cache, Some(w.snapshot)], [w], {});
    LoadWrites(cfg, stored, asking, 1, b);
    assert LoadAnswer(cfg, asking, 1) == None;
    RunOn(cfg, stored, past + [Happening.Update(b, true)], At(1, LoadDone(None)));
    hs := past + [Happening.Update(b, true)] + [At(1, LoadDone(None))];
  }

  /** A falsy value that is loaded for an excluded name hangs the process if an answer VERSION_EXISTS is
      waiting for it: two explicit versions sent during the load are enough. */
  lemma FalsyLoadHangs(cfg: Config, a: Step, b: Step, upsert: bool, found: Snapshot)
    requires !BadData(a.message) && a.message.version != -1 && b.message.version != -1 && b.message.version <= a.message.version
    requires !Truthy(found.data) && found.data != Null
    ensures var run := Run(cfg, INITIAL, [] + [Submit(a, upsert)] + [Refuse(b)] + [LoadDone(Some(found))]);
      run.Some? && run.value.crashed && !run.value.destroyed
  {
    SubmitBeforeLoad(cfg, INITIAL, a, upsert);
    RunSnoc(cfg, [], INITIAL, Submit(a, upsert));
    var t := Occur(cfg, INITIAL, Submit(a, upsert));
    RunSnoc(cfg, [] + [Submit(a, upsert)], t, Refuse(b));
    var u := Occur(cfg, t, Refuse(b));
    assert u.existing == [b];
    RunSnoc(cfg, [] + [Submit(a, upsert)] + [Refuse(b)], u, LoadDone(Some(found)));
  }
}
