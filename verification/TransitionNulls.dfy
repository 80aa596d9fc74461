/** Null in a record's place: the transition that writes it never ends and never writes again. */
module TransitionNulls {
  import opened Common
  import opened Transition
  import opened TransitionLaws
  import opened TransitionAcks
  import opened TransitionGaps
  import Window = TransitionWindow

  /** Nothing is outstanding, and the data is null. */
  predicate Nulled(t: State, n: nat) {
    && !t.destroyed && !t.crashed && t.requested && t.load.None? && t.cacheCalls == [] && t.storageCalls == []
    && t.data == Null && |Summarize(t.trace, 0).cache| == n
  }

  lemma NulledHolds(cfg: Config, t: State, n: nat, e: Event)
    requires Nulled(t, n) && Enabled(t, e) && e != Stop
    ensures Nulled(Occur(cfg, t, e), n) && Occur(cfg, t, e).version == t.version
  {
    SendVersionExistsTidy(Note(t, Received(e.step)), e.step);
  }

  /** From then on no write is applied and the transition never ends, unless the record is deleted:
      whatever is sent is rejected or queued for good. */
  lemma {:induction false} NullWedges(cfg: Config, t: State, n: nat, more: seq<Event>)
    requires Nulled(t, n) && forall i :: 0 <= i < |more| ==> more[i] != Stop
    ensures Run(cfg, t, more).Some? ==> Nulled(Run(cfg, t, more).value, n) && Run(cfg, t, more).value.version == t.version
    decreases |more|
  {
    if more != [] {
      var before := more[..|more| - 1];
      NullWedges(cfg, t, n, before);
      var s := Run(cfg, t, before);
      if s.Some? && Enabled(s.value, more[|more| - 1]) {
        NulledHolds(cfg, s.value, n, more[|more| - 1]);
      }
    }
  }

  /** One patch without a path and with the payload null, asking for the next version. */
  predicate NullPatch(step: Step) {
    step.message.action == Patch && step.message.version == -1 && IsNull(step.message) && !step.message.isWriteAck
  }

  lemma NullWritten(cfg: Config, t: State, step: Step, snapshot: Snapshot) returns (w: Written)
    requires NullPatch(step) && Window.Asking(t, step) && Truthy(snapshot.data)
    ensures var u := Occur(cfg, t, LoadDone(Some(snapshot)));
      && InFlight(cfg, u, [], w) && u.data == Null && u.steps == [] && u.requested && !u.crashed && !w.step.message.isWriteAck
      && u.storageCalls == (if cfg.excluded then [] else [Callback(w.step.id, None)])
      && Summarize(u.trace, 0).cache == [w]
  {
    var loaded := Note(t.(load := None, data := snapshot.data, version := snapshot.version), Loaded(snapshot));
    var resolved := Resolve(step, snapshot.version);
    var taken := loaded.(steps := [], current := Some(resolved));
    w := Written(resolved, Snapshot(resolved.message.version, Null));
    assert FlushExisting(loaded) == loaded;
    assert loaded.steps[1..] == [];
    assert Occur(cfg, t, LoadDone(Some(snapshot))) == Next(cfg, loaded) == Write(cfg, taken, resolved);
    Window.JustWritten(cfg, taken, resolved, w);
    WriteCalls(cfg, taken, resolved);
  }

  lemma StorageAnswers(cfg: Config, t: State, w: Written)
    requires InFlight(cfg, t, [], w) && !w.step.message.isWriteAck && t.storageCalls == [Callback(w.step.id, None)] && !t.crashed
    ensures Occur(cfg, t, StorageDone(0, false)) == Note(t.(storageCalls := []), StorageAnswered(w.step.id))
  {
    WithoutOnly(Callback(w.step.id, None));
  }

  lemma CacheAnswers(cfg: Config, t: State, w: Written)
    requires t.cacheCalls == [Callback(w.step.id, None)] && t.current == Some(w.step) && t.storageCalls == []
    requires t.data == Null && t.requested && t.load.None? && !t.destroyed && !t.crashed
    ensures Nulled(Occur(cfg, t, CacheDone(0, false)), |Summarize(t.trace, 0).cache|)
  {
    WithoutOnly(Callback(w.step.id, None));
    var last := Note(Note(t.(cacheCalls := []), CacheAnswered(w.step.id)), Broadcast(w.step));
    assert Occur(cfg, t, CacheDone(0, false)) == Next(cfg, last) == last;
    assert Summarize(After(t.trace, CacheAnswered(w.step.id)), 0).cache == Summarize(t.trace, 0).cache;
  }

  /** It does occur, for every record: one such patch is written, and its transition stands still. */
  lemma NullOccurs(cfg: Config, step: Step, upsert: bool, snapshot: Snapshot) returns (events: seq<Event>)
    requires NullPatch(step) && Truthy(snapshot.data)
    ensures events == [] + [Submit(step, upsert)] + [LoadDone(Some(snapshot))] + (if cfg.excluded then [] else [StorageDone(0, false)]) + [CacheDone(0, false)]
    ensures Run(cfg, INITIAL, events).Some? && Nulled(Run(cfg, INITIAL, events).value, 1)
  {
    Window.Submitted(cfg, step, upsert);
    RunSnoc(cfg, [], INITIAL, Submit(step, upsert));
    var t := Occur(cfg, INITIAL, Submit(step, upsert));
    RunSnoc(cfg, [] + [Submit(step, upsert)], t, LoadDone(Some(snapshot)));
    events := [] + [Submit(step, upsert)] + [LoadDone(Some(snapshot))];
    var w := NullWritten(cfg, t, step, snapshot);
    var start := events;
    events := ThenAnswers(cfg, start, Occur(cfg, t, LoadDone(Some(snapshot))), w);
    assert start + [] == start;
  }

  lemma ThenAnswers(cfg: Config, past: seq<Event>, u: State, w: Written) returns (events: seq<Event>)
    requires Run(cfg, INITIAL, past) == Some(u) && InFlight(cfg, u, [], w) && !w.step.message.isWriteAck
    requires u.data == Null && u.requested && !u.crashed && |Summarize(u.trace, 0).cache| == 1
    requires u.storageCalls == if cfg.excluded then [] else [Callback(w.step.id, None)]
    ensures events == past + (if cfg.excluded then [] else [StorageDone(0, false)]) + [CacheDone(0, false)]
    ensures Run(cfg, INITIAL, events).Some? && Nulled(Run(cfg, INITIAL, events).value, 1)
  {
    var v := u;
    events := past + [];
    assert events == past;
    if !cfg.excluded {
      StorageAnswers(cfg, u, w);
      RunSnoc(cfg, past, u, StorageDone(0, false));
      v := Note(u.(storageCalls := []), StorageAnswered(w.step.id));
      events := past + [StorageDone(0, false)];
    }
    assert |Summarize(v.trace, 0).cache| == 1;
    CacheAnswers(cfg, v, w);
    RunSnoc(cfg, events, v, CacheDone(0, false));
    events := events + [CacheDone(0, false)];
  }
}
