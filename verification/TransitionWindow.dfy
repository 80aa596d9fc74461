/** The window in which a write costs another one its broadcast does occur. */
module TransitionWindow {
  import opened Common
  import opened Transition
  import opened TransitionLaws
  import opened TransitionAcks
  import W = RecordWrites

  function BroadcastsIn(events: seq<Trace>, x: nat): nat {
    if events == [] then 0
    else
      var last := events[|events| - 1];
      BroadcastsIn(events[..|events| - 1], x) + (if last.Broadcast? then One(last.step.id, x) else 0)
  }

  lemma {:induction false} BroadcastsAppend(a: seq<Trace>, b: seq<Trace>, x: nat)
    ensures BroadcastsIn(a + b, x) == BroadcastsIn(a, x) + BroadcastsIn(b, x)
    decreases |b|
  {
    if b == [] {
      assert a + b == a;
    } else {
      BroadcastsAppend(a, b[..|b| - 1], x);
      assert (a + b)[..|a + b| - 1] == a + b[..|b| - 1];
    }
  }

  lemma {:induction false} BroadcastsOfStores(h: History, x: nat)
    ensures Broadcasts(h, x) == BroadcastsIn(Stores(h), x)
  {
    if h.After? {
      BroadcastsOfStores(h.past, x);
      if Concerns(h.last) {
        assert (Stores(h.past) + [h.last])[..|Stores(h.past)|] == Stores(h.past);
      } else {
        assert Stores(h.past) + [] == Stores(h.past);
      }
    }
  }

  lemma {:induction false} NoneIn(events: seq<Trace>, x: nat)
    requires forall i :: 0 <= i < |events| ==> !events[i].Broadcast? || events[i].step.id != x
    ensures BroadcastsIn(events, x) == 0
  {
    if events != [] { NoneIn(events[..|events| - 1], x); }
  }

  lemma {:induction false} BlocksOfOthers(cfg: Config, done: seq<Written>, x: nat)
    requires forall i :: 0 <= i < |done| ==> done[i].step.id != x
    ensures BroadcastsIn(Blocks(cfg, done), x) == 0
    decreases |done|
  {
    if done != [] {
      var before, w := done[..|done| - 1], done[|done| - 1];
      BlocksOfOthers(cfg, before, x);
      NoneIn(Block(cfg, w), x);
      BroadcastsAppend(Blocks(cfg, before), Block(cfg, w), x);
    }
  }

  /** The write in flight has not been broadcast, if no write before it was the same step. */
  lemma NotYetBroadcast(cfg: Config, t: State, done: seq<Written>, w: Written)
    requires InFlight(cfg, t, done, w) && forall i :: 0 <= i < |done| ==> done[i].step.id != w.step.id
    ensures Broadcasts(t.trace, w.step.id) == 0
  {
    var answered := if !cfg.excluded && t.storageCalls == [] then [StorageAnswered(w.step.id)] else [];
    BroadcastsOfStores(t.trace, w.step.id);
    BlocksOfOthers(cfg, done, w.step.id);
    NoneIn(Opening(cfg, w), w.step.id);
    NoneIn(answered, w.step.id);
    BroadcastsAppend(Blocks(cfg, done) + Opening(cfg, w), answered, w.step.id);
    BroadcastsAppend(Blocks(cfg, done), Opening(cfg, w), w.step.id);
  }

  /** So with distinct steps a write accepted in the window leaves the write in flight without any
      broadcast, whatever happens afterwards. */
  lemma WindowMeansNoBroadcast(
    cfg: Config, t: State, done: seq<Written>, w: Written, step: Step, upsert: bool, more: seq<Event>)
    requires InFlight(cfg, t, done, w) && t.requested && t.data != Null && InWindow(t, step.message)
    requires step.id != w.step.id && forall i :: 0 <= i < |done| ==> done[i].step.id != w.step.id
    requires forall i :: 0 <= i < |more| && more[i].Submit? ==> more[i].step.id != w.step.id
    ensures var end := Run(cfg, Add(cfg, t, step, upsert), more);
      end.Some? ==> Broadcasts(end.value.trace, w.step.id) == 0
  {
    NotYetBroadcast(cfg, t, done, w);
    WindowLosesBroadcast(cfg, t, done, w, step, upsert, more);
  }

  /** One update queued, nothing written, and the load outstanding. */
  predicate Asking(t: State, step: Step) {
    && !t.destroyed && !t.crashed && t.requested && t.load.Some? && t.steps == [step] && t.existing == [] && t.last.None?
    && t.acks == map[] && t.storageCalls == [] && t.cacheCalls == []
    && Stores(t.trace) == [] && Summarize(t.trace, 0).cache == []
  }

  lemma Submitted(cfg: Config, step: Step, upsert: bool)
    requires !BadData(step.message) && step.message.version == -1
    ensures Asking(Occur(cfg, INITIAL, Submit(step, upsert)), step)
    ensures Occur(cfg, INITIAL, Submit(step, upsert)).load == Some(upsert)
  {
    SubmitBeforeLoad(cfg, INITIAL, step, upsert);
    var queued := Enqueue(Note(INITIAL, Received(step)), step);
    var received := After(Start, Received(step));
    assert Stores(received) == [];
    assert Stores(After(received, Accepted(step.id, step.message))) == [];
    assert queued.trace == After(received, Accepted(step.id, step.message));
  }

  /** The load is answered, and the update written. */
  lemma FirstWrite(cfg: Config, t: State, sender: Socket, snapshot: Snapshot) returns (w: Written)
    requires Asking(t, WholeUpdate(0, -1, sender).step) && Truthy(snapshot.data)
    ensures var u := Occur(cfg, t, LoadDone(Some(snapshot)));
      && InFlight(cfg, u, [], w) && w.step.id == 0 && u.requested && u.data != Null && u.steps == [] && u.last.None? && !u.crashed
      && Summarize(u.trace, 0).cache == [w]
  {
    var loaded := Note(t.(load := None, data := snapshot.data, version := snapshot.version), Loaded(snapshot));
    assert FlushExisting(loaded) == loaded;
    var step := Resolve(t.steps[0], snapshot.version);
    var taken := loaded.(steps := loaded.steps[1..], current := Some(step));
    w := Written(step, Snapshot(step.message.version, EMPTY_OBJECT));
    assert Occur(cfg, t, LoadDone(Some(snapshot))) == Next(cfg, loaded) == Write(cfg, taken, step);
    JustWritten(cfg, taken, step, w);
  }

  lemma JustWritten(cfg: Config, t: State, step: Step, w: Written)
    requires Stores(t.trace) == [] && Summarize(t.trace, 0).cache == []
    requires t.cacheCalls == [] && t.storageCalls == [] && t.acks == map[] && !t.destroyed && t.load.None? && t.current == Some(step)
    requires step.message.payload.Parsed? && Apply(cfg, t.data, step.message) == Some(w.snapshot.data)
    requires w == Written(step, Snapshot(step.message.version, w.snapshot.data))
    ensures var u := Write(cfg, t, step);
      && InFlight(cfg, u, [], w) && Summarize(u.trace, 0).cache == [w] && u.data == w.snapshot.data
      && u.steps == t.steps && u.last == t.last && u.requested == t.requested && u.crashed == t.crashed
  {
    WriteTrace(cfg, t, step, w);
    WriteSummary(cfg, t.trace, w, 0);
    WriteStores(cfg, t.trace, w);
    WriteCalls(cfg, t, step);
    assert [] + [w] == [w] && Blocks(cfg, []) == [];
    assert [] + Opening(cfg, w) == Opening(cfg, w) == [] + Opening(cfg, w) + [];
  }

  /** The window itself: a state that two events lead to from the beginning. */
  lemma WindowIsReached(cfg: Config, first: Socket, snapshot: Snapshot) returns (t: State, w: Written)
    requires Truthy(snapshot.data)
    ensures Run(cfg, INITIAL, [] + [WholeUpdate(0, -1, first)] + [LoadDone(Some(snapshot))]) == Some(t)
    ensures InFlight(cfg, t, [], w) && w.step.id == 0 && t.requested && t.data != Null && !t.crashed
    ensures Summarize(t.trace, 0).cache == [w]
    ensures forall m: Message :: !BadData(m) ==> InWindow(t, m)
  {
    var e := WholeUpdate(0, -1, first);
    Submitted(cfg, e.step, false);
    RunSnoc(cfg, [], INITIAL, e);
    var asked := Occur(cfg, INITIAL, e);
    RunSnoc(cfg, [] + [e], asked, LoadDone(Some(snapshot)));
    t := Occur(cfg, asked, LoadDone(Some(snapshot)));
    w := FirstWrite(cfg, asked, first, snapshot);
  }

  /** Two updates from anywhere, the second sent when the first is with the cache, are enough: the first
      is written and never broadcast. */
  lemma WindowOccurs(cfg: Config, first: Socket, second: Socket, snapshot: Snapshot, more: seq<Event>)
    requires Truthy(snapshot.data)
    requires forall i :: 0 <= i < |more| && more[i].Submit? ==> more[i].step.id != 0
    ensures var run := Run(cfg, INITIAL, [] + [WholeUpdate(0, -1, first)] + [LoadDone(Some(snapshot))] + [WholeUpdate(1, -1, second)]);
      && run.Some?
      && (exists w :: w in Summarize(run.value.trace, 0).cache && w.step.id == 0)
      && var end := Run(cfg, run.value, more);
      end.Some? ==> Broadcasts(end.value.trace, 0) == 0
  {
    var e, f := WholeUpdate(0, -1, first), WholeUpdate(1, -1, second);
    var t, w := WindowIsReached(cfg, first, snapshot);
    RunSnoc(cfg, [] + [e] + [LoadDone(Some(snapshot))], t, f);
    SecondUpdate(cfg, t, w, second, more);
  }

  lemma SecondUpdate(cfg: Config, t: State, w: Written, sender: Socket, more: seq<Event>)
    requires InFlight(cfg, t, [], w) && w.step.id == 0 && t.requested && t.data != Null && !t.crashed
    requires Summarize(t.trace, 0).cache == [w] && InWindow(t, WholeUpdate(1, -1, sender).step.message)
    requires forall i :: 0 <= i < |more| && more[i].Submit? ==> more[i].step.id != 0
    ensures var u := Occur(cfg, t, WholeUpdate(1, -1, sender));
      && w in Summarize(u.trace, 0).cache
      && var end := Run(cfg, u, more);
      end.Some? ==> Broadcasts(end.value.trace, 0) == 0
  {
    var step := WholeUpdate(1, -1, sender).step;
    WindowMeansNoBroadcast(cfg, t, [], w, step, false, more);
    W.AddExtends(cfg, t, step, false);
    assert Summarize(Add(cfg, t, step, false).trace, 0).cache[0] == w;
  }
}
