/** What becomes of an update that reaches the handler, in every run over all transitions of the record. */
module RecordUpdates {
  import opened Common
  import opened Transition
  import opened TransitionLaws
  import opened TransitionAnswers
  import opened RecordWrites

  /** `hasVersion` and `sendVersionExists`, called from outside the transition: an explicit version that is not
      ahead of the last one let in is VERSION_EXISTS, whatever the payload. */
  predicate IsLate(t: State, message: Message) {
    var last := LastExplicit(Summarize(t.trace, 0).accepted);
    message.version != -1 && last.Some? && message.version <= last.value
  }

  predicate Refuses(t: State, u: State, step: Step) {
    var m := step.message; var came := After(t.trace, Received(step)); var now := Shown(t.trace);
    u == if now.Some?
         then t.(trace := After(came, VersionExists(step.sender, step.id, now.value.version, now.value.data, m.isWriteAck, m.correlationId)))
         else t.(trace := came, existing := t.existing + [step])
  }

  lemma RefuseIs(cfg: Config, t: State, step: Step)
    requires Lawful(cfg, t, 0) && !t.crashed
    ensures HasVersion(t, step.message.version) <==> IsLate(t, step.message)
    ensures Refuses(t, SendVersionExists(Note(t, Received(step)), step), step)
  {
  }

  lemma AddHasFate(cfg: Config, t: State, step: Step, upsert: bool)
    requires Lawful(cfg, t, 0) && !t.crashed
    ensures Fate(t, Add(cfg, t, step, upsert), step)
  {
    if FitsIn(t.trace, step.message) {
      FateIfLetIn(cfg, t, step, upsert);
    } else {
      FateIfRefused(cfg, t, step, upsert);
    }
  }

  /** In every run an update meets one transition: the live one, or a new one if there is none. If its version
      is explicit and not ahead of the last one let in there, it is refused without a look at its payload;
      otherwise it has the fate of `TransitionAnswers.Fate`. No other transition sees it. */
  lemma UpdateMeetsOne(cfg: Config, stored: Stored, hs: seq<Happening>, step: Step, upsert: bool)
    requires RunAll(cfg, stored, hs).Some? && CanHappen(cfg, RunAll(cfg, stored, hs).value, Happening.Update(step, upsert))
    ensures var sys := RunAll(cfg, stored, hs).value; var sys' := Happen(cfg, stored, sys, Happening.Update(step, upsert));
      var live := exists i :: 0 <= i < |sys.pool| && !sys.pool[i].destroyed;
      var at := if sys.mapped.Some? then sys.mapped.value else |sys.pool|;
      && (live <==> sys.mapped.Some?) && (live ==> at < |sys.pool| && !sys.pool[at].destroyed)
      && |sys'.pool| == (if live then |sys.pool| else |sys.pool| + 1) && at < |sys'.pool|
      && (forall j :: 0 <= j < |sys.pool| && j != at ==> sys'.pool[j] == sys.pool[j])
      && var t := if live then sys.pool[at] else INITIAL;
         if IsLate(t, step.message) then Refuses(t, sys'.pool[at], step) else Fate(t, sys'.pool[at], step)
  {
    RunAllKeeps(cfg, stored, hs);
    var sys := RunAll(cfg, stored, hs).value;
    if sys.mapped.Some? {
      var t := sys.pool[sys.mapped.value];
      assert t in sys.pool;
      RefuseIs(cfg, t, step);
      AddHasFate(cfg, t, step, upsert);
    } else {
      assert Lawful(cfg, INITIAL, 0);
      AddHasFate(cfg, INITIAL, step, upsert);
      RefuseIs(cfg, INITIAL, step);
    }
  }

  // ---------- What a load is answered ----------

  /** A snapshot with data that counts: `recordRequest` tests the data for truth. */
  predicate Counts(found: Option<Snapshot>) {
    found.Some? && Truthy(found.value.data)
  }

  /** A load finds data that counts exactly if the cache has it, or storage, for names not excluded from it; and
      then the cache's if both do. What it finds otherwise does not exist for it, but for what the cache has
      under an excluded name. */
  lemma LoadFindsIff(cfg: Config, cached: Option<Snapshot>, stored: Option<Snapshot>)
    ensures var found := Answer(cfg, cached, stored);
      && (Counts(found) <==> Counts(cached) || (Counts(stored) && !cfg.excluded))
      && (Counts(cached) ==> found == cached)
      && (Counts(found) && !Counts(cached) ==> found == stored)
      && (!Counts(found) ==> found == if cfg.excluded then cached else None)
  {
  }

  // ---------- Whether a load may create the record ----------

  /** The flag of the first submission that was let in. */
  function FirstFlag(cfg: Config, events: seq<Event>): Option<bool>
    decreases |events|
  {
    if events == [] then None
    else
      var past, e := events[..|events| - 1], events[|events| - 1];
      var t := Run(cfg, INITIAL, past);
      if FirstFlag(cfg, past).Some? then FirstFlag(cfg, past)
      else if t.Some? && e.Submit? && FitsIn(t.value.trace, e.step.message) then Some(e.upsert)
      else None
  }

  /** What the first submission asked for is what an outstanding load may do. */
  ghost predicate Asked(t: State, flag: Option<bool>) {
    (t.requested <==> flag.Some?) && (t.load.Some? ==> t.load == flag)
  }

  lemma {:induction false} NextAsks(cfg: Config, t: State)
    ensures Next(cfg, t).requested == t.requested && Next(cfg, t).load == t.load
    decreases |t.steps|
  {
    if t.destroyed || t.data == Null || t.steps == [] {
    } else {
      var step := Resolve(t.steps[0], t.version);
      var taken := t.(steps := t.steps[1..], current := Some(step));
      if step.message.version <= t.version + 1 {
        if t.version != step.message.version - 1 { NextAsks(cfg, SendVersionExists(taken, step)); }
        else { WriteAsks(cfg, taken, step); }
      }
    }
  }

  lemma WriteAsks(cfg: Config, t: State, step: Step)
    ensures Write(cfg, t, step).requested == t.requested && Write(cfg, t, step).load == t.load
  {
  }

  lemma {:induction false} ResendAsks(t: State, steps: seq<Step>)
    ensures Resend(t, steps).requested == t.requested && Resend(t, steps).load == t.load
    decreases |steps|
  {
    if steps != [] { ResendAsks(SendVersionExists(t, steps[0]), steps[1..]); }
  }

  lemma AddAsks(cfg: Config, t: State, step: Step, upsert: bool)
    requires t.last == LastExplicit(Summarize(t.trace, 0).accepted)
    ensures var u := Add(cfg, t, step, upsert); var first := FitsIn(t.trace, step.message) && !t.requested;
      && u.requested == (t.requested || first)
      && u.load == if first then Some(upsert) else t.load
  {
    var queued := Enqueue(Note(t, Received(step)), step);
    NextAsks(cfg, queued);
  }

  lemma LoadAsks(cfg: Config, t: State, found: Option<Snapshot>, upsert: bool)
    ensures var u := OnRecord(cfg, t, found, upsert); u.requested == t.requested && u.load == t.load
  {
    FatalAsks(t);
    if !Missing(found) || upsert {
      var start := if Missing(found) then Snapshot(0, EMPTY_OBJECT) else found.value;
      var loaded := Note(t.(data := start.data, version := start.version), Loaded(start));
      ResendAsks(loaded, loaded.existing);
      NextAsks(cfg, FlushExisting(loaded));
    }
  }

  lemma OtherAsks(cfg: Config, t: State, e: Event)
    requires Enabled(t, e) && !e.Submit?
    ensures var u := Occur(cfg, t, e); u.requested == t.requested && (u.load == None || u.load == t.load)
  {
    match e
    case LoadDone(found) => LoadAsks(cfg, t.(load := None), found, t.load.value);
    case CacheDone(i, error) =>
      var call := t.cacheCalls[i];
      CacheAsks(cfg, Note(t.(cacheCalls := Without(t.cacheCalls, i)), CacheAnswered(call.id)), error, call.ack);
    case _ =>
  }

  lemma FatalAsks(t: State)
    ensures Fatal(t).requested == t.requested && Fatal(t).load == t.load
  {
  }

  lemma CacheAsks(cfg: Config, t: State, error: bool, ack: Option<Message>)
    ensures var u := OnCacheSet(cfg, t, error, ack); u.requested == t.requested && u.load == t.load
  {
    if t.current.Some? {
      var acked := if ack.Some? then HandleAck(t, t.current.value.sender, ack.value) else t;
      if ack.Some? { HandleAckFrame(t, t.current.value.sender, ack.value, 0); }
      FatalAsks(acked);
      NextAsks(cfg, Note(acked, Broadcast(t.current.value)));
    }
  }

  lemma {:induction false} RunAsks(cfg: Config, events: seq<Event>)
    requires Run(cfg, INITIAL, events).Some?
    ensures Asked(Run(cfg, INITIAL, events).value, FirstFlag(cfg, events))
    decreases |events|
  {
    if events != [] {
      var past, e := events[..|events| - 1], events[|events| - 1];
      RunAsks(cfg, past);
      RunKeeps(cfg, past, 0);
      var t := Run(cfg, INITIAL, past).value;
      if e.Submit? { AddAsks(cfg, t, e.step, e.upsert); } else { OtherAsks(cfg, t, e); }
    }
  }

  /** In every run the answer to the load makes the record what was found; a missing record begins as an empty
      object at version 0 exactly if the first submission that was let in allows to create it, and otherwise
      the transition fails. */
  lemma LoadBegins(cfg: Config, events: seq<Event>, found: Option<Snapshot>)
    requires Run(cfg, INITIAL, events).Some? && Enabled(Run(cfg, INITIAL, events).value, LoadDone(found))
    ensures FirstFlag(cfg, events).Some?
    ensures var u := Occur(cfg, Run(cfg, INITIAL, events).value, LoadDone(found));
      Summarize(u.trace, 0).base ==
        if !Missing(found) then found else if FirstFlag(cfg, events).value then Some(Snapshot(0, EMPTY_OBJECT)) else None
    ensures Missing(found) && !FirstFlag(cfg, events).value ==> Occur(cfg, Run(cfg, INITIAL, events).value, LoadDone(found)).destroyed
  {
    RunAsks(cfg, events);
    RunKeeps(cfg, events, 0);
    var t := Run(cfg, INITIAL, events).value;
    LoadExtends(cfg, t.(load := None), found, t.load.value);
    if !Missing(found) || t.load.value { LoadIsBase(cfg, t.(load := None), found, t.load.value); }
  }

  lemma LoadIsBase(cfg: Config, t: State, found: Option<Snapshot>, upsert: bool)
    requires Summarize(t.trace, 0).base.None? && !(Missing(found) && !upsert)
    ensures Summarize(OnRecord(cfg, t, found, upsert).trace, 0).base.Some?
  {
    var start := if Missing(found) then Snapshot(0, EMPTY_OBJECT) else found.value;
    var loaded := Note(t.(data := start.data, version := start.version), Loaded(start));
    if !Hangs(loaded) {
      ResendAnswers(loaded, loaded.existing, 0);
      NextExtends(cfg, FlushExisting(loaded));
    }
  }
}
