/** The order in which a search asks. */
module ListenerOrder {
  import opened Listener
  import opened ListenerOutcomes
  import S = StateRegistry

  /** Those asked since the lock was taken last, oldest first. */
  function AskedSince(h: History, x: string): seq<Provider> {
    match h
    case Start => []
    case After(past, Acquired(name)) => if name == x then [] else AskedSince(past, x)
    case After(past, Asked(name, p)) => AskedSince(past, x) + (if name == x then [p] else [])
    case After(past, _) => AskedSince(past, x)
  }

  /** Those asked and those left to ask. */
  function Row(l: State, x: string): seq<Provider> {
    if x in l.inProgress then AskedSince(l.trace, x) + l.inProgress[x].remaining else []
  }

  /** What the row is if everybody keeps his place: whom the search began with, and then each new listener. */
  function Lineup(self: string, events: seq<Event>, x: string): seq<Provider>
    decreases |events|
  {
    if events == [] then []
    else
      var past, e := events[..|events| - 1], events[|events| - 1];
      var l, u := Run(self, past), Run(self, events);
      if l.None? || u.None? || x !in u.value.inProgress then []
      else if x !in l.value.inProgress then [u.value.inProgress[x].query] + u.value.inProgress[x].remaining
      else Lineup(self, past, x) + (if e.NewListener? && e.name == x then [e.provider] else [])
  }

  /** In step with `Row`, while the search goes on or when it begins. */
  ghost predicate InRow(l: State, u: State, x: string) {
    && (x in u.inProgress <==> x in u.held)
    && (x in u.inProgress ==> Row(u, x) == if x in l.inProgress then Row(l, x) else [u.inProgress[x].query] + u.inProgress[x].remaining)
  }

  lemma StartsRow(l: State, x: string, candidates: seq<Provider>)
    requires candidates != [] && x !in l.inProgress
    ensures InRow(l, LockAcquired(l, x, candidates), x)
  {
    if !HasActiveProvider(l, x) {
      var u := LockAcquired(l, x, candidates);
      assert u.trace == After(After(l.trace, Acquired(x)), Asked(x, candidates[0]));
      assert AskedSince(u.trace, x) == [] + [candidates[0]];
    }
  }

  lemma OtherInRow(l: State, name: string, candidates: seq<Provider>, x: string)
    requires candidates != [] && name != x && (x in l.inProgress <==> x in l.held)
    ensures InRow(l, LockAcquired(l, name, candidates), x)
  {
    var u := LockAcquired(l, name, candidates);
    assert x in u.inProgress <==> x in l.inProgress;
    assert x in l.inProgress ==> u.inProgress[x] == l.inProgress[x];
    var locked := After(l.trace, Acquired(name));
    assert u.trace == After(locked, Released(name)) || u.trace == After(locked, Asked(name, candidates[0]));
    assert AskedSince(u.trace, x) == AskedSince(locked, x) == AskedSince(l.trace, x);
  }

  lemma StartInRow(l: State, name: string, attempt: Attempt, x: string)
    requires x in l.inProgress <==> x in l.held
    ensures InRow(l, StartSearch(l, name, attempt), x)
  {
    if Grants(attempt) && name !in l.held {
      if name == x { StartsRow(l, x, attempt.candidates); } else { OtherInRow(l, name, attempt.candidates, x); }
    }
  }

  lemma RemoveActiveInRow(l: State, name: string, known: bool, attempt: Attempt, x: string)
    requires x in l.inProgress <==> x in l.held
    ensures InRow(l, RemoveActive(l, name, known, attempt), x)
  {
    StartInRow(l.(registry := S.Remove(l.registry, name).0), name, attempt, x);
  }

  lemma StopInRow(l: State, name: string, x: string)
    requires x in l.inProgress <==> x in l.held
    ensures InRow(l, StopSearch(l, name), x)
  {
    var freed := ReleaseLock(l, name).(inProgress := l.inProgress - {name});
    assert AskedSince(freed.trace, x) == AskedSince(l.trace, x);
  }

  lemma TriggerInRow(l: State, name: string, x: string)
    requires x in l.inProgress <==> x in l.held
    ensures InRow(l, TriggerNext(l, name), x)
  {
    StopInRow(l, name, x);
    if name in l.inProgress && l.inProgress[name].remaining != [] && name == x {
      var remaining := l.inProgress[name].remaining;
      assert AskedSince(l.trace, x) + [remaining[0]] + remaining[1..] == AskedSince(l.trace, x) + remaining;
    }
  }

  lemma AnswerInRow(l: State, e: Event, x: string)
    requires Possible(l, e) && (x in l.inProgress <==> x in l.held) && (e.Accepted? || e.Rejected? || e.TimerFired?)
    ensures InRow(l, Step(l, e), x)
  {
    match e
    case Accepted(name, p) =>
      if name in l.inProgress {
        StopInRow(l.(timers := l.timers - {l.inProgress[name].timer}, provided := l.provided[name := p], registry := S.Add(l.registry, name).0), name, x);
      }
    case Rejected(name) =>
      if name in l.inProgress { TriggerInRow(l.(timers := l.timers - {l.inProgress[name].timer}), name, x); }
    case TimerFired(timer) => TriggerInRow(Note(l.(timers := l.timers - {timer}), TimedOut(l.timers[timer])), l.timers[timer], x);
  }

  lemma StepInRow(l: State, e: Event, x: string)
    requires Possible(l, e) && (x in l.inProgress <==> x in l.held) && !(e.NewListener? && e.name == x) && !(e.LeftSearch? && e.name == x)
    ensures InRow(l, Step(l, e), x)
  {
    match e
    case SearchFor(name, attempt) => StartInRow(l, name, attempt, x);
    case LockAnswered(i, success) =>
      if success {
        StartInRow(l.(pending := l.pending[..i] + l.pending[i + 1..]), l.pending[i].0, Attempt(l.pending[i].1, Granted), x);
      }
    case Accepted(_, _) => AnswerInRow(l, e, x);
    case Rejected(_) => AnswerInRow(l, e, x);
    case TimerFired(_) => AnswerInRow(l, e, x);
    case LeftSearch(name, p) =>
      if name in l.inProgress {
        var search := l.inProgress[name];
        StopInRow(l.(inProgress := l.inProgress[name := search.(remaining := Filter(search.remaining, p))]), name, x);
      }
    case LeftProvided(name, p, known, first, local, second) =>
      RemoveActiveInRow(l, name, known, first, x);
      StartInRow(RemoveActive(l, name, known, first), name, second, x);
    case LastSubscriberLeft(name, known, attempt) =>
      if name in l.provided { RemoveActiveInRow(Note(l, PatternRemoved(name, l.provided[name])), name, known, attempt, x); }
    case RemoteRemoved(name, server, known, attempt) =>
      StartInRow(l.(registry := S.RemoveFromServer(l.registry, name, server)), name, attempt, x);
    case _ =>
  }

  /** In every run in which no provider leaves the search for the name: those asked, in the order of asking, and
      those left to ask are the candidates that the search began with and then the listeners that came
      since, in that order; nobody is skipped and nobody asked twice. */
  lemma {:induction false} AskedInOrder(self: string, events: seq<Event>, x: string)
    requires Run(self, events).Some?
    requires forall i :: 0 <= i < |events| ==> !(events[i].LeftSearch? && events[i].name == x)
    ensures Row(Run(self, events).value, x) == Lineup(self, events, x)
    decreases |events|
  {
    DiscoveryIsSound(self, events, x);
    if events != [] {
      var before, e := events[..|events| - 1], events[|events| - 1];
      AskedInOrder(self, before, x);
      DiscoveryIsSound(self, before, x);
      ProvidedIsHeld(self, before, x);
      var l := Run(self, before).value;
      if e.NewListener? && e.name == x { NewListenerInRow(l, x, e.provider); } else { StepInRow(l, e, x); }
    }
  }

  lemma NewListenerInRow(l: State, x: string, p: Provider)
    requires Owned(l, x)
    ensures Row(Step(l, NewListener(x, p)), x) == if x in l.inProgress then Row(l, x) + [p] else []
  {
    if x in l.inProgress {
      assert AskedSince(l.trace, x) + (l.inProgress[x].remaining + [p]) == Row(l, x) + [p];
    }
  }
}
