/** What discovery comes to, in every run: who provides a name and for how long, whom a search asks,
    and how it ends. */
module ListenerOutcomes {
  import opened Common
  import opened Listener
  import S = StateRegistry

  // ---------- A name provided here is a name held here ----------

  /** The count that the registry keeps for the name is the one of a single addition while the name is
      provided, and still can be while it is searched for. */
  ghost predicate Owned(l: State, x: string) {
    && (x in S.Held(l.registry, l.registry.self) <==> x in l.provided)
    && (x in l.provided ==> l.registry.data[x].localCount == 1)
    && (x in l.inProgress ==> x !in l.provided)
    && (x in l.inProgress && x in l.registry.data ==> l.registry.data[x].localCount == 1)
  }

  lemma StartOwned(l: State, name: string, attempt: Attempt, x: string)
    requires Owned(l, x)
    ensures Owned(StartSearch(l, name, attempt), x)
  {
  }

  lemma TriggerOwned(l: State, name: string, x: string)
    requires Owned(l, x)
    ensures Owned(TriggerNext(l, name), x)
  {
  }

  lemma AcceptOwned(l: State, name: string, provider: Provider, x: string)
    requires Owned(l, x) && name in l.inProgress
    ensures Owned(Accept(l, name, provider), x)
  {
  }

  lemma RemoveActiveOwned(l: State, name: string, known: bool, attempt: Attempt, x: string)
    requires Owned(l, x) && Owned(l, name) && name in l.provided
    ensures Owned(RemoveActive(l, name, known, attempt), x)
  {
    var registry := S.Remove(l.registry, name).0;
    ReleaseOwned(l, name, x);
    StartOwned(l.(registry := registry, provided := l.provided - {name}), name, attempt, x);
    RemoveActiveLast(l, name, known, attempt);
  }

  lemma ReleaseOwned(l: State, name: string, x: string)
    requires Owned(l, x) && Owned(l, name) && name in l.provided
    ensures Owned(l.(registry := S.Remove(l.registry, name).0, provided := l.provided - {name}), x)
  {
    S.RemoveHeld(l.registry, name, l.registry.self);
  }

  /** Taking the name off `provided` before or after the search makes no difference. */
  lemma RemoveActiveLast(l: State, name: string, known: bool, attempt: Attempt)
    ensures var registry := S.Remove(l.registry, name).0;
      var without := l.(registry := registry, provided := l.provided - {name});
      RemoveActive(l, name, known, attempt) ==
      if Vanishes(l.registry, registry, name) && known then StartSearch(without, name, attempt) else without
  {
    StartApart(l.(registry := S.Remove(l.registry, name).0), name, attempt, l.provided - {name});
  }

  lemma StartApart(l: State, name: string, attempt: Attempt, provided: map<string, Provider>)
    ensures StartSearch(l.(provided := provided), name, attempt) == StartSearch(l, name, attempt).(provided := provided)
  {
    if Grants(attempt) && name !in l.held {
      var locked := Note(l.(held := l.held + {name}), Acquired(name));
      assert Note(l.(provided := provided, held := l.held + {name}), Acquired(name)) == locked.(provided := provided);
      LockedApart(locked, name, attempt.candidates, provided);
    }
  }

  lemma LockedApart(l: State, name: string, candidates: seq<Provider>, provided: map<string, Provider>)
    requires candidates != []
    ensures ReleaseLock(l.(provided := provided), name) == ReleaseLock(l, name).(provided := provided)
    ensures Ask(l.(provided := provided), name, candidates[0], candidates[1..]) == Ask(l, name, candidates[0], candidates[1..]).(provided := provided)
  {
  }

  lemma RegistryOwned(l: State, e: Event, x: string)
    requires Owned(l, x) && Possible(l, e) && (e.RemoteAdded? || e.RemoteRemoved?)
    ensures Owned(Step(l, e), x)
  {
    match e
    case RemoteAdded(name, server) => S.AddToServerHeld(l.registry, name, server, l.registry.self);
    case RemoteRemoved(name, server, known, attempt) =>
      var u := l.(registry := S.RemoveFromServer(l.registry, name, server));
      S.RemoveFromServerHeld(l.registry, name, server, l.registry.self);
      StartOwned(u, name, attempt, x);
  }

  lemma StepOwned(l: State, e: Event, x: string)
    requires (forall y :: Owned(l, y)) && Possible(l, e)
    ensures Owned(Step(l, e), x)
  {
    assert Owned(l, x);
    match e
    case SearchFor(name, attempt) => StartOwned(l, name, attempt, x);
    case LockAnswered(i, success) =>
      var (name, candidates) := l.pending[i];
      var u := l.(pending := l.pending[..i] + l.pending[i + 1..]);
      if success { StartOwned(u, name, Attempt(candidates, Granted), x); }
    case NewListener(name, provider) =>
    case Accepted(name, provider) =>
      if name in l.inProgress { AcceptOwned(l.(timers := l.timers - {l.inProgress[name].timer}), name, provider, x); }
    case Rejected(name) =>
      if name in l.inProgress { TriggerOwned(l.(timers := l.timers - {l.inProgress[name].timer}), name, x); }
    case TimerFired(timer) => TriggerOwned(Note(l.(timers := l.timers - {timer}), TimedOut(l.timers[timer])), l.timers[timer], x);
    case LeftSearch(name, p) =>
    case LeftProvided(name, p, known, first, local, second) =>
      if name in l.provided && l.provided[name] == p {
        assert Owned(l, name);
        RemoveActiveOwned(l, name, known, first, x);
        StartOwned(RemoveActive(l, name, known, first), name, second, x);
      }
    case LastSubscriberLeft(name, known, attempt) =>
      if name in l.provided {
        assert Owned(l, name);
        RemoveActiveOwned(Note(l, PatternRemoved(name, l.provided[name])), name, known, attempt, x);
      }
    case RemoteAdded(_, _) => RegistryOwned(l, e, x);
    case RemoteRemoved(_, _, _, _) => RegistryOwned(l, e, x);
  }

  /** In every run a server holds exactly the names that one of its listeners provides: discovery never
      adds a name that it released while others held it, so the count of `ReferenceCounts` stays right. */
  lemma {:induction false} ProvidedIsHeld(self: string, events: seq<Event>, x: string)
    requires Run(self, events).Some?
    ensures Owned(Run(self, events).value, x)
    decreases |events|
  {
    if events != [] {
      var before := events[..|events| - 1];
      forall y ensures Owned(Run(self, before).value, y) { ProvidedIsHeld(self, before, y); }
      StepOwned(Run(self, before).value, events[|events| - 1], x);
    }
  }

  // ---------- The provider is the last one that accepted ----------

  /** Who accepted the name last while it was searched for, unless that provider left since, or the last
      subscriber did. */
  function ProviderOf(self: string, events: seq<Event>, x: string): Option<Provider>
    decreases |events|
  {
    if events == [] then None
    else
      var past := events[..|events| - 1];
      var now := ProviderOf(self, past, x);
      var l := Run(self, past);
      match events[|events| - 1]
      case Accepted(name, p) => if name == x && l.Some? && x in l.value.inProgress then Some(p) else now
      case LeftProvided(name, p, _, _, _, _) => if name == x && now == Some(p) then None else now
      case LastSubscriberLeft(name, _, _) => if name == x then None else now
      case _ => now
  }

  function Provided(l: State, x: string): Option<Provider> {
    if x in l.provided then Some(l.provided[x]) else None
  }

  /** In every run the provider of a name is the one whose acceptance, of a search under way, is the last
      of the acceptances and departures; and the server holds the name in the cluster exactly then. */
  lemma {:induction false} ProviderIsLastAccepted(self: string, events: seq<Event>, x: string)
    requires Run(self, events).Some?
    ensures var l := Run(self, events).value;
      && Provided(l, x) == ProviderOf(self, events, x)
      && (x in S.Held(l.registry, l.registry.self) <==> ProviderOf(self, events, x).Some?)
    decreases |events|
  {
    ProvidedIsHeld(self, events, x);
    if events != [] {
      var before := events[..|events| - 1];
      ProviderIsLastAccepted(self, before, x);
      ProvidedStep(Run(self, before).value, events[|events| - 1], x);
    }
  }

  lemma ProvidedStep(l: State, e: Event, x: string)
    requires Possible(l, e)
    ensures Provided(Step(l, e), x) ==
      match e
      case Accepted(name, p) => if name == x && x in l.inProgress then Some(p) else Provided(l, x)
      case LeftProvided(name, p, _, _, _, _) => if name == x && Provided(l, x) == Some(p) then None else Provided(l, x)
      case LastSubscriberLeft(name, _, _) => if name == x then None else Provided(l, x)
      case _ => Provided(l, x)
  {
    match e
    case LeftProvided(name, p, known, first, local, second) =>
      RemoveActiveProvides(l, name, known, first, x);
      StartProvides(RemoveActive(l, name, known, first), name, second);
    case LastSubscriberLeft(name, known, attempt) =>
      if name in l.provided { RemoveActiveProvides(Note(l, PatternRemoved(name, l.provided[name])), name, known, attempt, x); }
    case _ =>
  }

  lemma StartProvides(l: State, name: string, attempt: Attempt)
    ensures StartSearch(l, name, attempt).provided == l.provided
  {
  }

  lemma RemoveActiveProvides(l: State, name: string, known: bool, attempt: Attempt, x: string)
    ensures Provided(RemoveActive(l, name, known, attempt), x) == if name == x then None else Provided(l, x)
  {
    StartProvides(l.(registry := S.Remove(l.registry, name).0), name, attempt);
  }

  // ---------- How a search begins, whom it asks, how it ends ----------

  /** A search begins: the lock is taken, and the first candidate is asked, with a timer. */
  ghost predicate Begins(l: State, u: State, x: string, candidates: seq<Provider>) {
    && candidates != []
    && x in u.inProgress && u.inProgress[x] == Search(candidates[0], candidates[1..], l.nextTimer)
    && u.held == l.held + {x} && u.timers == l.timers[l.nextTimer := x]
    && u.trace == After(After(l.trace, Acquired(x)), Asked(x, candidates[0]))
  }

  /** A lock that is granted begins a search exactly if the cluster has no provider; otherwise it is given
      back at once. */
  lemma GrantBegins(l: State, x: string, candidates: seq<Provider>)
    requires candidates != [] && x !in l.held && x !in l.inProgress
    ensures var u := LockAcquired(l, x, candidates);
      && (Begins(l, u, x, candidates) <==> x !in l.registry.data)
      && (x in u.inProgress <==> x !in l.registry.data)
      && (x in l.registry.data ==> u.inProgress == l.inProgress && x !in u.held && u.trace == After(After(l.trace, Acquired(x)), Released(x)))
  {
  }

  predicate Grants(attempt: Attempt) {
    attempt.candidates != [] && attempt.answer.Granted?
  }

  /** In every run, a name not searched for: a request for a search makes it searched for exactly if there
      are candidates, the lock is granted at once, and the cluster has no provider, and then the first
      candidate is asked; a lock answer that comes later does the same. */
  lemma SearchBeginsIff(self: string, events: seq<Event>, e: Event, x: string)
    requires Run(self, events).Some? && x !in Run(self, events).value.inProgress
    requires Possible(Run(self, events).value, e) && !e.LeftProvided? && !e.LastSubscriberLeft? && !e.RemoteRemoved?
    ensures var l := Run(self, events).value; var u := Step(l, e);
      && (x in u.inProgress <==>
           x !in l.registry.data &&
           match e
           case SearchFor(name, attempt) => name == x && Grants(attempt)
           case LockAnswered(i, success) => l.pending[i].0 == x && success
           case _ => false)
      && (x in u.inProgress ==>
           Begins(l.(pending := u.pending), u, x, if e.SearchFor? then e.attempt.candidates else l.pending[e.i].1))
  {
    DiscoveryIsSound(self, events, x);
    var l := Run(self, events).value;
    if e.SearchFor? && e.name == x && Grants(e.attempt) {
      GrantBegins(l, x, e.attempt.candidates);
    }
    if e.LockAnswered? && e.success && l.pending[e.i].0 == x {
      GrantBegins(l.(pending := l.pending[..e.i] + l.pending[e.i + 1..]), x, l.pending[e.i].1);
    }
  }

  /** The candidate asked last. */
  function LastAsked(h: History, x: string): Option<Provider> {
    match h
    case Start => None
    case After(past, Asked(name, p)) => if name == x then Some(p) else LastAsked(past, x)
    case After(past, _) => LastAsked(past, x)
  }

  ghost predicate AskedLast(l: State, x: string) {
    x in l.inProgress ==> x in l.held && LastAsked(l.trace, x) == Some(l.inProgress[x].query)
  }

  lemma StartAsks(l: State, name: string, attempt: Attempt, x: string)
    requires AskedLast(l, x)
    ensures AskedLast(StartSearch(l, name, attempt), x)
  {
  }

  lemma RemoveActiveAsks(l: State, name: string, known: bool, attempt: Attempt, x: string)
    requires AskedLast(l, x)
    ensures AskedLast(RemoveActive(l, name, known, attempt), x)
  {
    StartAsks(l.(registry := S.Remove(l.registry, name).0), name, attempt, x);
  }

  lemma StopAsks(l: State, name: string, x: string)
    requires AskedLast(l, x)
    ensures AskedLast(StopSearch(l, name), x)
  {
    var freed := ReleaseLock(l, name).(inProgress := l.inProgress - {name});
    assert AskedLast(freed, x);
  }

  lemma TriggerAsks(l: State, name: string, x: string)
    requires AskedLast(l, x)
    ensures AskedLast(TriggerNext(l, name), x)
  {
    StopAsks(l, name, x);
  }

  lemma StepAsks(l: State, e: Event, x: string)
    requires AskedLast(l, x) && Possible(l, e)
    ensures AskedLast(Step(l, e), x)
  {
    match e
    case Accepted(name, p) =>
      if name in l.inProgress {
        StopAsks(l.(timers := l.timers - {l.inProgress[name].timer}, provided := l.provided[name := p], registry := S.Add(l.registry, name).0), name, x);
      }
    case Rejected(name) =>
      if name in l.inProgress { TriggerAsks(l.(timers := l.timers - {l.inProgress[name].timer}), name, x); }
    case TimerFired(timer) => TriggerAsks(Note(l.(timers := l.timers - {timer}), TimedOut(l.timers[timer])), l.timers[timer], x);
    case LeftSearch(name, p) =>
      if name in l.inProgress {
        var search := l.inProgress[name];
        StopAsks(l.(inProgress := l.inProgress[name := search.(remaining := Filter(search.remaining, p))]), name, x);
      }
    case LockAnswered(i, success) =>
      if success {
        StartAsks(l.(pending := l.pending[..i] + l.pending[i + 1..]), l.pending[i].0, Attempt(l.pending[i].1, Granted), x);
      }
    case LeftProvided(name, p, known, first, local, second) =>
      RemoveActiveAsks(l, name, known, first, x);
      StartAsks(RemoveActive(l, name, known, first), name, second, x);
    case LastSubscriberLeft(name, known, attempt) =>
      if name in l.provided { RemoveActiveAsks(Note(l, PatternRemoved(name, l.provided[name])), name, known, attempt, x); }
    case RemoteRemoved(name, server, known, attempt) =>
      StartAsks(l.(registry := S.RemoveFromServer(l.registry, name, server)), name, attempt, x);
    case _ =>
  }

  /** In every run the candidate in turn is the one asked last. */
  lemma {:induction false} InTurnIsAskedLast(self: string, events: seq<Event>, x: string)
    requires Run(self, events).Some?
    ensures AskedLast(Run(self, events).value, x)
    decreases |events|
  {
    if events != [] {
      var before := events[..|events| - 1];
      InTurnIsAskedLast(self, before, x);
      StepAsks(Run(self, before).value, events[|events| - 1], x);
    }
  }

  lemma {:induction false} FilterKeeps(providers: seq<Provider>, p: Provider)
    ensures Filter(providers, p) == [] <==> p !in providers
    ensures forall q :: q in Filter(providers, p) ==> q == p
    ensures |Filter(providers, p)| == multiset(providers)[p]
  {
    if providers != [] {
      FilterKeeps(providers[1..], p);
      assert providers == [providers[0]] + providers[1..];
    }
  }

  /** The search is over: its lock is given back, and the other servers are told that it was unsuccessful
      exactly if nobody in the cluster provides the name now. */
  ghost predicate Ends(l: State, u: State, x: string, past: History) {
    && x !in u.inProgress && x !in u.held
    && u.trace == if x in u.registry.data then After(past, Released(x)) else After(After(past, Released(x)), Unsuccessful(x))
  }

  /** In every run an answer that accepts ends the search: its sender is the provider from then on, this
      server holds the name in the cluster, and nothing is told to be unsuccessful. */
  lemma AcceptedProvides(self: string, events: seq<Event>, x: string, p: Provider)
    requires Run(self, events).Some? && x in Run(self, events).value.inProgress
    ensures var l := Run(self, events).value; var u := Step(l, Accepted(x, p));
      && u.provided == l.provided[x := p]
      && x in S.Held(u.registry, u.registry.self)
      && x !in u.inProgress && x !in u.held && l.inProgress[x].timer !in u.timers
      && u.trace == After(l.trace, Released(x))
  {
    var l := Run(self, events).value;
    S.AddHeld(l.registry, x, l.registry.self);
  }

  /** In every run a search ends exactly with an answer that accepts, with a rejection or timeout when no
      candidate is left, or when a provider leaves that is none of the candidates left; in the last
      three cases the name stays without a provider here. */
  lemma SearchEndsIff(self: string, events: seq<Event>, e: Event, x: string)
    requires Run(self, events).Some? && x in Run(self, events).value.inProgress && Possible(Run(self, events).value, e)
    ensures var l := Run(self, events).value; var u := Step(l, e);
      && (x !in u.inProgress <==>
           || (e.Accepted? && e.name == x)
           || (Negative(l, e, x) && l.inProgress[x].remaining == [])
           || (e.LeftSearch? && e.name == x && e.provider !in l.inProgress[x].remaining))
      && (x !in u.inProgress ==> Ends(l, u, x, if e.TimerFired? then After(l.trace, TimedOut(x)) else l.trace))
      && (x !in u.inProgress && !e.Accepted? ==> x !in u.provided)
  {
    DiscoveryIsSound(self, events, x);
    var l := Run(self, events).value;
    if e.Accepted? && e.name == x { AcceptedProvides(self, events, x, e.provider); }
    if e.LeftSearch? && e.name == x { FilterKeeps(l.inProgress[x].remaining, e.provider); }
    if IsApart(e) { ApartLeaves(l, e, x); }
    else { OthersEnd(l, e, x); }
  }

  lemma OthersEnd(l: State, e: Event, x: string)
    requires Sound(l, x) && x in l.inProgress && Possible(l, e) && !IsApart(e)
    ensures var u := Step(l, e);
      && (x !in u.inProgress <==>
           || (e.Accepted? && e.name == x)
           || (Negative(l, e, x) && l.inProgress[x].remaining == [])
           || (e.LeftSearch? && e.name == x && Filter(l.inProgress[x].remaining, e.provider) == []))
      && (x !in u.inProgress ==> Ends(l, u, x, if e.TimerFired? then After(l.trace, TimedOut(x)) else l.trace))
      && (x !in u.inProgress && !e.Accepted? ==> x !in u.provided)
  {
    match e
    case Rejected(name) => if name in l.inProgress { TriggerEnds(l.(timers := l.timers - {l.inProgress[name].timer}), name, x); }
    case TimerFired(timer) => TriggerEnds(Note(l.(timers := l.timers - {timer}), TimedOut(l.timers[timer])), l.timers[timer], x);
    case LeftSearch(name, p) =>
      if name in l.inProgress {
        var search := l.inProgress[name];
        StopEnds(l.(inProgress := l.inProgress[name := search.(remaining := Filter(search.remaining, p))]), name, x);
      }
    case Accepted(name, p) =>
    case NewListener(_, _) =>
    case LockAnswered(i, success) =>
  }

  lemma StopEnds(l: State, name: string, x: string)
    requires name in l.inProgress && x in l.inProgress
    ensures var u := StopSearch(l, name);
      && (x !in u.inProgress <==> name == x)
      && (name == x ==> Ends(l, u, x, l.trace)) && u.provided == l.provided
  {
  }

  lemma TriggerEnds(l: State, name: string, x: string)
    requires x in l.inProgress
    ensures var u := TriggerNext(l, name);
      && (x !in u.inProgress <==> name == x && l.inProgress[x].remaining == [])
      && (x !in u.inProgress ==> Ends(l, u, x, l.trace)) && u.provided == l.provided
  {
    if name in l.inProgress { StopEnds(l, name, x); }
  }

  // ---------- When a provider leaves ----------

  /** After a provider left, a name is searched for again exactly if no other server holds it and a lock is
      granted: for its subscribers anywhere, or else for those on this server. */
  lemma LeavingSearchesAgain(
    self: string, events: seq<Event>, x: string, p: Provider, known: bool, first: Attempt, local: bool, second: Attempt)
    requires Run(self, events).Some? && Provided(Run(self, events).value, x) == Some(p)
    ensures var l := Run(self, events).value; var u := Step(l, LeftProvided(x, p, known, first, local, second));
      && x !in u.provided && x !in S.Held(u.registry, u.registry.self)
      && (x in u.inProgress <==> x !in u.registry.data && ((known && Grants(first)) || (local && Grants(second))))
      && x in l.registry.data && (x in u.registry.data <==> l.registry.data[x].nodes != {l.registry.self})
      && (x in u.inProgress ==>
           u.inProgress[x].query == (if known && Grants(first) then first else second).candidates[0])
  {
    DiscoveryIsSound(self, events, x);
    ProvidedIsHeld(self, events, x);
    var l := Run(self, events).value;
    ReleaseGone(l, x, p, known, first, local, second);
    var u := Gone(l, x);
    GoneStarts(u, x, first);
    GoneStarts(if x !in u.registry.data && known then StartSearch(u, x, first) else u, x, second);
  }

  /** A search starts, at most once, if the name has no holder. */
  lemma GoneStarts(l: State, x: string, attempt: Attempt)
    requires x in l.held <==> x in l.inProgress
    requires x in l.inProgress ==> x !in l.registry.data
    ensures var u := StartSearch(l, x, attempt);
      && u.provided == l.provided && u.registry == l.registry
      && (x in u.held <==> x in u.inProgress)
      && (x in u.inProgress <==> x in l.inProgress || (Grants(attempt) && x !in l.registry.data))
      && (x in l.inProgress ==> u.inProgress[x] == l.inProgress[x])
      && (x !in l.inProgress && x in u.inProgress ==> u.inProgress[x].query == attempt.candidates[0])
  {
  }

  lemma ReleaseGone(l: State, x: string, p: Provider, known: bool, first: Attempt, local: bool, second: Attempt)
    requires Sound(l, x) && Owned(l, x) && Provided(l, x) == Some(p)
    ensures var registry := S.Remove(l.registry, x).0;
      && registry.self == l.registry.self && x !in S.Held(registry, registry.self) && x in l.registry.data
      && (x in registry.data <==> l.registry.data[x].nodes != {l.registry.self})
    ensures var registry := S.Remove(l.registry, x).0;
      Step(l, LeftProvided(x, p, known, first, local, second)) ==
      (var u := if x !in registry.data && known then StartSearch(Gone(l, x), x, first) else Gone(l, x);
       if local then StartSearch(u, x, second) else u)
  {
    S.RemoveHeld(l.registry, x, l.registry.self);
    RemoveActiveLast(l, x, known, first);
  }

  function Gone(l: State, x: string): State {
    l.(registry := S.Remove(l.registry, x).0, provided := l.provided - {x})
  }

  /** The last subscriber of a name provided here leaves: the provider that accepted last is told, and the
      name is searched for again only if it has subscribers elsewhere, no holder, and a lock is granted. */
  lemma LastSubscriberEndsIt(self: string, events: seq<Event>, x: string, known: bool, attempt: Attempt)
    requires Run(self, events).Some?
    ensures var l := Run(self, events).value; var u := Step(l, LastSubscriberLeft(x, known, attempt));
      match ProviderOf(self, events, x)
      case None => u == l
      case Some(p) =>
        var told := After(l.trace, PatternRemoved(x, p));
        && x !in u.provided && x !in S.Held(u.registry, u.registry.self)
        && (x in u.inProgress <==> known && x !in u.registry.data && Grants(attempt))
        && u.trace == if x in u.inProgress then After(After(told, Acquired(x)), Asked(x, attempt.candidates[0])) else told
  {
    ProviderIsLastAccepted(self, events, x);
    var l := Run(self, events).value;
    if x in l.provided {
      DiscoveryIsSound(self, events, x);
      ProvidedIsHeld(self, events, x);
      var told := Note(l, PatternRemoved(x, l.provided[x]));
      S.RemoveHeld(l.registry, x, l.registry.self);
      RemoveActiveLast(told, x, known, attempt);
      if x !in S.Remove(l.registry, x).0.data { StartAfter(Gone(told, x), x, attempt); }
    }
  }

  lemma StartAfter(l: State, x: string, attempt: Attempt)
    requires x !in l.held && x !in l.inProgress && x !in l.registry.data
    ensures var u := StartSearch(l, x, attempt);
      && u.provided == l.provided && u.registry == l.registry
      && (x in u.inProgress <==> Grants(attempt))
      && u.trace == if x in u.inProgress then After(After(l.trace, Acquired(x)), Asked(x, attempt.candidates[0])) else l.trace
  {
  }

  /** Another server's provider goes: the name is searched for here exactly if that server was its only holder,
      it has subscribers, and a lock is granted. */
  lemma RemoteGoneSearches(self: string, events: seq<Event>, x: string, server: string, known: bool, attempt: Attempt)
    requires Run(self, events).Some? && x !in Run(self, events).value.inProgress && server != Run(self, events).value.registry.self
    ensures var l := Run(self, events).value; var u := Step(l, RemoteRemoved(x, server, known, attempt));
      && (x in u.inProgress <==> x in l.registry.data && l.registry.data[x].nodes - {server} == {} && known && Grants(attempt))
      && (x in u.inProgress ==> u.inProgress[x].query == attempt.candidates[0])
      && u.provided == l.provided
  {
    DiscoveryIsSound(self, events, x);
    var l := Run(self, events).value;
    var registry := S.RemoveFromServer(l.registry, x, server);
    if Vanishes(l.registry, registry, x) { StartAfter(l.(registry := registry), x, attempt); }
  }
}
