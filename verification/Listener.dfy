/** Active-provider discovery on one server: a search for a provider of a subscription runs under a
    cluster-wide lock and asks the candidates one after the other. The names provided in the cluster
    are kept in a state registry, the one of module `StateRegistry`. */
module Listener {
  import opened Common
  import S = StateRegistry

  datatype Provider = Provider(pattern: string, socket: nat)

  /** `timer`: the response timer armed when `query` was asked. */
  datatype Search = Search(query: Provider, remaining: seq<Provider>, timer: nat)

  /** How the lock service answers `get`: at once, or by calling back later. */
  datatype LockAnswer = Granted | Refused | Later

  /** What `createLocalListenArray` returns when a search starts, and how its lock is answered. */
  datatype Attempt = Attempt(candidates: seq<Provider>, answer: LockAnswer)

  datatype Trace =
    | Acquired(name: string)
    | Released(name: string)
    | Asked(name: string, provider: Provider)
    | TimedOut(name: string)
    | Unsuccessful(name: string)
    | PatternRemoved(name: string, provider: Provider)

  datatype History = Start | After(past: History, last: Trace)

  /** `inProgress`, `provided`: the two maps of the class. `registry`: the names provided in the
      cluster. `held`: locks that this server was told it has and has not released. `pending`: lock
      requests not answered yet, with the candidates their callbacks captured. `timers`: response
      timers armed and neither cleared nor fired; `nextTimer` names the next one. */
  datatype State = State(
    inProgress: map<string, Search>,
    provided: map<string, Provider>,
    registry: S.Registry,
    held: set<string>,
    pending: seq<(string, seq<Provider>)>,
    timers: map<nat, string>,
    nextTimer: nat,
    trace: History)

  function Initial(self: string): State {
    State(map[], map[], S.Empty(self), {}, [], map[], 0, Start)
  }

  function Note(l: State, e: Trace): State {
    l.(trace := After(l.trace, e))
  }

  predicate HasActiveProvider(l: State, name: string) {
    name in l.registry.data
  }

  /** The lock service never grants a lock to a server that has it: `LockTimeouts.NoSecondGrant`. */
  function StartSearch(l: State, name: string, attempt: Attempt): State {
    if attempt.candidates == [] then l
    else match attempt.answer
      case Granted => if name in l.held then l else LockAcquired(l, name, attempt.candidates)
      case Refused => l
      case Later => l.(pending := l.pending + [(name, attempt.candidates)])
  }

  function LockAcquired(l: State, name: string, candidates: seq<Provider>): State
    requires candidates != []
  {
    var locked := Note(l.(held := l.held + {name}), Acquired(name));
    if HasActiveProvider(l, name) then ReleaseLock(locked, name)
    else Ask(locked, name, candidates[0], candidates[1..])
  }

  function ReleaseLock(l: State, name: string): State {
    Note(l.(held := l.held - {name}), Released(name))
  }

  /** A candidate is asked, and its timer armed. */
  function Ask(l: State, name: string, provider: Provider, remaining: seq<Provider>): State {
    Note(l.(inProgress := l.inProgress[name := Search(provider, remaining, l.nextTimer)],
            timers := l.timers[l.nextTimer := name], nextTimer := l.nextTimer + 1),
         Asked(name, provider))
  }

  /** `triggerNextProvider` for a search that is under way. */
  function TriggerNext(l: State, name: string): State {
    if name !in l.inProgress then l
    else
      var remaining := l.inProgress[name].remaining;
      if remaining == [] then StopSearch(l, name) else Ask(l, name, remaining[0], remaining[1..])
  }

  function StopSearch(l: State, name: string): State {
    var freed := ReleaseLock(l, name).(inProgress := l.inProgress - {name});
    if name in l.inProgress && !HasActiveProvider(l, name) then Note(freed, Unsuccessful(name)) else freed
  }

  /** `processResponseForListenInProgress`: the timer of the candidate in turn is cleared. */
  function Respond(l: State, name: string, accepted: Option<Provider>): State {
    if name !in l.inProgress then l
    else
      var cleared := l.(timers := l.timers - {l.inProgress[name].timer});
      if accepted.Some? then Accept(cleared, name, accepted.value) else TriggerNext(cleared, name)
  }

  function Accept(l: State, name: string, provider: Provider): State {
    StopSearch(l.(provided := l.provided[name := provider], registry := S.Add(l.registry, name).0), name)
  }

  /** The event that the registry emits when a name's last holder is gone. */
  predicate Vanishes(before: S.Registry, after: S.Registry, name: string) {
    name in before.data && name !in after.data
  }

  /** `removeActiveListener`. The registry may emit its event while `provided` still has the name;
      then, if the name has subscribers somewhere, a search starts right there. */
  function RemoveActive(l: State, name: string, known: bool, attempt: Attempt): State {
    var registry := S.Remove(l.registry, name).0;
    var told := OnRegistry(l, registry, name, known, attempt);
    told.(provided := told.provided - {name})
  }

  function OnRegistry(l: State, registry: S.Registry, name: string, known: bool, attempt: Attempt): State {
    var u := l.(registry := registry);
    if Vanishes(l.registry, registry, name) && known then StartSearch(u, name, attempt) else u
  }

  /** `removeListenerFromInProgress` for one search. The filter keeps the provider that left. */
  function Filter(providers: seq<Provider>, p: Provider): seq<Provider> {
    if providers == [] then [] else (if providers[0] == p then [p] else []) + Filter(providers[1..], p)
  }

  function LeaveSearch(l: State, name: string, p: Provider): State {
    if name !in l.inProgress then l
    else
      var search := l.inProgress[name];
      var kept := Filter(search.remaining, p);
      var u := l.(inProgress := l.inProgress[name := search.(remaining := kept)]);
      if kept == [] then StopSearch(u, name) else u
  }

  /** The loop over the searches under way, in the map's order. */
  function LeaveSearches(l: State, names: seq<string>, p: Provider): State
    decreases |names|
  {
    if names == [] then l else LeaveSearches(LeaveSearch(l, names[0], p), names[1..], p)
  }

  /** `removeListenerIfActive` for one name. */
  function LeaveProvided(l: State, name: string, p: Provider, known: bool, first: Attempt, local: bool, second: Attempt): State {
    if name !in l.provided || l.provided[name] != p then l
    else
      var u := RemoveActive(l, name, known, first);
      if local then StartSearch(u, name, second) else u
  }

  /** Everything that can happen. A socket that closes or stops listening leaves the searches and the
      provided names one by one. `known`: the name has subscribers somewhere in the cluster; `local`:
      it has some on this server. */
  datatype Event =
    | SearchFor(name: string, attempt: Attempt)
    | LockAnswered(i: nat, success: bool)
    | NewListener(name: string, provider: Provider)
    | Accepted(name: string, provider: Provider)
    | Rejected(name: string)
    | TimerFired(timer: nat)
    | LeftSearch(name: string, provider: Provider)
    | LeftProvided(name: string, provider: Provider, known: bool, first: Attempt, local: bool, second: Attempt)
    | LastSubscriberLeft(name: string, known: bool, attempt: Attempt)
    | RemoteAdded(name: string, server: string)
    | RemoteRemoved(name: string, server: string, known: bool, attempt: Attempt)

  predicate Possible(l: State, e: Event) {
    match e
    case LockAnswered(i, success) => i < |l.pending| && l.pending[i].1 != [] && (success ==> l.pending[i].0 !in l.held)
    case TimerFired(timer) => timer in l.timers
    case RemoteAdded(_, server) => server != l.registry.self
    case RemoteRemoved(_, server, _, _) => server != l.registry.self
    case _ => true
  }

  function Step(l: State, e: Event): State
    requires Possible(l, e)
  {
    match e
    case SearchFor(name, attempt) => StartSearch(l, name, attempt)
    case LockAnswered(i, success) =>
      var (name, candidates) := l.pending[i];
      var u := l.(pending := l.pending[..i] + l.pending[i + 1..]);
      if success then LockAcquired(u, name, candidates) else u
    case NewListener(name, provider) =>
      if name in l.inProgress && name !in l.provided then
        l.(inProgress := l.inProgress[name := l.inProgress[name].(remaining := l.inProgress[name].remaining + [provider])])
      else l
    case Accepted(name, provider) => Respond(l, name, Some(provider))
    case Rejected(name) => Respond(l, name, None)
    case TimerFired(timer) =>
      var name := l.timers[timer];
      TriggerNext(Note(l.(timers := l.timers - {timer}), TimedOut(name)), name)
    case LeftSearch(name, p) => LeaveSearch(l, name, p)
    case LeftProvided(name, p, known, first, local, second) => LeaveProvided(l, name, p, known, first, local, second)
    case LastSubscriberLeft(name, known, attempt) =>
      if name !in l.provided then l
      else RemoveActive(Note(l, PatternRemoved(name, l.provided[name])), name, known, attempt)
    case RemoteAdded(name, server) => l.(registry := S.AddToServer(l.registry, name, server))
    case RemoteRemoved(name, server, known, attempt) =>
      OnRegistry(l, S.RemoveFromServer(l.registry, name, server), name, known, attempt)
  }

  function Run(self: string, events: seq<Event>): Option<State>
    decreases |events|
  {
    if events == [] then Some(Initial(self))
    else
      var before := Run(self, events[..|events| - 1]);
      var e := events[|events| - 1];
      if before.Some? && Possible(before.value, e) then Some(Step(before.value, e)) else None
  }

  // ---------- Invariants ----------

  /** Acquisitions and releases of one lock, oldest first: true is an acquisition. */
  function LockUses(h: History, x: string): seq<bool> {
    match h
    case Start => []
    case After(past, Acquired(name)) => LockUses(past, x) + (if name == x then [true] else [])
    case After(past, Released(name)) => LockUses(past, x) + (if name == x then [false] else [])
    case After(past, _) => LockUses(past, x)
  }

  /** Each acquisition is followed by its one release before the next; the last one is open exactly
      while the lock is held. */
  ghost predicate Paired(l: State, x: string) {
    var uses := LockUses(l.trace, x);
    && (forall i :: 0 <= i < |uses| ==> uses[i] == (i % 2 == 0))
    && (x in l.held <==> |uses| % 2 == 1)
  }

  ghost predicate Sound(l: State, x: string) {
    && l.inProgress.Keys == l.held
    && l.inProgress.Keys !! l.provided.Keys
    && l.provided.Keys <= S.Held(l.registry, l.registry.self)
    && (forall p :: p in l.pending ==> p.1 != [])
    && Paired(l, x)
  }

  lemma AcquireKeeps(l: State, name: string, candidates: seq<Provider>, x: string)
    requires Sound(l, x) && candidates != [] && name !in l.held
    ensures Sound(LockAcquired(l, name, candidates), x)
  {
    var locked := Note(l.(held := l.held + {name}), Acquired(name));
    assert LockUses(locked.trace, x) == LockUses(l.trace, x) + (if name == x then [true] else []);
    var u := LockAcquired(l, name, candidates);
    if HasActiveProvider(l, name) {
      assert LockUses(u.trace, x) == LockUses(locked.trace, x) + (if name == x then [false] else []);
      assert u.held == l.held;
    } else {
      assert LockUses(u.trace, x) == LockUses(locked.trace, x);
    }
  }

  lemma StartKeeps(l: State, name: string, attempt: Attempt, x: string)
    requires Sound(l, x)
    ensures Sound(StartSearch(l, name, attempt), x)
  {
    if attempt.candidates != [] && attempt.answer.Granted? && name !in l.held {
      AcquireKeeps(l, name, attempt.candidates, x);
    }
  }

  /** Ending a search that is under way. `provided` may already have the name. */
  lemma StopKeeps(l: State, name: string, x: string)
    requires name in l.inProgress && l.inProgress.Keys == l.held && Paired(l, x)
    requires l.inProgress.Keys - {name} !! l.provided.Keys
    requires l.provided.Keys <= S.Held(l.registry, l.registry.self)
    requires forall p :: p in l.pending ==> p.1 != []
    ensures Sound(StopSearch(l, name), x) && name !in StopSearch(l, name).inProgress
  {
    var u := StopSearch(l, name);
    assert LockUses(ReleaseLock(l, name).trace, x) == LockUses(l.trace, x) + (if name == x then [false] else []);
    assert LockUses(u.trace, x) == LockUses(ReleaseLock(l, name).trace, x);
  }

  lemma TriggerKeeps(l: State, name: string, x: string)
    requires Sound(l, x)
    ensures Sound(TriggerNext(l, name), x)
  {
    if name in l.inProgress {
      if l.inProgress[name].remaining == [] {
        StopKeeps(l, name, x);
      } else {
        assert LockUses(TriggerNext(l, name).trace, x) == LockUses(l.trace, x);
      }
    }
  }

  lemma AcceptKeeps(l: State, name: string, provider: Provider, x: string)
    requires Sound(l, x) && name in l.inProgress
    ensures Sound(Accept(l, name, provider), x)
  {
    S.AddHeld(l.registry, name, l.registry.self);
    StopKeeps(l.(provided := l.provided[name := provider], registry := S.Add(l.registry, name).0), name, x);
  }

  lemma RemoveActiveKeeps(l: State, name: string, known: bool, attempt: Attempt, x: string)
    requires Sound(l, x) && name in l.provided
    ensures Sound(RemoveActive(l, name, known, attempt), x)
  {
    var registry := S.Remove(l.registry, name).0;
    S.RemoveHeld(l.registry, name, l.registry.self);
    // Taking the name off `provided` before or after the search makes no difference.
    var without := l.(registry := registry, provided := l.provided - {name});
    assert Sound(without, x);
    StartKeeps(without, name, attempt, x);
    assert RemoveActive(l, name, known, attempt) ==
           if Vanishes(l.registry, registry, name) && known then StartSearch(without, name, attempt) else without;
  }

  lemma OnRegistryKeeps(l: State, registry: S.Registry, name: string, known: bool, attempt: Attempt, x: string)
    requires Sound(l, x) && registry.self == l.registry.self
    requires S.Held(registry, registry.self) == S.Held(l.registry, l.registry.self)
    ensures Sound(OnRegistry(l, registry, name, known, attempt), x)
  {
    StartKeeps(l.(registry := registry), name, attempt, x);
  }

  lemma LeftSearchKeeps(l: State, e: Event, x: string)
    requires Sound(l, x) && e.LeftSearch?
    ensures Sound(Step(l, e), x)
  {
    var LeftSearch(name, p) := e;
    if name in l.inProgress {
      var u := l.(inProgress := l.inProgress[name := l.inProgress[name].(remaining := Filter(l.inProgress[name].remaining, p))]);
      StopKeeps(u, name, x);
    }
  }

  lemma LeftProvidedKeeps(l: State, e: Event, x: string)
    requires Sound(l, x) && e.LeftProvided? && Possible(l, e)
    ensures Sound(Step(l, e), x)
  {
    var LeftProvided(name, p, known, first, local, second) := e;
    if name in l.provided && l.provided[name] == p {
      RemoveActiveKeeps(l, name, known, first, x);
      StartKeeps(RemoveActive(l, name, known, first), name, second, x);
    }
  }

  lemma StepKeeps(l: State, e: Event, x: string)
    requires Sound(l, x) && Possible(l, e)
    ensures Sound(Step(l, e), x)
  {
    match e
    case SearchFor(name, attempt) => StartKeeps(l, name, attempt, x);
    case LockAnswered(i, success) =>
      var u := l.(pending := l.pending[..i] + l.pending[i + 1..]);
      if success { AcquireKeeps(u, l.pending[i].0, l.pending[i].1, x); }
    case NewListener(name, provider) =>
    case Accepted(name, provider) =>
      if name in l.inProgress { AcceptKeeps(l.(timers := l.timers - {l.inProgress[name].timer}), name, provider, x); }
    case Rejected(name) =>
      if name in l.inProgress { TriggerKeeps(l.(timers := l.timers - {l.inProgress[name].timer}), name, x); }
    case TimerFired(timer) => TriggerKeeps(Note(l.(timers := l.timers - {timer}), TimedOut(l.timers[timer])), l.timers[timer], x);
    case LeftSearch(_, _) => LeftSearchKeeps(l, e, x);
    case LeftProvided(_, _, _, _, _, _) => LeftProvidedKeeps(l, e, x);
    case LastSubscriberLeft(name, known, attempt) =>
      if name in l.provided { RemoveActiveKeeps(Note(l, PatternRemoved(name, l.provided[name])), name, known, attempt, x); }
    case RemoteAdded(name, server) => S.AddToServerHeld(l.registry, name, server, l.registry.self);
    case RemoteRemoved(name, server, known, attempt) =>
      S.RemoveFromServerHeld(l.registry, name, server, l.registry.self);
      OnRegistryKeeps(l, S.RemoveFromServer(l.registry, name, server), name, known, attempt, x);
  }

  /** In every run: no name is both searched for and provided here; the names searched for are exactly
      those whose lock this server holds; the uses of each lock are acquisition, release, acquisition,
      release, and so on; and a name provided here is provided in the cluster by this server. */
  lemma {:induction false} DiscoveryIsSound(self: string, events: seq<Event>, x: string)
    requires Run(self, events).Some?
    ensures Sound(Run(self, events).value, x)
    decreases |events|
  {
    if events == [] {
      assert S.Held(S.Empty(self), self) == {};
    } else {
      var before := events[..|events| - 1];
      DiscoveryIsSound(self, before, x);
      StepKeeps(Run(self, before).value, events[|events| - 1], x);
    }
  }

  // ---------- Termination ----------

  /** A rejection, or a timer that fires, for a name that is searched for. */
  predicate Negative(l: State, e: Event, name: string) {
    e == Rejected(name) || (e.TimerFired? && e.timer in l.timers && l.timers[e.timer] == name)
  }

  /** Each rejection or timeout ends the search or takes the next of the remaining candidates. */
  lemma NegativeShortens(l: State, e: Event, name: string)
    requires Possible(l, e) && Negative(l, e, name) && name in l.inProgress
    ensures var u := Step(l, e); var remaining := l.inProgress[name].remaining;
      if remaining == [] then name !in u.inProgress
      else name in u.inProgress && u.inProgress[name].query == remaining[0] && u.inProgress[name].remaining == remaining[1..]
  {
  }

  lemma {:induction false} FilterShortens(providers: seq<Provider>, p: Provider)
    ensures |Filter(providers, p)| <= |providers|
  {
    if providers != [] { FilterShortens(providers[1..], p); }
  }

  /** A search that starts does not touch one that is under way and holds its lock. */
  lemma StartLeaves(l: State, name: string, attempt: Attempt, x: string)
    requires x in l.inProgress && x in l.held
    ensures var u := StartSearch(l, name, attempt); x in u.inProgress && x in u.held && u.inProgress[x] == l.inProgress[x]
  {
  }

  lemma RemoveActiveLeaves(l: State, name: string, known: bool, attempt: Attempt, x: string)
    requires x in l.inProgress && x in l.held
    ensures var u := RemoveActive(l, name, known, attempt); x in u.inProgress && x in u.held && u.inProgress[x] == l.inProgress[x]
  {
    StartLeaves(l.(registry := S.Remove(l.registry, name).0), name, attempt, x);
  }

  /** Events that start searches or change what is provided leave a search alone. */
  predicate IsApart(e: Event) {
    e.SearchFor? || e.LeftProvided? || e.LastSubscriberLeft? || e.RemoteAdded? || e.RemoteRemoved?
  }

  lemma ApartLeaves(l: State, e: Event, x: string)
    requires x in l.inProgress && x in l.held && IsApart(e) && Possible(l, e)
    ensures x in Step(l, e).inProgress && Step(l, e).inProgress[x] == l.inProgress[x]
  {
    match e
    case SearchFor(n, attempt) => StartLeaves(l, n, attempt, x);
    case LeftProvided(n, p, known, first, _, second) =>
      RemoveActiveLeaves(l, n, known, first, x);
      StartLeaves(RemoveActive(l, n, known, first), n, second, x);
    case LastSubscriberLeft(n, known, attempt) =>
      if n in l.provided { RemoveActiveLeaves(Note(l, PatternRemoved(n, l.provided[n])), n, known, attempt, x); }
    case RemoteRemoved(n, server, _, attempt) =>
      StartLeaves(l.(registry := S.RemoveFromServer(l.registry, n, server)), n, attempt, x);
    case RemoteAdded(_, _) =>
  }

  /** Whatever happens but a new listener for the name, a search that stays has no more candidates left
      than before, and one less after a rejection or timeout. */
  lemma StepShortens(l: State, e: Event, name: string)
    requires Sound(l, name) && Possible(l, e) && name in l.inProgress && name in Step(l, e).inProgress
    requires !(e.NewListener? && e.name == name)
    ensures |Step(l, e).inProgress[name].remaining| + (if Negative(l, e, name) then 1 else 0) <= |l.inProgress[name].remaining|
  {
    if IsApart(e) {
      ApartLeaves(l, e, name);
    } else if Negative(l, e, name) {
      NegativeShortens(l, e, name);
    } else {
      OthersShorten(l, e, name);
    }
  }

  lemma OthersShorten(l: State, e: Event, name: string)
    requires name in l.held && Possible(l, e) && name in l.inProgress && name in Step(l, e).inProgress
    requires !(e.NewListener? && e.name == name) && !IsApart(e) && !Negative(l, e, name)
    ensures |Step(l, e).inProgress[name].remaining| <= |l.inProgress[name].remaining|
  {
    if e.LeftSearch? { FilterShortens(l.inProgress[name].remaining, e.provider); }
  }

  /** The state after `events` from `l` on. */
  function From(l: State, events: seq<Event>): Option<State>
    decreases |events|
  {
    if events == [] then Some(l)
    else
      var before := From(l, events[..|events| - 1]);
      var e := events[|events| - 1];
      if before.Some? && Possible(before.value, e) then Some(Step(before.value, e)) else None
  }

  /** The name is searched for from the first to the last moment. */
  predicate Stays(l: State, events: seq<Event>, name: string)
    decreases |events|
  {
    && From(l, events).Some? && name in From(l, events).value.inProgress
    && (events == [] || Stays(l, events[..|events| - 1], name))
  }

  function Negatives(l: State, events: seq<Event>, name: string): nat
    decreases |events|
  {
    if events == [] then 0
    else
      var past := events[..|events| - 1];
      var before := From(l, past);
      Negatives(l, past, name) + (if before.Some? && Negative(before.value, events[|events| - 1], name) then 1 else 0)
  }

  /** In any run without new listeners for the name, whatever else happens between: while a search
      stays, it sees no more rejections and timeouts than it had candidates left at the start. With one
      more it is over. */
  lemma {:induction false} SearchTerminates(l: State, events: seq<Event>, name: string)
    requires Sound(l, name) && name in l.inProgress && Stays(l, events, name)
    requires forall i :: 0 <= i < |events| ==> !(events[i].NewListener? && events[i].name == name)
    ensures Negatives(l, events, name) <= |l.inProgress[name].remaining|
    ensures Sound(From(l, events).value, name)
    ensures Negatives(l, events, name) + |From(l, events).value.inProgress[name].remaining| <= |l.inProgress[name].remaining|
    decreases |events|
  {
    if events != [] {
      var past := events[..|events| - 1];
      SearchTerminates(l, past, name);
      var before := From(l, past).value;
      StepKeeps(before, events[|events| - 1], name);
      StepShortens(before, events[|events| - 1], name);
    }
  }

  // ---------- The timer of a search ----------

  /** The candidate in turn has its timer armed. */
  ghost predicate Armed(l: State, x: string) {
    && (forall t :: t in l.timers ==> t < l.nextTimer)
    && (x in l.inProgress ==> l.inProgress[x].timer in l.timers && l.timers[l.inProgress[x].timer] == x)
  }

  lemma AskArms(l: State, name: string, provider: Provider, remaining: seq<Provider>, x: string)
    requires forall t :: t in l.timers ==> t < l.nextTimer
    requires x == name || Armed(l, x)
    ensures Armed(Ask(l, name, provider, remaining), x)
  {
  }

  lemma StartArms(l: State, name: string, attempt: Attempt, x: string)
    requires Armed(l, x)
    ensures Armed(StartSearch(l, name, attempt), x)
  {
    if attempt.candidates != [] && attempt.answer.Granted? && name !in l.held && !HasActiveProvider(l, name) {
      AskArms(Note(l.(held := l.held + {name}), Acquired(name)), name, attempt.candidates[0], attempt.candidates[1..], x);
    }
  }

  /** The timer of `name` may be off, since a next candidate is asked or the search ends. */
  lemma TriggerArms(l: State, name: string, x: string)
    requires forall t :: t in l.timers ==> t < l.nextTimer
    requires x == name || Armed(l, x)
    ensures Armed(TriggerNext(l, name), x)
  {
    if name in l.inProgress && l.inProgress[name].remaining != [] {
      AskArms(l, name, l.inProgress[name].remaining[0], l.inProgress[name].remaining[1..], x);
    }
  }

  lemma RemoveActiveArms(l: State, name: string, known: bool, attempt: Attempt, x: string)
    requires Armed(l, x)
    ensures Armed(RemoveActive(l, name, known, attempt), x)
  {
    StartArms(l.(registry := S.Remove(l.registry, name).0), name, attempt, x);
  }

  lemma StepArms(l: State, e: Event, x: string)
    requires Armed(l, x) && (forall y :: Armed(l, y)) && Possible(l, e)
    ensures Armed(Step(l, e), x)
  {
    match e
    case SearchFor(name, attempt) => StartArms(l, name, attempt, x);
    case LockAnswered(i, success) =>
      var (name, candidates) := l.pending[i];
      var u := l.(pending := l.pending[..i] + l.pending[i + 1..]);
      if success { StartArms(u, name, Attempt(candidates, Granted), x); }
    case Accepted(name, _) =>
      if name in l.inProgress && x in l.inProgress && x != name {
        assert Armed(l, name);
      }
    case Rejected(name) =>
      if name in l.inProgress {
        assert Armed(l, name);
        TriggerArms(l.(timers := l.timers - {l.inProgress[name].timer}), name, x);
      }
    case TimerFired(timer) => TriggerArms(Note(l.(timers := l.timers - {timer}), TimedOut(l.timers[timer])), l.timers[timer], x);
    case LeftProvided(name, p, known, first, local, second) =>
      RemoveActiveArms(l, name, known, first, x);
      StartArms(RemoveActive(l, name, known, first), name, second, x);
    case LastSubscriberLeft(name, known, attempt) =>
      if name in l.provided { RemoveActiveArms(Note(l, PatternRemoved(name, l.provided[name])), name, known, attempt, x); }
    case RemoteRemoved(name, server, known, attempt) =>
      StartArms(l.(registry := S.RemoveFromServer(l.registry, name, server)), name, attempt, x);
    case _ =>
  }

  /** In every run a search has its timer armed, so it can always be moved on: a silent provider does
      not keep it up. */
  lemma {:induction false} SearchCanGoOn(self: string, events: seq<Event>, x: string)
    requires Run(self, events).Some?
    ensures var l := Run(self, events).value;
      && Armed(l, x)
      && (x in l.inProgress ==> var e := TimerFired(l.inProgress[x].timer); Possible(l, e) && Negative(l, e, x))
    decreases |events|
  {
    if events != [] {
      var before := events[..|events| - 1];
      forall y ensures Armed(Run(self, before).value, y) { SearchCanGoOn(self, before, y); }
      StepArms(Run(self, before).value, events[|events| - 1], x);
    }
  }
}
