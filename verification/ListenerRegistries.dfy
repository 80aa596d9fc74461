/** The listener registry as an object, each method proved against the functions in `Listener`. */
module ListenerRegistries {
  import opened Common
  import S = StateRegistry
  import L = Listener

  class ListenerRegistry {
    var listenInProgress: map<string, L.Search>
    var locallyProvidedRecords: map<string, L.Provider>
    var clusterProvidedRecords: S.Registry
    /** Locks held, lock requests pending and response timers armed: the state of the services that
        this object talks to. */
    var held: set<string>
    var pending: seq<(string, seq<L.Provider>)>
    var timers: map<nat, string>
    var nextTimer: nat
    var trace: L.History

    constructor (serverName: string)
      ensures Model() == L.Initial(serverName)
    {
      listenInProgress, locallyProvidedRecords := map[], map[];
      clusterProvidedRecords := S.Empty(serverName);
      held, pending, timers, nextTimer, trace := {}, [], map[], 0, L.Start;
    }

    function Model(): L.State
      reads this
    {
      L.State(listenInProgress, locallyProvidedRecords, clusterProvidedRecords, held, pending, timers, nextTimer, trace)
    }

    method Note(e: L.Trace)
      modifies this`trace
      ensures trace == L.After(old(trace), e)
    {
      trace := L.After(trace, e);
    }

    method HasActiveProvider(name: string) returns (r: bool)
      ensures r == L.HasActiveProvider(Model(), name)
    {
      r := name in clusterProvidedRecords.data;
    }

    method StartProviderSearch(name: string, attempt: L.Attempt)
      modifies this
      ensures Model() == L.StartSearch(old(Model()), name, attempt)
    {
      if attempt.candidates == [] {
        return;
      }
      match attempt.answer
      case Granted =>
        if name !in held {
          OnLock(name, attempt.candidates);
        }
      case Refused =>
      case Later => pending := pending + [(name, attempt.candidates)];
    }

    /** The lock callback, called with success. */
    method OnLock(name: string, candidates: seq<L.Provider>)
      requires candidates != []
      modifies this
      ensures Model() == L.LockAcquired(old(Model()), name, candidates)
    {
      held := held + {name};
      Note(L.Acquired(name));
      var provided := HasActiveProvider(name);
      if provided {
        ReleaseLock(name);
        return;
      }
      Ask(name, candidates[0], candidates[1..]);
    }

    method ReleaseLock(name: string)
      modifies this`held, this`trace
      ensures Model() == L.ReleaseLock(old(Model()), name)
    {
      held := held - {name};
      Note(L.Released(name));
    }

    method Ask(name: string, provider: L.Provider, remaining: seq<L.Provider>)
      modifies this`listenInProgress, this`timers, this`nextTimer, this`trace
      ensures Model() == L.Ask(old(Model()), name, provider, remaining)
    {
      listenInProgress := listenInProgress[name := L.Search(provider, remaining, nextTimer)];
      timers := timers[nextTimer := name];
      nextTimer := nextTimer + 1;
      Note(L.Asked(name, provider));
    }

    method TriggerNextProvider(name: string)
      modifies this
      ensures Model() == L.TriggerNext(old(Model()), name)
    {
      if name !in listenInProgress {
        return;
      }
      var search := listenInProgress[name];
      if search.remaining == [] {
        StopProviderSearch(name);
        return;
      }
      Ask(name, search.remaining[0], search.remaining[1..]);
    }

    method StopProviderSearch(name: string)
      modifies this
      ensures Model() == L.StopSearch(old(Model()), name)
    {
      ReleaseLock(name);
      var stopped := name in listenInProgress;
      listenInProgress := listenInProgress - {name};
      if stopped {
        var provided := HasActiveProvider(name);
        if !provided {
          Note(L.Unsuccessful(name));
        }
      }
    }

    /** `accepted` is the provider of a LISTEN_ACCEPT; a LISTEN_REJECT has none. */
    method ProcessResponse(name: string, accepted: Option<L.Provider>)
      modifies this
      ensures Model() == L.Respond(old(Model()), name, accepted)
    {
      if name !in listenInProgress {
        return;
      }
      timers := timers - {listenInProgress[name].timer};
      if accepted.Some? {
        Accept(name, accepted.value);
      } else {
        TriggerNextProvider(name);
      }
    }

    method Accept(name: string, provider: L.Provider)
      modifies this
      ensures Model() == L.Accept(old(Model()), name, provider)
    {
      locallyProvidedRecords := locallyProvidedRecords[name := provider];
      clusterProvidedRecords := S.Add(clusterProvidedRecords, name).0;
      StopProviderSearch(name);
    }

    method OnResponseTimeout(timer: nat)
      requires timer in timers
      modifies this
      ensures Model() == L.Step(old(Model()), L.TimerFired(timer))
    {
      var name := timers[timer];
      timers := timers - {timer};
      Note(L.TimedOut(name));
      TriggerNextProvider(name);
    }

    method RemoveActiveListener(name: string, known: bool, attempt: L.Attempt)
      modifies this
      ensures Model() == L.RemoveActive(old(Model()), name, known, attempt)
    {
      var before := clusterProvidedRecords;
      clusterProvidedRecords := S.Remove(before, name).0;
      if name in before.data && name !in clusterProvidedRecords.data && known {
        StartProviderSearch(name, attempt);
      }
      locallyProvidedRecords := locallyProvidedRecords - {name};
    }

    method RemoveListenerIfActive(name: string, p: L.Provider, known: bool, first: L.Attempt, local: bool, second: L.Attempt)
      modifies this
      ensures Model() == L.LeaveProvided(old(Model()), name, p, known, first, local, second)
    {
      if name in locallyProvidedRecords && locallyProvidedRecords[name] == p {
        RemoveActiveListener(name, known, first);
        if local {
          StartProviderSearch(name, second);
        }
      }
    }

    /** `names` are the searches under way, in the map's order. */
    method RemoveListenerFromInProgress(names: seq<string>, p: L.Provider)
      modifies this
      ensures Model() == L.LeaveSearches(old(Model()), names, p)
    {
      for i := 0 to |names|
        invariant L.LeaveSearches(Model(), names[i..], p) == L.LeaveSearches(old(Model()), names, p)
      {
        assert names[i..][1..] == names[i + 1..];
        var name := names[i];
        if name in listenInProgress {
          var kept := FilterProviders(listenInProgress[name].remaining, p);
          listenInProgress := listenInProgress[name := listenInProgress[name].(remaining := kept)];
          if kept == [] {
            StopProviderSearch(name);
          }
        }
      }
    }

    static method FilterProviders(providers: seq<L.Provider>, p: L.Provider) returns (kept: seq<L.Provider>)
      ensures kept == L.Filter(providers, p)
    {
      kept := [];
      for i := 0 to |providers|
        invariant kept + L.Filter(providers[i..], p) == L.Filter(providers, p)
      {
        assert providers[i..][1..] == providers[i + 1..];
        if providers[i] == p {
          kept := kept + [p];
        }
      }
    }
  }
}
