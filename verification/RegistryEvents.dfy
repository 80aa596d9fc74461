/** What the listeners of a registry are told about single servers. */
module RegistryEvents {
  import opened Common
  import opened StateRegistry

  /** The last event about the pair says that the server has the name. */
  predicate SaidToHold(log: Log, x: string, server: string) {
    match log
    case Start => false
    case After(past, e) =>
      if e == ServerAdded(x, server) then true
      else if e == ServerRemoved(x, server) then false
      else SaidToHold(past, x, server)
  }

  predicate Agrees(r: Registry, x: string, server: string) {
    SaidToHold(r.log, x, server) <==> x in Held(r, server)
  }

  lemma AddAgrees(r: Registry, name: string, from: string, x: string, server: string)
    requires Agrees(r, x, server)
    ensures Agrees(AddToServer(r, name, from), x, server)
  {
  }

  lemma RemoveAgrees(r: Registry, name: string, from: string, x: string, server: string)
    requires Agrees(r, x, server) && Populated(r)
    ensures Agrees(RemoveFromServer(r, name, from), x, server)
  {
    RemoveFromServerHeld(r, name, from, server);
  }

  lemma {:induction false} AddAllAgrees(r: Registry, names: seq<string>, from: string, x: string, server: string)
    requires Agrees(r, x, server)
    ensures Agrees(AddAll(r, names, from), x, server)
    decreases |names|
  {
    if names != [] {
      AddAgrees(r, names[0], from, x, server);
      AddAllAgrees(AddToServer(r, names[0], from), names[1..], from, x, server);
    }
  }

  lemma {:induction false} DropOthersAgrees(r: Registry, names: seq<string>, keep: seq<string>, from: string, x: string, server: string)
    requires Agrees(r, x, server) && Populated(r)
    ensures Agrees(DropOthers(r, names, keep, from), x, server)
    decreases |names|
  {
    if names != [] {
      var next := if names[0] in keep then r else RemoveFromServer(r, names[0], from);
      RemoveAgrees(r, names[0], from, x, server);
      DropOthersAgrees(next, names[1..], keep, from, x, server);
    }
  }

  lemma {:induction false} SweepAgrees(r: Registry, names: seq<string>, from: string, x: string, server: string)
    requires Agrees(r, x, server) && Populated(r)
    ensures Agrees(Sweep(r, names, from), x, server)
    decreases |names|
  {
    if names != [] {
      var name := names[0];
      var next := if name in r.data && from in r.data[name].nodes then RemoveFromServer(r, name, from) else r;
      RemoveAgrees(r, name, from, x, server);
      SweepAgrees(next, names[1..], from, x, server);
    }
  }

  lemma LocalAgrees(r: Registry, name: string, x: string, server: string)
    requires Agrees(r, x, server) && Populated(r)
    ensures Agrees(Add(r, name).0, x, server) && Agrees(Remove(r, name).0, x, server)
  {
    AddHeld(r, name, server);
    AddAgrees(r, name, r.self, x, server);
    if name in r.data {
      var counted := r.(data := r.data[name := r.data[name].(localCount := r.data[name].localCount - 1)]);
      assert Agrees(counted, x, server) && Populated(counted);
      RemoveAgrees(counted, name, r.self, x, server);
    }
  }

  lemma StepAgrees(policy: Policy, r: Registry, e: Event, x: string, server: string)
    requires Agrees(r, x, server) && Populated(r) && Possible(r, e)
    ensures Agrees(Step(policy, r, e), x, server)
  {
    match e
    case LocalAdd(name) => LocalAgrees(r, name, x, server);
    case LocalRemove(name) => LocalAgrees(r, name, x, server);
    case Incoming(AddName(name), from, _) => AddAgrees(r, name, from, x, server);
    case Incoming(RemoveName(name), from, _) => RemoveAgrees(r, name, from, x, server);
    case Incoming(FullState(names), from, order) =>
      DropOthersAgrees(r, Visited(policy, order), names, from, x, server);
      AddAllAgrees(DropOthers(r, Visited(policy, order), names, from), names, from, x, server);
    case ServerGone(from, order) => SweepAgrees(r, order, from, x, server);
  }

  /** In every run a server is taken to hold a name exactly if the last event about the two, among those that say
      that a server was added to or removed from a name, says that it was added. */
  lemma {:induction false} ServerEventsTell(policy: Policy, self: string, events: seq<Event>, x: string, server: string)
    requires PossibleRun(policy, self, events)
    ensures SaidToHold(Run(policy, self, events).log, x, server) <==> x in Held(Run(policy, self, events), server)
    decreases |events|
  {
    if events != [] {
      var before := events[..|events| - 1];
      ServerEventsTell(policy, self, before, x, server);
      EventsAlternate(policy, self, before, x);
      StepAgrees(policy, Run(policy, self, before), events[|events| - 1], x, server);
    }
  }
}
