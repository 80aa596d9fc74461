/** The subscription registry as an object, each method proved against the functions in
    `Subscriptions`. */
module SubscriptionRegistries {
  import opened Common
  import C = SingleStateRegistry
  import StateRegistry
  import S = Subscriptions

  class SubscriptionRegistry {
    var sockets: map<nat, set<string>>
    var subscriptions: map<string, set<nat>>
    /** The sockets that have `onSocketClose` registered. */
    var callbacks: set<nat>
    var clusterSubscriptions: C.Single
    var trace: S.History

    constructor ()
      ensures Model() == S.EMPTY
    {
      sockets, subscriptions, callbacks := map[], map[], {};
      clusterSubscriptions, trace := C.Single(map[], StateRegistry.Start), S.Start;
    }

    function Model(): S.State
      reads this
    {
      S.State(sockets, subscriptions, callbacks, clusterSubscriptions, trace)
    }

    method Note(e: S.Trace)
      modifies this`trace
      ensures trace == S.After(old(trace), e)
    {
      trace := S.After(trace, e);
    }

    method CallCluster(call: C.Call)
      modifies this
      ensures Model() == S.CallCluster(old(Model()), call)
    {
      var before := clusterSubscriptions.log;
      clusterSubscriptions := C.SingleStep(clusterSubscriptions, call);
      if clusterSubscriptions.log != before {
        Note(if call.Add? then S.FirstMade(call.name) else S.LastGone(call.name));
      }
    }

    method Subscribe(name: string, socket: nat, silent: bool)
      modifies this
      ensures Model() == S.Subscribe(old(Model()), name, socket, silent)
    {
      var subscribers := S.Subscribers(Model(), name);
      if socket in subscribers {
        Note(S.Multiple(name, socket));
        return;
      }
      subscriptions := subscriptions[name := subscribers + {socket}];
      AddSocket(name, socket);
      if !silent {
        Note(S.Ack(socket));
      }
    }

    method AddSocket(name: string, socket: nat)
      modifies this
      ensures Model() == S.AddSocket(old(Model()), name, socket)
    {
      var mine := S.Names(Model(), socket);
      if mine == {} {
        callbacks := callbacks + {socket};
      }
      sockets := sockets[socket := mine + {name}];
      CallCluster(C.Add(name));
      Note(S.Made(name, socket));
    }

    method Unsubscribe(name: string, socket: nat, silent: bool)
      modifies this
      ensures Model() == S.Unsubscribe(old(Model()), name, socket, silent)
    {
      if socket !in S.Subscribers(Model(), name) {
        if !silent {
          Note(S.NotSubscribed(name, socket));
        }
        return;
      }
      Leave(name, socket);
      if !silent {
        Note(S.Ack(socket));
      }
    }

    method Leave(name: string, socket: nat)
      modifies this
      ensures Model() == S.Leave(old(Model()), name, socket)
    {
      subscriptions := subscriptions[name := S.Subscribers(Model(), name) - {socket}];
      RemoveSocket(name, socket);
    }

    method RemoveSocket(name: string, socket: nat)
      modifies this
      ensures Model() == S.RemoveSocket(old(Model()), name, socket)
    {
      if S.Subscribers(Model(), name) == {} {
        subscriptions := subscriptions - {name};
      }
      Note(S.Gone(name, socket));
      CallCluster(C.Remove(name));
      if socket in sockets {
        var mine := sockets[socket] - {name};
        sockets := sockets[socket := mine];
        if mine == {} {
          sockets := sockets - {socket};
          callbacks := callbacks - {socket};
        }
      }
    }

    method SubscribeBulk(names: seq<string>, socket: nat, silent: bool)
      modifies this
      ensures Model() == S.Step(old(Model()), S.SubscribesBulk(names, socket, silent))
    {
      for i := 0 to |names|
        invariant Model() == S.SubscribeAll(old(Model()), names[..i], socket)
      {
        assert names[..i + 1][..i] == names[..i];
        Subscribe(names[i], socket, true);
      }
      assert names[..|names|] == names;
      if !silent {
        Note(S.Ack(socket));
      }
    }

    method UnsubscribeBulk(names: seq<string>, socket: nat, silent: bool)
      modifies this
      ensures Model() == S.Step(old(Model()), S.UnsubscribesBulk(names, socket, silent))
    {
      for i := 0 to |names|
        invariant Model() == S.UnsubscribeAll(old(Model()), names[..i], socket)
      {
        assert names[..i + 1][..i] == names[..i];
        Unsubscribe(names[i], socket, true);
      }
      assert names[..|names|] == names;
      if !silent {
        Note(S.Ack(socket));
      }
    }

    /** The names walked so far, and those still to come. */
    ghost predicate Walked(order: seq<string>, rest: set<string>, all: set<string>) {
      && rest + (set n | n in order) == all && rest !! (set n | n in order)
      && forall i, j :: 0 <= i < j < |order| ==> order[i] != order[j]
    }

    lemma WalkOn(order: seq<string>, rest: set<string>, all: set<string>, name: string)
      requires Walked(order, rest, all) && name in rest
      ensures Walked(order + [name], rest - {name}, all)
    {
      assert (set n | n in order + [name]) == (set n | n in order) + {name};
      assert name !in (set n | n in order);
    }

    /** `order` is the order in which the names of the socket were walked. */
    method OnSocketClose(socket: nat) returns (order: seq<string>)
      modifies this
      ensures socket in old(sockets) ==> S.Enumerates(order, old(sockets)[socket])
      ensures Model() == S.OnSocketClose(old(Model()), socket, order)
    {
      order := [];
      if socket !in sockets {
        return;
      }
      var rest := sockets[socket];
      while rest != {}
        invariant Walked(order, rest, old(sockets)[socket])
        invariant Model() == S.LeaveAll(old(Model()), order, socket)
        decreases |rest|
      {
        var name :| name in rest;
        WalkOn(order, rest, old(sockets)[socket], name);
        assert (order + [name])[..|order|] == order;
        rest := rest - {name};
        order := order + [name];
        Leave(name, socket);
      }
      sockets := sockets - {socket};
    }
  }
}
