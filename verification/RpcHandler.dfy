/** The RPC handler and its `Rpc` objects. Each method is proved against the functions in `Rpc`. */
module RpcHandling {
  import opened Common
  import R = Rpc

  /** The handler's entry for one call: what was tried, and the object that runs it. */
  datatype RpcData = RpcData(providers: set<nat>, servers: Option<set<string>>, rpc: RpcObject)

  class RpcObject {
    const rpcHandler: RpcHandler
    const requestor: R.Peer
    const rpcName: string
    const correlationId: string
    var provider: R.Peer
    var isAccepted: bool
    var acceptTimeout: bool
    var responseTimeout: bool

    constructor (rpcHandler: RpcHandler, requestor: R.Peer, provider: R.Peer, rpcName: string, correlationId: string)
      modifies rpcHandler`trace
      ensures this.rpcHandler == rpcHandler && this.requestor == requestor && this.rpcName == rpcName && this.correlationId == correlationId
      ensures this.provider == provider && !isAccepted && acceptTimeout && responseTimeout
      ensures rpcHandler.trace == R.After(old(rpcHandler.trace), R.ToProvider(correlationId, provider, R.Request))
    {
      this.rpcHandler, this.requestor, this.rpcName, this.correlationId := rpcHandler, requestor, rpcName, correlationId;
      this.provider, isAccepted, acceptTimeout, responseTimeout := provider, false, false, false;
      new;
      SetProvider(provider);
    }

    method SetProvider(p: R.Peer)
      modifies this, rpcHandler`trace
      ensures provider == p && acceptTimeout && responseTimeout && isAccepted == old(isAccepted)
      ensures rpcHandler.trace == R.After(old(rpcHandler.trace), R.ToProvider(correlationId, p, R.Request))
    {
      provider, acceptTimeout, responseTimeout := p, true, true;
      rpcHandler.trace := R.After(rpcHandler.trace, R.ToProvider(correlationId, p, R.Request));
    }

    /** This object is the one its handler keeps for its correlation id. */
    ghost predicate Live()
      reads this, rpcHandler, rpcHandler.Objects()
    {
      rpcHandler.Valid() && correlationId in rpcHandler.rpcs && rpcHandler.rpcs[correlationId].rpc == this
    }

    /** An answer from a provider. */
    method Handle(answer: R.Answer, c: R.Candidates)
      requires Live() && R.Proper(c)
      modifies this, rpcHandler
      ensures rpcHandler.Valid() && rpcHandler.Objects() <= old(rpcHandler.Objects())
      ensures rpcHandler.Model() == R.Step(old(rpcHandler.Model()), R.Answered(correlationId, answer, c))
    {
      match answer
      case Accepts => HandleAccept();
      case Rejects => Reroute(c);
      case Responds => Finish(R.Response);
      case Fails => Finish(R.RequestError);
    }

    method HandleAccept()
      requires Live()
      modifies this, rpcHandler`trace
      ensures rpcHandler.Valid() && rpcHandler.Objects() == old(rpcHandler.Objects())
      ensures rpcHandler.Model() == R.HandleAccept(old(rpcHandler.Model()), correlationId)
    {
      if isAccepted {
        rpcHandler.trace := R.After(rpcHandler.trace, R.ToProvider(correlationId, provider, R.MultipleAccept));
        return;
      }
      acceptTimeout := false;
      isAccepted := true;
      rpcHandler.trace := R.After(rpcHandler.trace, R.ToRequestor(correlationId, requestor, R.Accept));
      rpcHandler.OneCall(correlationId);
    }

    method Reroute(c: R.Candidates)
      requires Live() && R.Proper(c)
      modifies this, rpcHandler
      ensures rpcHandler.Valid() && rpcHandler.Objects() <= old(rpcHandler.Objects())
      ensures rpcHandler.Model() == R.Reroute(old(rpcHandler.Model()), correlationId, c)
    {
      var alternative := rpcHandler.GetAlternativeProvider(correlationId, c);
      if alternative.None? {
        assert rpcHandler.Model() == old(rpcHandler.Model()) by {
          rpcHandler.OneCall(correlationId);
        }
        Finish(R.NoProvider);
        return;
      }
      SetProvider(alternative.value);
      rpcHandler.OneCall(correlationId);
    }

    /** The last message to the requestor, then `destroy`. */
    method Finish(reply: R.Reply)
      requires Live()
      modifies this, rpcHandler
      ensures rpcHandler.Valid() && rpcHandler.Objects() <= old(rpcHandler.Objects())
      ensures rpcHandler.Model() == R.End(old(rpcHandler.Model()), correlationId, reply)
    {
      rpcHandler.trace := R.After(rpcHandler.trace, R.ToRequestor(correlationId, requestor, reply));
      acceptTimeout, responseTimeout := false, false;
      rpcHandler.OnRPCDestroyed(correlationId);
      rpcHandler.OneGone(correlationId);
    }

    method OnAcceptTimeout()
      requires Live() && acceptTimeout
      modifies this, rpcHandler
      ensures rpcHandler.Valid()
      ensures rpcHandler.Model() == R.Step(old(rpcHandler.Model()), R.AcceptTimerFired(correlationId))
    {
      Finish(R.AcceptTimeout);
    }

    method OnResponseTimeout()
      requires Live() && responseTimeout
      modifies this, rpcHandler
      ensures rpcHandler.Valid()
      ensures rpcHandler.Model() == R.Step(old(rpcHandler.Model()), R.ResponseTimerFired(correlationId))
    {
      Finish(R.ResponseTimeout);
    }
  }

  class RpcHandler {
    var rpcs: map<string, RpcData>
    /** Every request so far with its requestor, and everything sent. */
    var requests: map<string, R.Peer>
    var trace: R.History

    constructor ()
      ensures Valid() && Model() == R.IDLE
    {
      rpcs, requests, trace := map[], map[], R.Start;
    }

    function Objects(): set<RpcObject>
      reads this
    {
      set id | id in rpcs :: rpcs[id].rpc
    }

    ghost predicate Valid()
      reads this, Objects()
    {
      forall id :: id in rpcs ==> rpcs[id].rpc.correlationId == id && rpcs[id].rpc.rpcHandler == this
    }

    function CallOf(data: RpcData): R.Call
      reads data.rpc
    {
      var o := data.rpc;
      R.Call(o.rpcName, o.requestor, o.provider, o.isAccepted, o.acceptTimeout, o.responseTimeout, data.providers, data.servers)
    }

    function Calls(): map<string, R.Call>
      reads this, Objects()
    {
      map id | id in rpcs :: CallOf(rpcs[id])
    }

    function Model(): R.Handler
      reads this, Objects()
    {
      R.Handler(Calls(), requests, trace)
    }

    /** Only the object of call `id` changed, or its entry. */
    twostate lemma OneCall(id: string)
      requires old(Valid()) && Valid() && id in rpcs && rpcs.Keys == old(rpcs).Keys + {id}
      requires forall x :: x in old(rpcs) && x != id ==> rpcs[x] == old(rpcs)[x] && old(allocated(rpcs[x].rpc)) && unchanged(rpcs[x].rpc)
      ensures Calls() == old(Calls())[id := CallOf(rpcs[id])]
    {
      var now, next := Calls(), old(Calls())[id := CallOf(rpcs[id])];
      assert now.Keys == next.Keys;
      forall x | x in now ensures now[x] == next[x] {
        if x != id {
          assert unchanged(rpcs[x].rpc);
        }
      }
    }

    twostate lemma OneGone(id: string)
      requires old(Valid()) && Valid() && rpcs == old(rpcs) - {id}
      requires forall x :: x in rpcs ==> unchanged(rpcs[x].rpc)
      ensures Calls() == old(Calls()) - {id}
    {
      var now, next := Calls(), old(Calls()) - {id};
      assert now.Keys == next.Keys;
      forall x | x in now ensures now[x] == next[x] {
        assert unchanged(rpcs[x].rpc);
      }
    }

    method OnRPCDestroyed(correlationId: string)
      modifies this`rpcs
      ensures rpcs == old(rpcs) - {correlationId}
    {
      rpcs := rpcs - {correlationId};
    }

    method FindUntried<T(==)>(list: seq<T>, start: nat, tried: set<T>) returns (r: Option<T>)
      requires list != [] ==> start < |list|
      ensures r == R.Scan(list, start, |list|, tried)
    {
      var index: nat, n: nat := start, 0;
      while n < |list|
        invariant n <= |list|
        invariant n < |list| ==> index < |list|
        invariant R.Scan(list, start, |list|, tried) == R.Scan(list, index, |list| - n, tried)
      {
        if list[index] !in tried {
          return Some(list[index]);
        }
        index, n := R.Next(index, |list|), n + 1;
      }
      return None;
    }

    /** The candidate is recorded as tried in the moment it is chosen. */
    method GetAlternativeProvider(correlationId: string, c: R.Candidates) returns (p: Option<R.Peer>)
      requires Valid() && correlationId in rpcs && R.Proper(c)
      modifies this`rpcs
      ensures p == R.Alternative(old(CallOf(rpcs[correlationId])), c)
      ensures rpcs.Keys == old(rpcs.Keys) && Objects() == old(Objects())
      ensures forall id :: id in rpcs && id != correlationId ==> rpcs[id] == old(rpcs[id])
      ensures rpcs[correlationId].rpc == old(rpcs[correlationId].rpc)
      ensures CallOf(rpcs[correlationId]) ==
              if p.Some? then R.Tried(old(CallOf(rpcs[correlationId])), p.value) else old(CallOf(rpcs[correlationId]))
    {
      var data := rpcs[correlationId];
      var client := FindUntried(c.locals, c.i, data.providers);
      if client.Some? {
        rpcs := rpcs[correlationId := data.(providers := data.providers + {client.value})];
        SameObjects(rpcs, old(rpcs), correlationId);
        return Some(R.Client(client.value));
      }
      if data.servers == None {
        return None;
      }
      var server := FindUntried(c.remotes, c.j, data.servers.value);
      if server.Some? {
        rpcs := rpcs[correlationId := data.(servers := Some(data.servers.value + {server.value}))];
        SameObjects(rpcs, old(rpcs), correlationId);
        return Some(R.Server(server.value));
      }
      return None;
    }

    lemma SameObjects(now: map<string, RpcData>, before: map<string, RpcData>, id: string)
      requires id in before && id in now && now == before[id := now[id]] && now[id].rpc == before[id].rpc
      ensures (set i | i in now :: now[i].rpc) == (set i | i in before :: before[i].rpc)
    {
      assert forall i :: i in now ==> i in before && now[i].rpc == before[i].rpc;
      assert forall i :: i in before ==> i in now && now[i].rpc == before[i].rpc;
    }

    /** A new object, and its entry. */
    method Launch(requestor: R.Peer, provider: R.Peer, name: string, correlationId: string, providers: set<nat>, servers: Option<set<string>>)
      requires Valid() && correlationId !in rpcs
      modifies this`rpcs, this`trace
      ensures Valid()
      ensures Model() == R.SetProvider(old(Model()), correlationId, R.Call(name, requestor, requestor, false, false, false, providers, servers), provider)
    {
      var rpc := new RpcObject(this, requestor, provider, name, correlationId);
      rpcs := rpcs[correlationId := RpcData(providers, servers, rpc)];
      OneCall(correlationId);
    }

    lemma GivenToClient(h: R.Handler, requestor: R.Peer, id: string, name: string, c: R.Candidates)
      requires R.Proper(c) && c.locals != []
      ensures var provider := c.locals[c.i];
        R.MakeRpc(h, requestor, id, name, c) ==
        R.SetProvider(h.(requests := h.requests[id := requestor]), id,
                      R.Call(name, requestor, requestor, false, false, false, {provider}, if requestor.Server? then None else Some({})),
                      R.Client(provider))
    {
      assert {} + {c.locals[c.i]} == {c.locals[c.i]};
    }

    /** A request from a client, or from another server, with a correlation id not seen before. */
    method MakeRpc(requestor: R.Peer, correlationId: string, name: string, c: R.Candidates)
      requires Valid() && R.Proper(c) && correlationId !in requests && correlationId !in rpcs
      modifies this
      ensures Valid() && Model() == R.MakeRpc(old(Model()), requestor, correlationId, name, c)
    {
      requests := requests[correlationId := requestor];
      assert Model() == old(Model()).(requests := requests) by {
        assert Calls() == old(Calls());
      }
      if c.locals != [] {
        var provider := c.locals[c.i];
        Launch(requestor, R.Client(provider), name, correlationId, {provider}, if requestor.Server? then None else Some({}));
        GivenToClient(old(Model()), requestor, correlationId, name, c);
        return;
      }
      if requestor.Server? {
        trace := R.After(trace, R.ToRequestor(correlationId, requestor, R.NoProvider));
        return;
      }
      MakeRemoteRpc(requestor, correlationId, name, c);
    }

    method MakeRemoteRpc(requestor: R.Peer, correlationId: string, name: string, c: R.Candidates)
      requires Valid() && R.Proper(c) && requestor.Client? && c.locals == [] && correlationId !in rpcs
      requires correlationId in requests && requests[correlationId] == requestor
      modifies this`rpcs, this`trace
      ensures Valid()
      ensures Model() == R.MakeRpc(old(Model()), requestor, correlationId, name, c)
    {
      assert requests[correlationId := requestor] == requests;
      if c.remotes != [] {
        var proxy := R.Server(c.remotes[c.j]);
        Launch(requestor, proxy, name, correlationId, {}, Some({}));
        return;
      }
      rpcs := rpcs - {correlationId};
      assert rpcs == old(rpcs);
      trace := R.After(trace, R.ToRequestor(correlationId, requestor, R.NoProvider));
    }

    /** An answer for a correlation id; one that is not known is dropped. */
    method OnAnswer(correlationId: string, answer: R.Answer, c: R.Candidates)
      requires Valid() && R.Proper(c)
      modifies this, Objects()
      ensures Valid() && Model() == R.Step(old(Model()), R.Answered(correlationId, answer, c))
    {
      if correlationId in rpcs {
        rpcs[correlationId].rpc.Handle(answer, c);
      }
    }
  }
}
