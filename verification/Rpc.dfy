/** Remote procedure calls through one server: a request is given to a provider, rerouted when it is
    rejected, and ended by a response, an error, the lack of providers or one of two timers. */
module Rpc {
  import opened Common

  /** A client of this server, or another server. */
  datatype Peer = Client(id: nat) | Server(name: string)

  /** What a requestor can be sent; all but `Accept` end the call. */
  datatype Reply = Accept | Response | RequestError | NoProvider | AcceptTimeout | ResponseTimeout

  datatype ProviderMessage = Request | MultipleAccept

  datatype Trace = ToRequestor(id: string, to: Peer, reply: Reply) | ToProvider(id: string, to: Peer, message: ProviderMessage)

  datatype History = Start | After(past: History, last: Trace)

  /** One `Rpc` object with the handler's record of what it tried. `servers` is `None` for a call that
      came from another server. */
  datatype Call = Call(
    name: string, requestor: Peer, provider: Peer, isAccepted: bool, acceptTimer: bool, responseTimer: bool,
    providers: set<nat>, servers: Option<set<string>>)

  /** `requests`: who made each request so far, by correlation id. */
  datatype Handler = Handler(rpcs: map<string, Call>, requests: map<string, Peer>, trace: History)

  const IDLE := Handler(map[], map[], Start)

  /** Who provides the procedure at this moment: local clients and other servers, in the order of
      their sets, and the random places where the two scans start. */
  datatype Candidates = Candidates(locals: seq<nat>, i: nat, remotes: seq<string>, j: nat)

  predicate Proper(c: Candidates) {
    (c.locals != [] ==> c.i < |c.locals|) && (c.remotes != [] ==> c.j < |c.remotes|)
  }

  function Note(h: Handler, e: Trace): Handler {
    h.(trace := After(h.trace, e))
  }

  // ---------- The cyclic scan ----------

  function Next(index: nat, size: nat): (r: nat)
    requires index < size
    ensures r == if index + 1 == size then 0 else index + 1
  {
    (index + 1) % size
  }

  /** Visits `n` entries from `index` on, wrapping around, and stops at the first that was not tried. */
  function Scan<T(==)>(list: seq<T>, index: nat, n: nat, tried: set<T>): Option<T>
    requires n > 0 ==> index < |list|
    decreases n
  {
    if n == 0 then None
    else if list[index] !in tried then Some(list[index])
    else Scan(list, Next(index, |list|), n - 1, tried)
  }

  /** The places a scan of `n` entries from `index` visits. */
  predicate Visits(size: nat, index: nat, n: nat, k: nat) {
    index <= k < index + n || index <= k + size < index + n
  }

  lemma {:induction false} ScanFinds<T>(list: seq<T>, index: nat, n: nat, tried: set<T>)
    requires n > 0 ==> index < |list|
    ensures var r := Scan(list, index, n, tried); r.Some? ==> r.value in list && r.value !in tried
    decreases n
  {
    if n > 0 && list[index] in tried {
      ScanFinds(list, Next(index, |list|), n - 1, tried);
    }
  }

  lemma {:induction false} ScanMisses<T>(list: seq<T>, index: nat, n: nat, tried: set<T>, k: nat)
    requires n <= |list| && (n > 0 ==> index < |list|)
    requires Scan(list, index, n, tried).None? && k < |list| && Visits(|list|, index, n, k)
    ensures list[k] in tried
    decreases n
  {
    if n > 0 && k != index {
      ScanMisses(list, Next(index, |list|), n - 1, tried, k);
    }
  }

  /** A whole turn from any place finds an untried entry exactly if there is one. */
  lemma ScanIsComplete<T>(list: seq<T>, index: nat, tried: set<T>)
    requires list != [] ==> index < |list|
    ensures var r := Scan(list, index, |list|, tried);
      && (r.Some? ==> r.value in list && r.value !in tried)
      && (r.Some? <==> exists x :: x in list && x !in tried)
  {
    ScanFinds(list, index, |list|, tried);
    if Scan(list, index, |list|, tried).None? {
      forall x | x in list ensures x in tried {
        var k :| 0 <= k < |list| && list[k] == x;
        ScanMisses(list, index, |list|, tried, k);
      }
    }
  }

  // ---------- The handler ----------

  /** `getAlternativeProvider`: an untried local client, else an untried server if the call may leave. */
  function Alternative(call: Call, c: Candidates): Option<Peer>
    requires Proper(c)
  {
    var client := Scan(c.locals, c.i, |c.locals|, call.providers);
    if client.Some? then Some(Client(client.value))
    else if call.servers.None? then None
    else
      var server := Scan(c.remotes, c.j, |c.remotes|, call.servers.value);
      if server.Some? then Some(Server(server.value)) else None
  }

  /** The record of what was tried, with `p` added. */
  function Tried(call: Call, p: Peer): Call {
    match p
    case Client(id) => call.(providers := call.providers + {id})
    case Server(name) => if call.servers.Some? then call.(servers := Some(call.servers.value + {name})) else call
  }

  /** `setProvider`: both timers start anew, even on a call that is accepted. */
  function SetProvider(h: Handler, id: string, call: Call, p: Peer): Handler {
    Note(h.(rpcs := h.rpcs[id := call.(provider := p, acceptTimer := true, responseTimer := true)]), ToProvider(id, p, Request))
  }

  function End(h: Handler, id: string, reply: Reply): Handler
    requires id in h.rpcs
  {
    Note(h, ToRequestor(id, h.rpcs[id].requestor, reply)).(rpcs := h.rpcs - {id})
  }

  function NewCall(name: string, requestor: Peer): Call {
    Call(name, requestor, requestor, false, false, false, {}, if requestor.Server? then None else Some({}))
  }

  /** `makeRpc`: a random local client; else, for a local request only, a random server, which is not
      recorded as tried. */
  function MakeRpc(h0: Handler, requestor: Peer, id: string, name: string, c: Candidates): Handler
    requires Proper(c)
  {
    var h := h0.(requests := h0.requests[id := requestor]);
    var call := NewCall(name, requestor);
    if c.locals != [] then
      SetProvider(h, id, Tried(call, Client(c.locals[c.i])), Client(c.locals[c.i]))
    else if requestor.Client? && c.remotes != [] then
      SetProvider(h, id, call, Server(c.remotes[c.j]))
    else
      Note(h, ToRequestor(id, requestor, NoProvider))
  }

  function Reroute(h: Handler, id: string, c: Candidates): Handler
    requires id in h.rpcs && Proper(c)
  {
    var p := Alternative(h.rpcs[id], c);
    if p.Some? then SetProvider(h, id, Tried(h.rpcs[id], p.value), p.value) else End(h, id, NoProvider)
  }

  function HandleAccept(h: Handler, id: string): Handler
    requires id in h.rpcs
  {
    var call := h.rpcs[id];
    if call.isAccepted then Note(h, ToProvider(id, call.provider, MultipleAccept))
    else Note(h.(rpcs := h.rpcs[id := call.(acceptTimer := false, isAccepted := true)]), ToRequestor(id, call.requestor, Accept))
  }

  datatype Answer = Accepts | Rejects | Responds | Fails

  /** `Answered`: an answer from a provider, or whoever knows the correlation id; NO_RPC_PROVIDER from
      a server counts as a rejection. */
  datatype Event =
    | Requested(requestor: Peer, id: string, name: string, c: Candidates)
    | Answered(id: string, answer: Answer, c: Candidates)
    | AcceptTimerFired(id: string)
    | ResponseTimerFired(id: string)

  predicate Possible(h: Handler, e: Event) {
    match e
    case Requested(_, id, _, c) => id !in h.requests && Proper(c)
    case Answered(_, _, c) => Proper(c)
    case AcceptTimerFired(id) => id in h.rpcs && h.rpcs[id].acceptTimer
    case ResponseTimerFired(id) => id in h.rpcs && h.rpcs[id].responseTimer
  }

  function Step(h: Handler, e: Event): Handler
    requires Possible(h, e)
  {
    match e
    case Requested(requestor, id, name, c) => MakeRpc(h, requestor, id, name, c)
    case Answered(id, answer, c) =>
      if id !in h.rpcs then h
      else (match answer
            case Accepts => HandleAccept(h, id)
            case Rejects => Reroute(h, id, c)
            case Responds => End(h, id, Response)
            case Fails => End(h, id, RequestError))
    case AcceptTimerFired(id) => End(h, id, AcceptTimeout)
    case ResponseTimerFired(id) => End(h, id, ResponseTimeout)
  }

  function Run(events: seq<Event>): Option<Handler>
    decreases |events|
  {
    if events == [] then Some(IDLE)
    else
      var before := Run(events[..|events| - 1]);
      var e := events[|events| - 1];
      if before.Some? && Possible(before.value, e) then Some(Step(before.value, e)) else None
  }

  // ---------- What the requestor and the providers see ----------

  /** Everything sent to the requestor of call `x`, oldest first. */
  function Replies(t: History, x: string): seq<Reply> {
    match t
    case Start => []
    case After(past, ToRequestor(id, _, reply)) => Replies(past, x) + (if id == x then [reply] else [])
    case After(past, _) => Replies(past, x)
  }

  /** The peers that call `x` was sent to, oldest first. */
  function Asked(t: History, x: string): seq<Peer> {
    match t
    case Start => []
    case After(past, ToProvider(id, to, Request)) => Asked(past, x) + (if id == x then [to] else [])
    case After(past, _) => Asked(past, x)
  }

  /** Every reply of call `x` went to `to`. */
  predicate RepliesGoTo(t: History, x: string, to: Peer) {
    match t
    case Start => true
    case After(past, ToRequestor(id, peer, _)) => RepliesGoTo(past, x, to) && (id == x ==> peer == to)
    case After(past, _) => RepliesGoTo(past, x, to)
  }

  /** Nothing yet, or the accept. */
  predicate Open(replies: seq<Reply>, accepted: bool) {
    replies == if accepted then [Accept] else []
  }

  /** At most the accept, then exactly one reply that ends the call. */
  predicate Closed(replies: seq<Reply>) {
    replies != [] &&
    var before := replies[..|replies| - 1];
    replies[|replies| - 1] != Accept && (before == [] || before == [Accept])
  }

  /** No client is asked twice, and no server but the first one asked. */
  ghost predicate NoRepeats(asked: seq<Peer>) {
    forall i, j :: 0 <= i < j < |asked| && asked[i] == asked[j] ==> i == 0 && asked[0].Server?
  }

  /** What was asked is on record, but for a server asked first. */
  ghost predicate Recorded(call: Call, asked: seq<Peer>) {
    && asked != [] && asked[|asked| - 1] == call.provider
    && (forall i :: 0 <= i < |asked| ==>
          match asked[i]
          case Client(id) => id in call.providers
          case Server(name) => call.servers.Some? && (name in call.servers.value || i == 0))
  }

  ghost predicate Sound(h: Handler, x: string) {
    && (x in h.rpcs ==> x in h.requests)
    && (x !in h.requests ==> Replies(h.trace, x) == [] && Asked(h.trace, x) == [] && forall p :: RepliesGoTo(h.trace, x, p))
    && (x in h.requests ==> RepliesGoTo(h.trace, x, h.requests[x]))
    && (x in h.requests && h.requests[x].Server? ==> forall p :: p in Asked(h.trace, x) ==> p.Client?)
    && (x in h.requests && x !in h.rpcs ==> Closed(Replies(h.trace, x)))
    && NoRepeats(Asked(h.trace, x))
    && (x in h.rpcs ==>
          var call := h.rpcs[x];
          && call.requestor == h.requests[x]
          && Open(Replies(h.trace, x), call.isAccepted)
          && call.responseTimer && (call.acceptTimer || call.isAccepted)
          && (call.requestor.Server? <==> call.servers.None?)
          && Recorded(call, Asked(h.trace, x)))
  }

  lemma SetProviderKeeps(h: Handler, id: string, call: Call, p: Peer, x: string)
    requires id in h.requests && (id == x || Sound(h, x))
    requires id == x ==>
      && Open(Replies(h.trace, x), call.isAccepted)
      && call.requestor == h.requests[x] && (call.requestor.Server? <==> call.servers.None?)
      && RepliesGoTo(h.trace, x, h.requests[x])
      && NoRepeats(Asked(h.trace, x) + [p])
      && Recorded(call.(provider := p), Asked(h.trace, x) + [p])
    ensures Sound(SetProvider(h, id, call, p), x)
  {
    OneAskMore(h.trace, id, p, x);
  }

  lemma EndKeeps(h: Handler, id: string, reply: Reply, x: string)
    requires id in h.rpcs && Sound(h, x) && reply != Accept
    ensures Sound(End(h, id, reply), x)
  {
    var u := End(h, id, reply);
    assert Asked(u.trace, x) == Asked(h.trace, x);
    if id == x {
      assert Replies(u.trace, x) == Replies(h.trace, x) + [reply];
      assert Replies(u.trace, x)[..|Replies(u.trace, x)| - 1] == Replies(h.trace, x);
    } else {
      assert Replies(u.trace, x) == Replies(h.trace, x);
    }
  }

  lemma FirstAskKeeps(h0: Handler, requestor: Peer, id: string, call: Call, p: Peer, x: string)
    requires Sound(h0, x) && id !in h0.requests
    requires !call.isAccepted && call.requestor == requestor && (requestor.Server? <==> call.servers.None?)
    requires Recorded(call.(provider := p), [p])
    ensures Sound(SetProvider(h0.(requests := h0.requests[id := requestor]), id, call, p), x)
  {
    var h := h0.(requests := h0.requests[id := requestor]);
    if id == x {
      assert Asked(h.trace, x) + [p] == [p];
      SetProviderKeeps(h, id, call, p, x);
    } else {
      assert Sound(h, x);
      SetProviderKeeps(h, id, call, p, x);
    }
  }

  lemma NobodyKeeps(h0: Handler, requestor: Peer, id: string, x: string)
    requires Sound(h0, x) && id !in h0.requests
    ensures Sound(Note(h0.(requests := h0.requests[id := requestor]), ToRequestor(id, requestor, NoProvider)), x)
  {
    var t := h0.trace;
    OneReplyMore(t, id, requestor, NoProvider, x);
    if id == x {
      assert RepliesGoTo(t, x, requestor);
      assert Replies(t, x) + [NoProvider] == [NoProvider] && [NoProvider][..0] == [];
      assert Closed([NoProvider]);
    }
  }

  /** A message to a requestor changes what its own call was replied, and nothing else. */
  lemma OneReplyMore(t: History, id: string, to: Peer, reply: Reply, x: string)
    ensures var u := After(t, ToRequestor(id, to, reply));
      && Asked(u, x) == Asked(t, x)
      && Replies(u, x) == (if id == x then Replies(t, x) + [reply] else Replies(t, x))
      && (forall p :: RepliesGoTo(u, x, p) <==> RepliesGoTo(t, x, p) && (id == x ==> p == to))
  {
    assert Replies(t, x) + [] == Replies(t, x);
  }

  /** A request to a provider changes whom its own call was given to, and nothing else. */
  lemma OneAskMore(t: History, id: string, to: Peer, x: string)
    ensures var u := After(t, ToProvider(id, to, Request));
      && Asked(u, x) == (if id == x then Asked(t, x) + [to] else Asked(t, x))
      && Replies(u, x) == Replies(t, x)
      && (forall p :: RepliesGoTo(u, x, p) <==> RepliesGoTo(t, x, p))
  {
    assert Asked(t, x) + [] == Asked(t, x);
  }

  lemma MakeRpcKeeps(h0: Handler, requestor: Peer, id: string, name: string, c: Candidates, x: string)
    requires Sound(h0, x) && id !in h0.requests && Proper(c)
    ensures Sound(MakeRpc(h0, requestor, id, name, c), x)
  {
    var call := NewCall(name, requestor);
    if c.locals != [] {
      var p := Client(c.locals[c.i]);
      FirstAskKeeps(h0, requestor, id, Tried(call, p), p, x);
    } else if requestor.Client? && c.remotes != [] {
      FirstAskKeeps(h0, requestor, id, call, Server(c.remotes[c.j]), x);
    } else {
      NobodyKeeps(h0, requestor, id, x);
    }
  }

  lemma RerouteKeeps(h: Handler, id: string, c: Candidates, x: string)
    requires Sound(h, x) && Sound(h, id) && id in h.rpcs && Proper(c)
    ensures Sound(Reroute(h, id, c), x)
  {
    var call := h.rpcs[id];
    var p := Alternative(call, c);
    if p.Some? {
      ScanIsComplete(c.locals, c.i, call.providers);
      if call.servers.Some? { ScanIsComplete(c.remotes, c.j, call.servers.value); }
      AskedAnew(call, Asked(h.trace, id), p.value);
      SetProviderKeeps(h, id, Tried(call, p.value), p.value, x);
    } else {
      EndKeeps(h, id, NoProvider, x);
    }
  }

  lemma AskedAnew(call: Call, asked: seq<Peer>, p: Peer)
    requires Recorded(call, asked) && NoRepeats(asked)
    requires match p case Client(id) => id !in call.providers case Server(name) => call.servers.Some? && name !in call.servers.value
    ensures NoRepeats(asked + [p]) && Recorded(Tried(call, p).(provider := p), asked + [p])
  {
  }

  lemma AcceptKeeps(h: Handler, id: string, x: string)
    requires Sound(h, x) && id in h.rpcs
    ensures Sound(HandleAccept(h, id), x)
  {
    var u := HandleAccept(h, id);
    assert Asked(u.trace, x) == Asked(h.trace, x);
    assert Replies(u.trace, x) ==
           if id == x && !h.rpcs[id].isAccepted then Replies(h.trace, x) + [Accept] else Replies(h.trace, x);
  }

  lemma StepKeeps(h: Handler, e: Event, x: string)
    requires Possible(h, e) && forall y :: Sound(h, y)
    ensures Sound(Step(h, e), x)
  {
    assert Sound(h, x);
    match e
    case Requested(requestor, id, name, c) => MakeRpcKeeps(h, requestor, id, name, c, x);
    case Answered(id, answer, c) =>
      if id in h.rpcs {
        assert Sound(h, id);
        match answer {
          case Accepts => AcceptKeeps(h, id, x);
          case Rejects => RerouteKeeps(h, id, c, x);
          case Responds => EndKeeps(h, id, Response, x);
          case Fails => EndKeeps(h, id, RequestError, x);
        }
      }
    case AcceptTimerFired(id) => EndKeeps(h, id, AcceptTimeout, x);
    case ResponseTimerFired(id) => EndKeeps(h, id, ResponseTimeout, x);
  }

  lemma {:induction false} RunKeeps(events: seq<Event>, x: string)
    requires Run(events).Some?
    ensures Sound(Run(events).value, x)
    decreases |events|
  {
    if events == [] {
    } else {
      var before := events[..|events| - 1];
      forall y ensures Sound(Run(before).value, y) {
        RunKeeps(before, y);
      }
      StepKeeps(Run(before).value, events[|events| - 1], x);
    }
  }

  /** With distinct correlation ids, in every run: the requestor of a call gets at most one accept and
      at most one final reply, with nothing after it; a call that lives has its response timer armed,
      and has had no final reply; one that does not live any more has had it; and every reply goes to the
      one who made the request. */
  lemma OneReply(events: seq<Event>, x: string)
    requires Run(events).Some?
    ensures var h := Run(events).value; var replies := Replies(h.trace, x);
      && (forall i :: 0 <= i < |replies| && replies[i] != Accept ==> i == |replies| - 1)
      && (forall i, j :: 0 <= i < j < |replies| ==> replies[i] != replies[j])
      && (x in h.rpcs ==> h.rpcs[x].responseTimer && (forall r :: r in replies ==> r == Accept))
      && (x in h.requests && x !in h.rpcs ==> Closed(replies))
      && (x in h.requests ==> RepliesGoTo(h.trace, x, h.requests[x]))
  {
    RunKeeps(events, x);
    var replies := Replies(Run(events).value.trace, x);
    if Closed(replies) {
      var before := replies[..|replies| - 1];
      assert forall i :: 0 <= i < |before| ==> replies[i] == before[i] == Accept;
    }
  }

  /** A call that came from another server is only ever given to clients of this server. No client is
      asked twice for one call, and no server but possibly the first, which `makeRemoteRpc` leaves
      unrecorded. */
  lemma NeverForwardedTwice(events: seq<Event>, x: string)
    requires Run(events).Some?
    ensures var h := Run(events).value; var asked := Asked(h.trace, x);
      && (x in h.requests && h.requests[x].Server? ==> forall p :: p in asked ==> p.Client?)
      && (forall i, j :: 0 <= i < j < |asked| && asked[i] == asked[j] ==> i == 0 && asked[0].Server?)
  {
    RunKeeps(events, x);
  }

  // ---------- Rerouting ends ----------

  /** Candidates of a call that were not tried yet. */
  function Untried(call: Call, locals: set<nat>, remotes: set<string>): nat {
    |locals - call.providers| + (if call.servers.Some? then |remotes - call.servers.value| else 0)
  }

  function Members<T(==)>(list: seq<T>): set<T> {
    set x | x in list
  }

  predicate Offers(c: Candidates, locals: set<nat>, remotes: set<string>) {
    Proper(c) && Members(c.locals) == locals && Members(c.remotes) == remotes
  }

  /** With a fixed set of candidates each rejection uses one up, or there was none left and the call
      ends with NO_RPC_PROVIDER. */
  lemma RerouteShortens(h: Handler, id: string, c: Candidates, locals: set<nat>, remotes: set<string>)
    requires id in h.rpcs && Offers(c, locals, remotes)
    ensures var u := Reroute(h, id, c); var n := Untried(h.rpcs[id], locals, remotes);
      if n == 0 then id !in u.rpcs && u.trace == After(h.trace, ToRequestor(id, h.rpcs[id].requestor, NoProvider))
      else id in u.rpcs && Untried(u.rpcs[id], locals, remotes) == n - 1
  {
    var call := h.rpcs[id];
    AlternativeShortens(call, c, locals, remotes);
    var p := Alternative(call, c);
    if p.Some? {
      var next := Reroute(h, id, c).rpcs[id];
      assert next.providers == Tried(call, p.value).providers && next.servers == Tried(call, p.value).servers;
    }
  }

  lemma AlternativeShortens(call: Call, c: Candidates, locals: set<nat>, remotes: set<string>)
    requires Offers(c, locals, remotes)
    ensures var p := Alternative(call, c);
      if p.Some? then Untried(Tried(call, p.value), locals, remotes) == Untried(call, locals, remotes) - 1
      else Untried(call, locals, remotes) == 0
  {
    var client := Scan(c.locals, c.i, |c.locals|, call.providers);
    assert if client.Some? then |locals - (call.providers + {client.value})| == |locals - call.providers| - 1
           else |locals - call.providers| == 0 by {
      ScanShortens(c.locals, c.i, call.providers, locals);
    }
    if client.None? && call.servers.Some? {
      var tried := call.servers.value;
      var server := Scan(c.remotes, c.j, |c.remotes|, tried);
      assert if server.Some? then |remotes - (tried + {server.value})| == |remotes - tried| - 1 else |remotes - tried| == 0 by {
        ScanShortens(c.remotes, c.j, tried, remotes);
      }
    }
  }

  lemma ScanShortens<T>(list: seq<T>, index: nat, tried: set<T>, all: set<T>)
    requires (list != [] ==> index < |list|) && Members(list) == all
    ensures var r := Scan(list, index, |list|, tried);
      if r.Some? then |all - (tried + {r.value})| == |all - tried| - 1 else |all - tried| == 0
  {
    ScanIsComplete(list, index, tried);
    var r := Scan(list, index, |list|, tried);
    if r.Some? {
      assert r.value in all;
      assert all - (tried + {r.value}) == (all - tried) - {r.value};
    } else {
      assert forall x :: x in all ==> x in list;
      assert all - tried == {};
    }
  }

  /** Rejections of one call, one after the other. */
  function RejectAll(h: Handler, id: string, cs: seq<Candidates>): Handler
    requires forall i :: 0 <= i < |cs| ==> Proper(cs[i])
    decreases |cs|
  {
    if cs == [] || id !in h.rpcs then h else RejectAll(Reroute(h, id, cs[0]), id, cs[1..])
  }

  lemma {:induction false} ReroutingTerminates(h: Handler, id: string, cs: seq<Candidates>, locals: set<nat>, remotes: set<string>)
    requires id in h.rpcs && forall i :: 0 <= i < |cs| ==> Offers(cs[i], locals, remotes)
    requires |cs| > Untried(h.rpcs[id], locals, remotes)
    requires forall i :: 0 <= i < |cs| ==> Proper(cs[i])
    ensures id !in RejectAll(h, id, cs).rpcs
    decreases |cs|
  {
    RerouteShortens(h, id, cs[0], locals, remotes);
    var u := Reroute(h, id, cs[0]);
    if id in u.rpcs {
      ReroutingTerminates(u, id, cs[1..], locals, remotes);
    }
  }

  /** `getAlternativeProvider` finds a candidate exactly if there is an untried local client or, for a
      call that may leave the server, an untried server; it prefers clients, and never returns a
      recorded candidate, wherever its scans start. */
  lemma AlternativeIsComplete(call: Call, c: Candidates)
    requires Proper(c)
    ensures var p := Alternative(call, c);
      var freshClient := exists x :: x in c.locals && x !in call.providers;
      var freshServer := call.servers.Some? && exists s :: s in c.remotes && s !in call.servers.value;
      && (p.Some? <==> freshClient || freshServer)
      && (p.Some? ==> match p.value
                      case Client(x) => x in c.locals && x !in call.providers
                      case Server(s) => !freshClient && s in c.remotes && call.servers.Some? && s !in call.servers.value)
  {
    ScanIsComplete(c.locals, c.i, call.providers);
    if call.servers.Some? {
      ScanIsComplete(c.remotes, c.j, call.servers.value);
    }
  }
}
