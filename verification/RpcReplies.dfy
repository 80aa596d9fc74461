/** Which replies the requestor of a call gets, in every run, told from the events of the call alone. */
module RpcReplies {
  import opened Common
  import opened Rpc

  // ---------- What the events say ----------

  /** Who made the request. */
  function Requestor(events: seq<Event>, x: string): Option<Peer>
    decreases |events|
  {
    if events == [] then None
    else
      match events[|events| - 1]
      case Requested(requestor, id, _, _) => if id == x then Some(requestor) else Requestor(events[..|events| - 1], x)
      case _ => Requestor(events[..|events| - 1], x)
  }

  predicate HasProvider(requestor: Peer, c: Candidates) {
    c.locals != [] || (requestor.Client? && c.remotes != [])
  }

  /** The candidate at the place that was drawn, a local client if there is one. */
  function Drawn(c: Candidates): Peer
    requires Proper(c) && (c.locals != [] || c.remotes != [])
  {
    if c.locals != [] then Client(c.locals[c.i]) else Server(c.remotes[c.j])
  }

  /** Somebody is left to ask: a local client that was not asked; or, for a client's call, a server that was
      not asked by a rerouting. */
  ghost predicate SomebodyLeft(asked: seq<Peer>, requestor: Peer, c: Candidates) {
    || (exists id :: id in c.locals && Client(id) !in asked)
    || (requestor.Client? && exists s :: s in c.remotes && Server(s) !in Later(asked))
  }

  function Later(asked: seq<Peer>): seq<Peer> {
    if asked == [] then [] else asked[1..]
  }

  /** The events so far have made the call and not ended it. */
  ghost predicate Lives(events: seq<Event>, x: string) {
    Requestor(events, x).Some? && Outcome(events, x).None?
  }

  /** The reply that the first event to end the call calls for. */
  ghost function Outcome(events: seq<Event>, x: string): Option<Reply>
    decreases |events|, 0
  {
    if events == [] then None
    else
      var past, e := events[..|events| - 1], events[|events| - 1];
      if Outcome(past, x).Some? then Outcome(past, x) else Ends(past, e, x)
  }

  ghost function Ends(past: seq<Event>, e: Event, x: string): Option<Reply> {
    var requestor := Requestor(past, x);
    match e
    case Requested(peer, id, _, c) => if id == x && !HasProvider(peer, c) then Some(NoProvider) else None
    case Answered(id, answer, c) =>
      if id != x || requestor.None? || answer.Accepts? then None
      else (match answer
            case Responds => Some(Response)
            case Fails => Some(RequestError)
            case Rejects => if SomebodyLeft(AskedBy(past, x), requestor.value, c) then None else Some(NoProvider))
    case AcceptTimerFired(id) => if id == x then Some(AcceptTimeout) else None
    case ResponseTimerFired(id) => if id == x then Some(ResponseTimeout) else None
  }

  /** Who was asked so far. */
  function AskedBy(events: seq<Event>, x: string): seq<Peer> {
    if Run(events).Some? then Asked(Run(events).value.trace, x) else []
  }

  ghost predicate Meets(past: seq<Event>, e: Event, x: string, answer: Answer) {
    Lives(past, x) && e.Answered? && e.id == x && e.answer == answer
  }

  /** A provider accepted while the call lived. */
  ghost predicate AcceptSeen(events: seq<Event>, x: string)
    decreases |events|
  {
    events != [] &&
    var past := events[..|events| - 1];
    AcceptSeen(past, x) || Meets(past, events[|events| - 1], x, Accepts)
  }

  /** It was rejected, and given to somebody else, after it had been accepted. */
  ghost predicate AskedAgain(events: seq<Event>, x: string)
    decreases |events|
  {
    events != [] &&
    var past := events[..|events| - 1];
    AskedAgain(past, x) || (AcceptSeen(past, x) && Meets(past, events[|events| - 1], x, Rejects))
  }

  // ---------- What the handler does ----------

  function Told(accepted: bool, outcome: Option<Reply>): seq<Reply> {
    (if accepted then [Accept] else []) + (if outcome.Some? then [outcome.value] else [])
  }

  /** The record of who was tried is who was asked, but for a server asked first. */
  ghost predicate Recalls(call: Call, asked: seq<Peer>) {
    && (forall id :: id in call.providers <==> Client(id) in asked)
    && (call.servers.Some? ==> forall s :: s in call.servers.value <==> Server(s) in Later(asked))
    && asked != []
  }

  ghost predicate Matches(h: Handler, requestor: Option<Peer>, outcome: Option<Reply>, accepted: bool, again: bool, x: string) {
    && (x in h.requests <==> requestor.Some?)
    && (requestor.Some? ==> h.requests[x] == requestor.value)
    && (x in h.rpcs <==> requestor.Some? && outcome.None?)
    && (requestor.None? ==> outcome.None? && !accepted)
    && Replies(h.trace, x) == Told(accepted, outcome)
    && (x in h.rpcs ==>
          var call := h.rpcs[x];
          && call.requestor == h.requests[x] && (call.servers.Some? <==> call.requestor.Client?)
          && call.isAccepted == accepted && call.responseTimer
          && (call.acceptTimer <==> !accepted || again)
          && Recalls(call, Asked(h.trace, x)))
  }

  ghost predicate Exact(h: Handler, events: seq<Event>, x: string) {
    Matches(h, Requestor(events, x), Outcome(events, x), AcceptSeen(events, x), AskedAgain(events, x), x)
  }

  /** A message about another call changes nothing here. */
  lemma Elsewhere(h: Handler, u: Handler, requestor: Option<Peer>, outcome: Option<Reply>, accepted: bool, again: bool, x: string)
    requires Matches(h, requestor, outcome, accepted, again, x)
    requires u.trace == h.trace || (u.trace.After? && u.trace.past == h.trace && u.trace.last.id != x)
    requires x in u.requests <==> x in h.requests
    requires x in h.requests ==> u.requests[x] == h.requests[x]
    requires x in u.rpcs <==> x in h.rpcs
    requires x in h.rpcs ==> u.rpcs[x] == h.rpcs[x]
    ensures Matches(u, requestor, outcome, accepted, again, x)
  {
    assert Replies(h.trace, x) + [] == Replies(h.trace, x);
    assert Asked(h.trace, x) + [] == Asked(h.trace, x);
  }

  lemma EndMatches(h: Handler, x: string, reply: Reply, requestor: Peer, accepted: bool, again: bool)
    requires Matches(h, Some(requestor), None, accepted, again, x)
    ensures Matches(End(h, x, reply), Some(requestor), Some(reply), accepted, again, x)
  {
    assert Replies(h.trace, x) + [reply] == Told(accepted, Some(reply));
  }

  lemma AskMatches(h: Handler, x: string, call: Call, p: Peer, requestor: Peer, accepted: bool, again: bool)
    requires x in h.requests && h.requests[x] == requestor == call.requestor
    requires call.servers.Some? <==> requestor.Client?
    requires call.isAccepted == accepted && Replies(h.trace, x) == Told(accepted, None)
    requires Recalls(call, Asked(h.trace, x) + [p]) && (!accepted || again)
    ensures Matches(SetProvider(h, x, call, p), Some(requestor), None, accepted, again, x)
  {
    OneAskMore(h.trace, x, p, x);
  }

  /** A call is given to a provider exactly if a local client offers itself, or a server does and the
      requestor is a client; then to the one that was drawn, clients first. */
  lemma GivenIff(h: Handler, requestor: Peer, x: string, name: string, c: Candidates)
    requires Proper(c) && x !in h.requests && x !in h.rpcs && Asked(h.trace, x) == [] && Replies(h.trace, x) == []
    ensures var u := MakeRpc(h, requestor, x, name, c);
      && (x in u.rpcs <==> HasProvider(requestor, c))
      && (HasProvider(requestor, c) ==> Asked(u.trace, x) == [Drawn(c)] && u.rpcs[x].provider == Drawn(c))
      && Matches(u, Some(requestor), if HasProvider(requestor, c) then None else Some(NoProvider), false, false, x)
  {
    var h1 := h.(requests := h.requests[x := requestor]);
    var call := NewCall(name, requestor);
    if HasProvider(requestor, c) {
      var p := Drawn(c);
      OneAskMore(h1.trace, x, p, x);
      assert [] + [p] == [p];
      AskMatches(h1, x, if p.Client? then Tried(call, p) else call, p, requestor, false, false);
    } else {
      assert Replies(h.trace, x) + [NoProvider] == Told(false, Some(NoProvider));
    }
  }

  lemma RerouteMatches(h: Handler, x: string, c: Candidates, requestor: Peer, accepted: bool, again: bool)
    requires Matches(h, Some(requestor), None, accepted, again, x) && Proper(c)
    ensures var left := SomebodyLeft(Asked(h.trace, x), requestor, c);
      Matches(Reroute(h, x, c), Some(requestor), if left then None else Some(NoProvider), accepted, again || accepted, x)
  {
    var call, asked := h.rpcs[x], Asked(h.trace, x);
    AlternativeIsComplete(call, c);
    var p := Alternative(call, c);
    LeftIff(call, asked, requestor, c);
    if p.Some? {
      TriedRecalls(call, asked, p.value);
      AskMatches(h, x, Tried(call, p.value), p.value, requestor, accepted, again || accepted);
    } else {
      EndMatches(h, x, NoProvider, requestor, accepted, again);
    }
  }

  lemma LeftIff(call: Call, asked: seq<Peer>, requestor: Peer, c: Candidates)
    requires Recalls(call, asked) && Proper(c) && (call.servers.Some? <==> requestor.Client?)
    ensures Alternative(call, c).Some? <==> SomebodyLeft(asked, requestor, c)
  {
    AlternativeIsComplete(call, c);
    if exists id :: id in c.locals && id !in call.providers {
      var id :| id in c.locals && id !in call.providers;
      assert Client(id) !in asked;
    }
    if call.servers.Some? && exists s :: s in c.remotes && s !in call.servers.value {
      var s :| s in c.remotes && s !in call.servers.value;
      assert Server(s) !in Later(asked);
    }
  }

  lemma TriedRecalls(call: Call, asked: seq<Peer>, p: Peer)
    requires Recalls(call, asked) && (p.Server? ==> call.servers.Some?)
    ensures Recalls(Tried(call, p), asked + [p])
  {
    assert Later(asked + [p]) == Later(asked) + [p];
  }

  lemma AcceptMatches(h: Handler, x: string, requestor: Peer, accepted: bool, again: bool)
    requires Matches(h, Some(requestor), None, accepted, again, x) && (again ==> accepted)
    ensures Matches(HandleAccept(h, x), Some(requestor), None, true, again, x)
  {
    assert Asked(HandleAccept(h, x).trace, x) == Asked(h.trace, x);
    assert [] + [Accept] == Told(true, None);
  }

  lemma AnswerExact(past: seq<Event>, h: Handler, e: Event, x: string)
    requires Run(past) == Some(h) && Exact(h, past, x) && Possible(h, e) && e.Answered? && e.id == x && x in h.rpcs
    requires AskedAgain(past, x) ==> AcceptSeen(past, x)
    ensures Exact(Step(h, e), past + [e], x)
  {
    var requestor := Requestor(past, x).value;
    var accepted, again := AcceptSeen(past, x), AskedAgain(past, x);
    assert (past + [e])[..|past|] == past;
    match e.answer
    case Accepts => AcceptMatches(h, x, requestor, accepted, again);
    case Rejects => RerouteMatches(h, x, e.c, requestor, accepted, again);
    case Responds => EndMatches(h, x, Response, requestor, accepted, again);
    case Fails => EndMatches(h, x, RequestError, requestor, accepted, again);
  }

  lemma TimerExact(past: seq<Event>, h: Handler, e: Event, x: string)
    requires Run(past) == Some(h) && Exact(h, past, x) && Possible(h, e)
    requires e == AcceptTimerFired(x) || e == ResponseTimerFired(x)
    ensures Exact(Step(h, e), past + [e], x)
  {
    assert (past + [e])[..|past|] == past;
    EndMatches(h, x, if e.AcceptTimerFired? then AcceptTimeout else ResponseTimeout, Requestor(past, x).value, AcceptSeen(past, x), AskedAgain(past, x));
  }

  lemma RequestExact(past: seq<Event>, h: Handler, e: Event, x: string)
    requires Run(past) == Some(h) && Exact(h, past, x) && Possible(h, e) && e.Requested? && e.id == x
    requires Asked(h.trace, x) == [] && (AskedAgain(past, x) ==> AcceptSeen(past, x))
    ensures Exact(Step(h, e), past + [e], x)
  {
    assert (past + [e])[..|past|] == past;
    GivenIff(h, e.requestor, x, e.name, e.c);
  }

  lemma OtherExact(past: seq<Event>, h: Handler, e: Event, x: string)
    requires Run(past) == Some(h) && Exact(h, past, x) && Possible(h, e)
    requires e.id != x || (e.Answered? && x !in h.rpcs)
    ensures Exact(Step(h, e), past + [e], x)
  {
    assert (past + [e])[..|past|] == past;
    OtherStep(h, e, x);
    Elsewhere(h, Step(h, e), Requestor(past, x), Outcome(past, x), AcceptSeen(past, x), AskedAgain(past, x), x);
  }

  lemma OtherStep(h: Handler, e: Event, x: string)
    requires Possible(h, e) && (e.id != x || (e.Answered? && x !in h.rpcs))
    ensures var u := Step(h, e);
      && (u.trace == h.trace || (u.trace.After? && u.trace.past == h.trace && u.trace.last.id == e.id != x))
      && (x in u.requests <==> x in h.requests) && (x in h.requests ==> u.requests[x] == h.requests[x])
      && (x in u.rpcs <==> x in h.rpcs) && (x in h.rpcs ==> u.rpcs[x] == h.rpcs[x])
  {
  }

  lemma {:induction false} AgainMeansAccepted(events: seq<Event>, x: string)
    requires AskedAgain(events, x)
    ensures AcceptSeen(events, x)
    decreases |events|
  {
    if AskedAgain(events[..|events| - 1], x) { AgainMeansAccepted(events[..|events| - 1], x); }
  }

  lemma {:induction false} RunExact(events: seq<Event>, x: string)
    requires Run(events).Some?
    ensures Exact(Run(events).value, events, x)
    decreases |events|
  {
    if events != [] {
      var past, e := events[..|events| - 1], events[|events| - 1];
      var h := Run(past).value;
      RunExact(past, x);
      RunKeeps(past, x);
      if AskedAgain(past, x) { AgainMeansAccepted(past, x); }
      assert past + [e] == events;
      if e.id != x || (e.Answered? && x !in h.rpcs) { OtherExact(past, h, e, x); }
      else if e.Answered? { AnswerExact(past, h, e, x); }
      else if e.Requested? { RequestExact(past, h, e, x); }
      else { TimerExact(past, h, e, x); }
    }
  }

  // ---------- The laws ----------

  /** In every run with distinct correlation ids, the requestor of a call is told exactly this: the accept, if a
      provider accepted while the call lived; and then what the first event that ends the call calls for, if
      there was one: RESPONSE for a response, REQUEST_ERROR for an error, the two timeouts for their timers, and
      NO_RPC_PROVIDER for a request that nobody can take, or a rejection when nobody is left to ask. */
  lemma RepliesAreTold(events: seq<Event>, x: string)
    requires Run(events).Some?
    ensures var h := Run(events).value;
      && Replies(h.trace, x) == Told(AcceptSeen(events, x), Outcome(events, x))
      && (x in h.rpcs <==> Lives(events, x))
      && (Requestor(events, x).Some? ==> RepliesGoTo(h.trace, x, Requestor(events, x).value))
  {
    RunExact(events, x);
    RunKeeps(events, x);
  }

  /** In every run a request is given to a provider exactly if a local client offers itself, or a server does and
      the requestor is a client, and then to the one that was drawn, clients first; otherwise the requestor is
      told NO_RPC_PROVIDER at once. */
  lemma RequestIsGivenIff(events: seq<Event>, requestor: Peer, x: string, name: string, c: Candidates)
    requires Run(events).Some? && Possible(Run(events).value, Requested(requestor, x, name, c))
    ensures var h := Run(events).value; var u := Step(h, Requested(requestor, x, name, c));
      && (x in u.rpcs <==> HasProvider(requestor, c))
      && (if HasProvider(requestor, c) then
            Asked(u.trace, x) == [Drawn(c)] && u.trace == After(h.trace, ToProvider(x, Drawn(c), Request))
          else u.trace == After(h.trace, ToRequestor(x, requestor, NoProvider)))
  {
    var h := Run(events).value;
    RunKeeps(events, x);
    GivenIff(h, requestor, x, name, c);
    if HasProvider(requestor, c) {
      assert MakeRpc(h, requestor, x, name, c).trace == After(h.trace, ToProvider(x, Drawn(c), Request));
    }
  }

  /** In every run a rejection of a call that lives moves it to somebody not asked before exactly if such a one
      is left, a local client if there is one; otherwise it ends the call. */
  lemma RejectionMoves(events: seq<Event>, x: string, c: Candidates)
    requires Run(events).Some? && Lives(events, x) && Proper(c)
    ensures var h := Run(events).value; var u := Step(h, Answered(x, Rejects, c)); var asked := Asked(h.trace, x);
      if SomebodyLeft(asked, Requestor(events, x).value, c) then
        exists p :: u.trace == After(h.trace, ToProvider(x, p, Request)) && x in u.rpcs && u.rpcs[x].provider == p
          && (match p
              case Client(id) => id in c.locals && p !in asked
              case Server(s) => s in c.remotes && p !in Later(asked) && forall id :: id in c.locals ==> Client(id) in asked)
      else x !in u.rpcs && u.trace == After(h.trace, ToRequestor(x, Requestor(events, x).value, NoProvider))
  {
    RunExact(events, x);
    var h := Run(events).value;
    var call := h.rpcs[x];
    AlternativeIsComplete(call, c);
    LeftIff(call, Asked(h.trace, x), call.requestor, c);
  }

  /** In every run the accept timer of a call that lives is off exactly if it was accepted and not given to
      somebody else since: a call that was rejected after it had been accepted ends with a timeout unless
      its answer beats the accept timer, since a second accept is refused. */
  lemma AcceptTimerIsOffIff(events: seq<Event>, x: string, c: Candidates)
    requires Run(events).Some? && Lives(events, x) && Proper(c)
    ensures var h := Run(events).value; var u := Step(h, Answered(x, Accepts, c));
      && (Possible(h, AcceptTimerFired(x)) <==> !AcceptSeen(events, x) || AskedAgain(events, x))
      && Possible(h, ResponseTimerFired(x))
      && Asked(h.trace, x) != []
      && (AcceptSeen(events, x) ==> u == Note(h, ToProvider(x, Asked(h.trace, x)[|Asked(h.trace, x)| - 1], MultipleAccept)))
  {
    RunExact(events, x);
    RunKeeps(events, x);
    AcceptTimerOff(Run(events).value, x, c, AcceptSeen(events, x), AskedAgain(events, x));
  }

  lemma AcceptTimerOff(h: Handler, x: string, c: Candidates, accepted: bool, again: bool)
    requires x in h.rpcs && h.rpcs[x].isAccepted == accepted && (h.rpcs[x].acceptTimer <==> !accepted || again) && h.rpcs[x].responseTimer
    requires Recorded(h.rpcs[x], Asked(h.trace, x)) && Proper(c)
    ensures var u := Step(h, Answered(x, Accepts, c));
      && (Possible(h, AcceptTimerFired(x)) <==> !accepted || again)
      && Possible(h, ResponseTimerFired(x))
      && Asked(h.trace, x) != []
      && (accepted ==> u == Note(h, ToProvider(x, Asked(h.trace, x)[|Asked(h.trace, x)| - 1], MultipleAccept)))
  {
  }
}
