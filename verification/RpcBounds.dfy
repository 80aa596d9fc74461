/** How often a call can be given to providers over a whole run. */
module RpcBounds {
  import opened Common
  import opened Rpc

  predicate Within(p: Peer, locals: set<nat>, remotes: set<string>) {
    match p case Client(id) => id in locals case Server(name) => name in remotes
  }

  /** The candidates offered are among these. */
  predicate OffersOnly(c: Candidates, locals: set<nat>, remotes: set<string>) {
    Proper(c) && Members(c.locals) <= locals && Members(c.remotes) <= remotes
  }

  predicate EventOffersOnly(e: Event, locals: set<nat>, remotes: set<string>) {
    match e
    case Requested(_, _, _, c) => OffersOnly(c, locals, remotes)
    case Answered(_, _, c) => OffersOnly(c, locals, remotes)
    case _ => true
  }

  ghost predicate AllWithin(asked: seq<Peer>, locals: set<nat>, remotes: set<string>) {
    forall i :: 0 <= i < |asked| ==> Within(asked[i], locals, remotes)
  }

  lemma MakeRpcWithin(h: Handler, requestor: Peer, id: string, name: string, c: Candidates, x: string, locals: set<nat>, remotes: set<string>)
    requires OffersOnly(c, locals, remotes) && AllWithin(Asked(h.trace, x), locals, remotes)
    ensures AllWithin(Asked(MakeRpc(h, requestor, id, name, c).trace, x), locals, remotes)
  {
    if c.locals != [] { assert c.locals[c.i] in Members(c.locals); }
    if c.remotes != [] { assert c.remotes[c.j] in Members(c.remotes); }
  }

  lemma RerouteWithin(h: Handler, id: string, c: Candidates, x: string, locals: set<nat>, remotes: set<string>)
    requires id in h.rpcs && OffersOnly(c, locals, remotes) && AllWithin(Asked(h.trace, x), locals, remotes)
    ensures AllWithin(Asked(Reroute(h, id, c).trace, x), locals, remotes)
  {
    AlternativeIsComplete(h.rpcs[id], c);
    var p := Alternative(h.rpcs[id], c);
    if p.Some? {
      assert match p.value case Client(l) => l in Members(c.locals) case Server(r) => r in Members(c.remotes);
    }
  }

  lemma {:induction false} AskedWithin(events: seq<Event>, x: string, locals: set<nat>, remotes: set<string>)
    requires Run(events).Some? && forall i :: 0 <= i < |events| ==> EventOffersOnly(events[i], locals, remotes)
    ensures AllWithin(Asked(Run(events).value.trace, x), locals, remotes)
    decreases |events|
  {
    if events != [] {
      var before := events[..|events| - 1];
      AskedWithin(before, x, locals, remotes);
      var h := Run(before).value;
      match events[|events| - 1]
      case Requested(requestor, id, name, c) => MakeRpcWithin(h.(requests := h.requests[id := requestor]), requestor, id, name, c, x, locals, remotes);
      case Answered(id, answer, c) => if id in h.rpcs && answer.Rejects? { RerouteWithin(h, id, c, x, locals, remotes); }
      case _ =>
    }
  }

  lemma {:induction false} DistinctAreFew(asked: seq<Peer>, locals: set<nat>, remotes: set<string>)
    requires AllWithin(asked, locals, remotes) && forall i, j :: 0 <= i < j < |asked| ==> asked[i] != asked[j]
    ensures |asked| <= |locals| + |remotes|
    decreases |asked|
  {
    if asked != [] {
      match asked[0]
      case Client(id) => DistinctAreFew(asked[1..], locals - {id}, remotes);
      case Server(name) => DistinctAreFew(asked[1..], locals, remotes - {name});
    }
  }

  /** In every run: if all candidates that are ever offered are among some clients and servers, a call
      is given to providers at most once for each of them and once more. */
  lemma AskedIsBounded(events: seq<Event>, x: string, locals: set<nat>, remotes: set<string>)
    requires Run(events).Some? && forall i :: 0 <= i < |events| ==> EventOffersOnly(events[i], locals, remotes)
    ensures |Asked(Run(events).value.trace, x)| <= |locals| + |remotes| + 1
  {
    var asked := Asked(Run(events).value.trace, x);
    NeverForwardedTwice(events, x);
    AskedWithin(events, x, locals, remotes);
    if asked != [] {
      DistinctAreFew(asked[1..], locals, remotes);
    }
  }
}
