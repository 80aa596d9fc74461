/** Cluster-wide locks: one server, the leader, keeps the set of locks; the others ask it with
    messages. Requests can time out and their answers can come late, be reordered or be lost. */
module Locks {
  import opened Common

  /** The one `timeouts` map holds request timers on a follower and hold timers on the leader. */
  datatype Timer = RequestTimer | HoldTimer

  /** `waiting`: the one-shot listeners that wait for an answer, by lock name. */
  datatype Server = Server(locks: set<string>, timeouts: map<string, Timer>, waiting: multiset<string>)

  const IDLE := Server({}, map[], multiset{})

  /** `getLock` on the leader. */
  function GetLock(n: Server, name: string): (Server, bool) {
    if name in n.locks then (n, false)
    else (n.(timeouts := n.timeouts[name := HoldTimer], locks := n.locks + {name}), true)
  }

  function ReleaseLock(n: Server, name: string): Server {
    n.(timeouts := n.timeouts - {name}, locks := n.locks - {name})
  }

  /** `getRemoteLock` on a follower. */
  function AskLeader(n: Server, name: string): Server {
    n.(timeouts := n.timeouts[name := RequestTimer], waiting := n.waiting + multiset{name})
  }

  /** `handleRemoteLockResponse`: the node afterwards; every listener of the name is told. */
  function TakeAnswer(n: Server, name: string): Server {
    n.(timeouts := n.timeouts - {name}, waiting := n.waiting[name := 0])
  }

  datatype Packet = Request(from: string, name: string) | Response(to: string, name: string, locked: bool) | Release(name: string)

  /** `holders`: for each callback that was told true and whose owner has not released since, the
      server and the lock name. `net`: messages in flight. */
  datatype System = System(leader: string, nodes: map<string, Server>, net: seq<Packet>, holders: seq<(string, string)>)

  datatype Event =
    | Get(node: string, name: string)
    | GiveBack(i: nat)
    | Deliver(i: nat)
    | Lose(i: nat)
    | RequestTimeout(node: string, name: string)
    | HoldTimeout(name: string)

  predicate Possible(s: System, e: Event) {
    && s.leader in s.nodes
    && match e
       case Get(node, _) => node in s.nodes
       case GiveBack(i) => i < |s.holders| && s.holders[i].0 in s.nodes
       case Deliver(i) => i < |s.net| && (s.net[i].Response? ==> s.net[i].to in s.nodes)
       case Lose(i) => i < |s.net|
       case RequestTimeout(node, name) => node in s.nodes && node != s.leader && name in s.nodes[node].timeouts
       case HoldTimeout(name) => name in s.nodes[s.leader].timeouts
  }

  function Without<T>(s: seq<T>, i: nat): seq<T>
    requires i < |s|
  {
    s[..i] + s[i + 1..]
  }

  function Copies(n: nat, node: string, name: string): seq<(string, string)> {
    seq(n, _ => (node, name))
  }

  /** A node is told the answer to its pending request. */
  function Answer(s: System, node: string, name: string, result: bool): System
    requires node in s.nodes
  {
    var told := s.nodes[node].waiting[name];
    s.(nodes := s.nodes[node := TakeAnswer(s.nodes[node], name)],
       holders := if result then s.holders + Copies(told, node, name) else s.holders)
  }

  function Step(s: System, e: Event): System
    requires Possible(s, e)
  {
    match e
    case Get(node, name) =>
      if node == s.leader then
        var (n, granted) := GetLock(s.nodes[node], name);
        s.(nodes := s.nodes[node := n], holders := if granted then s.holders + [(node, name)] else s.holders)
      else if name !in s.nodes[node].timeouts then
        s.(nodes := s.nodes[node := AskLeader(s.nodes[node], name)], net := s.net + [Request(node, name)])
      else s
    case GiveBack(i) =>
      var (node, name) := s.holders[i];
      var freed := s.(holders := Without(s.holders, i));
      if node == s.leader then freed.(nodes := s.nodes[node := ReleaseLock(s.nodes[node], name)])
      else freed.(net := s.net + [Release(name)])
    case Deliver(i) =>
      var rest := s.(net := Without(s.net, i));
      match s.net[i] {
        case Request(from, name) =>
          var (n, granted) := GetLock(s.nodes[s.leader], name);
          rest.(nodes := s.nodes[s.leader := n], net := rest.net + [Response(from, name, granted)])
        case Release(name) => rest.(nodes := s.nodes[s.leader := ReleaseLock(s.nodes[s.leader], name)])
        case Response(to, name, locked) => Answer(rest, to, name, locked)
      }
    case Lose(i) => s.(net := Without(s.net, i))
    case RequestTimeout(node, name) => Answer(s, node, name, false)
    case HoldTimeout(name) => s.(nodes := s.nodes[s.leader := ReleaseLock(s.nodes[s.leader], name)])
  }

  function Begin(leader: string, servers: set<string>): System {
    System(leader, map n | n in servers :: IDLE, [], [])
  }

  function Run(leader: string, servers: set<string>, events: seq<Event>): Option<System>
    decreases |events|
  {
    if events == [] then Some(Begin(leader, servers))
    else
      var before := Run(leader, servers, events[..|events| - 1]);
      var e := events[|events| - 1];
      if before.Some? && Possible(before.value, e) then Some(Step(before.value, e)) else None
  }

  // ---------- Claims ----------

  function Holds(holders: seq<(string, string)>, name: string): nat {
    if holders == [] then 0 else (if holders[0].1 == name then 1 else 0) + Holds(holders[1..], name)
  }

  /** A packet that carries a claim: an answer true, or a release, on its way. */
  predicate Carries(p: Packet, name: string) {
    p == Release(name) || (p.Response? && p.name == name && p.locked)
  }

  function Carried(net: seq<Packet>, name: string): nat {
    if net == [] then 0 else (if Carries(net[0], name) then 1 else 0) + Carried(net[1..], name)
  }

  /** Owners told true, plus answers true in flight, plus releases in flight. */
  function Claims(s: System, name: string): nat {
    Holds(s.holders, name) + Carried(s.net, name)
  }

  lemma {:induction false} HoldsAppend(a: seq<(string, string)>, b: seq<(string, string)>, name: string)
    ensures Holds(a + b, name) == Holds(a, name) + Holds(b, name)
    decreases |a|
  {
    if a == [] {
      assert a + b == b;
    } else {
      assert (a + b)[1..] == a[1..] + b;
      HoldsAppend(a[1..], b, name);
    }
  }

  lemma {:induction false} CarriedAppend(a: seq<Packet>, b: seq<Packet>, name: string)
    ensures Carried(a + b, name) == Carried(a, name) + Carried(b, name)
    decreases |a|
  {
    if a == [] {
      assert a + b == b;
    } else {
      assert (a + b)[1..] == a[1..] + b;
      CarriedAppend(a[1..], b, name);
    }
  }

  lemma HoldsOne(node: string, held: string, name: string)
    ensures Holds([(node, held)], name) == if held == name then 1 else 0
  {
    assert [(node, held)][1..] == [];
  }

  lemma CarriedOne(p: Packet, name: string)
    ensures Carried([p], name) == if Carries(p, name) then 1 else 0
  {
    assert [p][1..] == [];
  }

  lemma HoldsWithout(holders: seq<(string, string)>, i: nat, name: string)
    requires i < |holders|
    ensures Holds(holders, name) == Holds(Without(holders, i), name) + (if holders[i].1 == name then 1 else 0)
  {
    assert holders == holders[..i] + ([holders[i]] + holders[i + 1..]);
    HoldsAppend(holders[..i], [holders[i]] + holders[i + 1..], name);
    HoldsAppend([holders[i]], holders[i + 1..], name);
    HoldsAppend(holders[..i], holders[i + 1..], name);
    HoldsOne(holders[i].0, holders[i].1, name);
  }

  lemma CarriedWithout(net: seq<Packet>, i: nat, name: string)
    requires i < |net|
    ensures Carried(net, name) == Carried(Without(net, i), name) + (if Carries(net[i], name) then 1 else 0)
  {
    assert net == net[..i] + ([net[i]] + net[i + 1..]);
    CarriedAppend(net[..i], [net[i]] + net[i + 1..], name);
    CarriedAppend([net[i]], net[i + 1..], name);
    CarriedAppend(net[..i], net[i + 1..], name);
    CarriedOne(net[i], name);
  }

  // ---------- Mutual exclusion ----------

  /** At most one claim, and only while the leader has the name locked; a follower waits for at most
      one answer, exactly while its request timer runs. */
  ghost predicate Exclusive(s: System, name: string) {
    && s.leader in s.nodes
    && Claims(s, name) <= (if name in s.nodes[s.leader].locks then 1 else 0)
    && (forall n :: n in s.nodes ==> Patient(s, n, name))
    && (forall p :: p in s.net && p.Response? ==> p.to != s.leader)
    && (forall p :: p in s.net && p.Request? ==> p.from != s.leader)
  }

  predicate Patient(s: System, n: string, name: string)
    requires n in s.nodes
  {
    s.nodes[n].waiting[name] == if n != s.leader && name in s.nodes[n].timeouts then 1 else 0
  }

  lemma GetKeeps(s: System, node: string, asked: string, name: string)
    requires Exclusive(s, name) && Possible(s, Get(node, asked))
    ensures Exclusive(Step(s, Get(node, asked)), name)
  {
    HoldsAppend(s.holders, [(node, asked)], name);
    HoldsOne(node, asked, name);
    CarriedAppend(s.net, [Request(node, asked)], name);
    CarriedOne(Request(node, asked), name);
  }

  lemma GiveBackKeeps(s: System, i: nat, name: string)
    requires Exclusive(s, name) && Possible(s, GiveBack(i))
    ensures Exclusive(Step(s, GiveBack(i)), name)
  {
    var held := s.holders[i].1;
    HoldsWithout(s.holders, i, name);
    CarriedAppend(s.net, [Release(held)], name);
    CarriedOne(Release(held), name);
  }

  lemma AnswerKeeps(s: System, node: string, asked: string, result: bool, name: string)
    requires s.leader in s.nodes && node in s.nodes && node != s.leader
    requires Claims(s, name) + (if result && asked == name then 1 else 0) <= (if name in s.nodes[s.leader].locks then 1 else 0)
    requires forall n :: n in s.nodes ==> Patient(s, n, name) && Patient(s, n, asked)
    requires forall p :: p in s.net && p.Response? ==> p.to != s.leader
    requires forall p :: p in s.net && p.Request? ==> p.from != s.leader
    ensures Exclusive(Answer(s, node, asked, result), name)
  {
    var told := s.nodes[node].waiting[asked];
    assert Patient(s, node, asked);
    HoldsAppend(s.holders, Copies(told, node, asked), name);
    if told == 1 {
      assert Copies(told, node, asked) == [(node, asked)];
      HoldsOne(node, asked, name);
    } else {
      assert Copies(told, node, asked) == [];
    }
  }

  lemma DeliverKeeps(s: System, i: nat, name: string)
    requires Possible(s, Deliver(i)) && forall x :: Exclusive(s, x)
    ensures Exclusive(Step(s, Deliver(i)), name)
  {
    var rest := s.(net := Without(s.net, i));
    assert Exclusive(s, name);
    CarriedWithout(s.net, i, name);
    assert s.net[i] in s.net;
    assert forall p :: p in rest.net ==> p in s.net;
    match s.net[i]
    case Request(from, asked) =>
      var granted := GetLock(s.nodes[s.leader], asked).1;
      CarriedAppend(rest.net, [Response(from, asked, granted)], name);
      CarriedOne(Response(from, asked, granted), name);
    case Release(held) =>
    case Response(to, asked, locked) =>
      assert Exclusive(s, asked);
      forall n | n in s.nodes ensures Patient(rest, n, name) && Patient(rest, n, asked) {
        assert Patient(s, n, name) && Patient(s, n, asked);
      }
      AnswerKeeps(rest, to, asked, locked, name);
  }

  lemma StepKeeps(s: System, e: Event, name: string)
    requires Possible(s, e) && !e.HoldTimeout? && forall x :: Exclusive(s, x)
    ensures Exclusive(Step(s, e), name)
  {
    assert Exclusive(s, name);
    match e
    case Get(node, asked) => GetKeeps(s, node, asked, name);
    case GiveBack(i) => GiveBackKeeps(s, i, name);
    case Deliver(i) => DeliverKeeps(s, i, name);
    case Lose(i) =>
      CarriedWithout(s.net, i, name);
      assert forall p :: p in Without(s.net, i) ==> p in s.net;
    case RequestTimeout(node, asked) =>
      assert Exclusive(s, asked);
      AnswerKeeps(s, node, asked, false, name);
  }

  lemma {:induction false} RunKeeps(leader: string, servers: set<string>, events: seq<Event>, name: string)
    requires leader in servers && Run(leader, servers, events).Some?
    requires forall i :: 0 <= i < |events| ==> !events[i].HoldTimeout?
    ensures Exclusive(Run(leader, servers, events).value, name)
    decreases |events|
  {
    if events == [] {
    } else {
      var before := events[..|events| - 1];
      var s := Run(leader, servers, before).value;
      forall x ensures Exclusive(s, x) {
        RunKeeps(leader, servers, before, x);
      }
      StepKeeps(s, events[|events| - 1], name);
    }
  }

  /** With a fixed leader and no hold timer firing: at most one claim on a lock at any time, and none
      unless the leader has it locked, whatever times out, comes late, is reordered or is lost; so two
      owners are never told true for the same lock at the same time. */
  lemma MutualExclusion(leader: string, servers: set<string>, events: seq<Event>, name: string)
    requires leader in servers && Run(leader, servers, events).Some?
    requires forall i :: 0 <= i < |events| ==> !events[i].HoldTimeout?
    ensures var s := Run(leader, servers, events).value;
      && s.leader in s.nodes
      && Claims(s, name) <= 1 && (Claims(s, name) == 1 ==> name in s.nodes[s.leader].locks)
      && forall i, j :: 0 <= i < |s.holders| && 0 <= j < |s.holders| && s.holders[i].1 == s.holders[j].1 == name ==> i == j
  {
    RunKeeps(leader, servers, events, name);
    var s := Run(leader, servers, events).value;
    forall i, j | 0 <= i < |s.holders| && 0 <= j < |s.holders| && s.holders[i].1 == s.holders[j].1 == name ensures i == j {
      if i < j { TwoHolders(s.holders, i, j, name); }
      if j < i { TwoHolders(s.holders, j, i, name); }
    }
  }

  lemma {:induction false} TwoHolders(holders: seq<(string, string)>, i: nat, j: nat, name: string)
    requires i < j < |holders| && holders[i].1 == holders[j].1 == name
    ensures Holds(holders, name) >= 2
  {
    HoldsWithout(holders, i, name);
    HoldsWithout(Without(holders, i), j - 1, name);
  }

  /** A hold timer keeps the claims in order exactly when nobody has one. */
  lemma TimeoutKeepsClaimsIff(s: System, name: string)
    requires Exclusive(s, name) && Possible(s, HoldTimeout(name))
    ensures Exclusive(Step(s, HoldTimeout(name)), name) <==> Claims(s, name) == 0
  {
    var s' := Step(s, HoldTimeout(name));
    forall n | n in s'.nodes ensures Patient(s', n, name) {
      assert Patient(s, n, name);
    }
  }

  /** Otherwise the next request that reaches the leader makes a second claim. */
  lemma HoldTimeoutDoublesClaim(s: System, name: string)
    requires Exclusive(s, name) && Possible(s, HoldTimeout(name)) && Claims(s, name) == 1
    ensures Claims(Step(Step(s, HoldTimeout(name)), Get(s.leader, name)), name) == 2
  {
    HoldsAppend(s.holders, [(s.leader, name)], name);
    HoldsOne(s.leader, name, name);
  }

  // ---------- Leader election ----------

  /** `getLeader`: the first server of the iteration with the highest score above `best`, or `leader`
      when no score is above `best`. */
  function Elect(order: seq<string>, scores: map<string, real>, leader: string, best: real): string
    requires forall n :: n in order ==> n in scores
    decreases |order|
  {
    if order == [] then leader
    else if scores[order[0]] > best then Elect(order[1..], scores, order[0], scores[order[0]])
    else Elect(order[1..], scores, leader, best)
  }

  /** The leader as `self` sees it. */
  function Leader(self: string, order: seq<string>, scores: map<string, real>): string
    requires forall n :: n in order ==> n in scores
  {
    Elect(order, scores, self, 0.0)
  }

  /** `top` has a positive score above every other one. */
  ghost predicate Outright(top: string, scores: map<string, real>) {
    && top in scores && scores[top] > 0.0
    && forall n :: n in scores && n != top ==> scores[n] < scores[top]
  }

  lemma {:induction false} ElectsTop(order: seq<string>, scores: map<string, real>, leader: string, best: real, top: string)
    requires forall n :: n in order ==> n in scores
    requires Outright(top, scores) && (top in order || leader == top)
    requires if leader == top then best == scores[top] else best < scores[top]
    ensures Elect(order, scores, leader, best) == top
    decreases |order|
  {
    if order == [] {
    } else if scores[order[0]] > best {
      ElectsTop(order[1..], scores, order[0], scores[order[0]], top);
    } else {
      ElectsTop(order[1..], scores, leader, best, top);
    }
  }

  /** Servers that share one map of scores with an outright winner all elect that one, whatever the
      iteration order of each, so exactly one of them takes itself for the leader. */
  lemma OneLeader(scores: map<string, real>, top: string, self: string, order: seq<string>)
    requires Outright(top, scores) && self in scores
    requires forall n :: n in order <==> n in scores
    ensures Leader(self, order, scores) == top
    ensures Leader(self, order, scores) == self <==> self == top
  {
    if self == top {
      SelfElects(order, scores, top, 0.0);
    } else {
      ElectsTop(order, scores, self, 0.0, top);
    }
  }

  lemma {:induction false} SelfElects(order: seq<string>, scores: map<string, real>, top: string, best: real)
    requires forall n :: n in order ==> n in scores
    requires Outright(top, scores) && best <= scores[top] && (best == scores[top] || top in order)
    ensures Elect(order, scores, top, best) == top
    decreases |order|
  {
    if order == [] {
    } else if scores[order[0]] > best {
      ElectsTop(order[1..], scores, order[0], scores[order[0]], top);
    } else {
      SelfElects(order[1..], scores, top, best);
    }
  }

  /** Distinct positive scores always have an outright winner. */
  lemma {:induction false} DistinctScoresHaveWinner(scores: map<string, real>) returns (top: string)
    requires scores != map[]
    requires forall n :: n in scores ==> scores[n] > 0.0
    requires forall m, n :: m in scores && n in scores && m != n ==> scores[m] != scores[n]
    ensures Outright(top, scores)
    decreases |scores|
  {
    var n :| n in scores;
    var rest := scores - {n};
    assert rest.Keys == scores.Keys - {n};
    if rest == map[] {
      top := n;
      assert forall m :: m in scores ==> m in rest || m == n;
    } else {
      assert rest.Keys < scores.Keys;
      var t := DistinctScoresHaveWinner(rest);
      top := if scores[n] > scores[t] then n else t;
      assert forall m :: m in scores ==> m in rest || m == n;
    }
  }

  /** A way to iterate over the map of scores. */
  predicate Iterates(order: seq<string>, scores: map<string, real>) {
    && (forall n :: n in order ==> n in scores) && scores.Keys <= (set n | n in order)
    && (forall i, j :: 0 <= i < j < |order| ==> order[i] != order[j])
  }

  /** The server elects itself if its map happens to be in this order. */
  ghost predicate ElectsItself(a: string, order: seq<string>, scores: map<string, real>) {
    Iterates(order, scores) && a in scores && Leader(a, order, scores) == a
  }

  /** Two servers may each take themselves for the leader. */
  ghost predicate MaySplit(scores: map<string, real>) {
    exists a, b, one, two :: a != b && ElectsItself(a, one, scores) && ElectsItself(b, two, scores)
  }

  lemma {:induction false} StaysElected(order: seq<string>, scores: map<string, real>, leader: string, best: real)
    requires forall n :: n in order ==> n in scores && scores[n] <= best
    ensures Elect(order, scores, leader, best) == leader
    decreases |order|
  {
    if order != [] { StaysElected(order[1..], scores, leader, best); }
  }

  lemma {:induction false} Enumerated(names: set<string>) returns (order: seq<string>)
    ensures (set n | n in order) == names
    ensures forall i, j :: 0 <= i < j < |order| ==> order[i] != order[j]
    decreases |names|
  {
    if names == {} {
      order := [];
    } else {
      var n :| n in names;
      var rest := Enumerated(names - {n});
      order := [n] + rest;
      assert (set m | m in order) == (set m | m in rest) + {n};
      assert forall m :: m in rest ==> m in (set k | k in rest);
    }
  }

  /** No score is above this one, or it is not positive and neither is any other. */
  predicate IsTop(a: string, scores: map<string, real>) {
    a in scores && forall n :: n in scores ==> scores[n] <= scores[a] || scores[n] <= 0.0
  }

  lemma TopElectsItself(a: string, scores: map<string, real>) returns (order: seq<string>)
    requires IsTop(a, scores)
    ensures ElectsItself(a, order, scores)
  {
    var rest := Enumerated(scores.Keys - {a});
    order := [a] + rest;
    assert forall m :: m in rest ==> m in (set k | k in rest);
    assert (set m | m in order) == (set m | m in rest) + {a};
    assert forall m :: m in rest ==> m in scores.Keys - {a};
    assert forall m :: m in order ==> m == a || m in rest;
    if scores[a] > 0.0 {
      assert order[1..] == rest;
      StaysElected(rest, scores, a, scores[a]);
    } else {
      StaysElected(order, scores, a, 0.0);
    }
  }

  lemma {:induction false} SomeTop(scores: map<string, real>) returns (a: string)
    requires scores != map[]
    ensures a in scores && forall n :: n in scores ==> scores[n] <= scores[a]
    decreases |scores|
  {
    var n :| n in scores;
    var rest := scores - {n};
    assert rest.Keys == scores.Keys - {n};
    assert forall m :: m in scores ==> m in rest || m == n;
    if rest == map[] {
      a := n;
    } else {
      assert rest.Keys < scores.Keys;
      var t := SomeTop(rest);
      a := if scores[n] > scores[t] then n else t;
    }
  }

  /** Of several servers that share one map of scores, two may each take themselves for the leader if
      and only if no score is positive and above all others. */
  lemma TieSplitsLeadership(scores: map<string, real>)
    requires |scores| >= 2
    ensures MaySplit(scores) <==> !exists top :: Outright(top, scores)
  {
    if top :| Outright(top, scores) {
      forall a, one | ElectsItself(a, one, scores) ensures a == top {
        assert forall n :: n in one <==> n in scores by {
          assert forall n :: n in scores ==> n in (set k | k in one);
        }
        OneLeader(scores, top, a, one);
      }
    } else {
      var a := SomeTop(scores);
      var b: string;
      assert !Outright(a, scores);
      if scores[a] > 0.0 {
        b :| b in scores && b != a && !(scores[b] < scores[a]);
      } else {
        assert |scores.Keys - {a}| >= 1;
        b :| b in scores.Keys - {a};
      }
      var one := TopElectsItself(a, scores);
      var two := TopElectsItself(b, scores);
    }
  }

  /** A score of zero, which `Math.random` may return, elects nobody: each server takes itself. */
  lemma {:induction false} NoScoreNoLeader(self: string, order: seq<string>, scores: map<string, real>)
    requires forall n :: n in order ==> n in scores && scores[n] <= 0.0
    ensures Leader(self, order, scores) == self
    decreases |order|
  {
    if order != [] {
      NoScoreNoLeader(self, order[1..], scores);
    }
  }
}
