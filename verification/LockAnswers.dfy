/** When a lock is taken and when it is free, in every run, and what requests for it are told. */
module LockAnswers {
  import opened Common
  import opened Locks

  /** The last of the requests and releases that reached the leader, and of its hold timers, is a request. */
  function Taken(leader: string, servers: set<string>, events: seq<Event>, name: string): bool
    decreases |events|
  {
    events != [] &&
    var past := events[..|events| - 1];
    var before, s := Taken(leader, servers, past, name), Run(leader, servers, past);
    s.Some? && Possible(s.value, events[|events| - 1]) &&
    match events[|events| - 1]
    case Get(node, asked) => before || (node == leader && asked == name)
    case GiveBack(i) => before && s.value.holders[i] != (leader, name)
    case Deliver(i) =>
      (match s.value.net[i]
       case Request(_, asked) => before || asked == name
       case Release(held) => before && held != name
       case Response(_, _, _) => before)
    case Lose(_) => before
    case RequestTimeout(_, _) => before
    case HoldTimeout(held) => before && held != name
  }

  /** The leader's timers are hold timers, one for each lock; and it is sent no answers. */
  ghost predicate Guarded(s: System, name: string) {
    && s.leader in s.nodes
    && (name in s.nodes[s.leader].timeouts <==> name in s.nodes[s.leader].locks)
    && (name in s.nodes[s.leader].timeouts ==> s.nodes[s.leader].timeouts[name] == HoldTimer)
    && (forall p :: p in s.net && p.Response? ==> p.to != s.leader)
    && (forall p :: p in s.net && p.Request? ==> p.from != s.leader)
  }

  lemma DeliverGuards(s: System, i: nat, name: string)
    requires Guarded(s, name) && Possible(s, Deliver(i))
    ensures Guarded(Step(s, Deliver(i)), name)
  {
    assert s.net[i] in s.net;
    assert forall p :: p in Without(s.net, i) ==> p in s.net;
  }

  lemma StepGuards(s: System, e: Event, name: string)
    requires Guarded(s, name) && Possible(s, e)
    ensures Guarded(Step(s, e), name) && Step(s, e).leader == s.leader
  {
    match e
    case Deliver(i) => DeliverGuards(s, i, name);
    case Lose(i) => assert forall p :: p in Without(s.net, i) ==> p in s.net;
    case _ =>
  }

  /** In every run, with one leader, a lock is taken exactly if the last of the requests and releases that
      reached the leader, and of its hold timers, is a request; and exactly then its hold timer is armed,
      so that it cannot stay taken for good. */
  lemma {:induction false} TakenIffGuarded(leader: string, servers: set<string>, events: seq<Event>, name: string)
    requires leader in servers && Run(leader, servers, events).Some?
    ensures var s := Run(leader, servers, events).value;
      && s.leader == leader && Guarded(s, name)
      && (name in s.nodes[leader].locks <==> Taken(leader, servers, events, name))
      && (Possible(s, HoldTimeout(name)) <==> Taken(leader, servers, events, name))
    decreases |events|
  {
    if events != [] {
      var past := events[..|events| - 1];
      TakenIffGuarded(leader, servers, past, name);
      var s, e := Run(leader, servers, past).value, events[|events| - 1];
      StepGuards(s, e, name);
      TakesAndFrees(s, e, name);
    }
  }

  lemma TakesAndFrees(s: System, e: Event, name: string)
    requires Guarded(s, name) && Possible(s, e)
    ensures name in Step(s, e).nodes[s.leader].locks <==>
      match e
      case Get(node, asked) => name in s.nodes[s.leader].locks || (node == s.leader && asked == name)
      case GiveBack(i) => name in s.nodes[s.leader].locks && s.holders[i] != (s.leader, name)
      case Deliver(i) =>
        (match s.net[i]
         case Request(_, asked) => name in s.nodes[s.leader].locks || asked == name
         case Release(held) => name in s.nodes[s.leader].locks && held != name
         case Response(_, _, _) => name in s.nodes[s.leader].locks)
      case HoldTimeout(held) => name in s.nodes[s.leader].locks && held != name
      case _ => name in s.nodes[s.leader].locks
  {
    if e.Deliver? { assert s.net[e.i] in s.net; }
  }

  /** In every run a request is granted exactly if the lock is not taken when it reaches the leader: on the
      leader at once, for another server in the answer that goes back to it. */
  lemma GrantedIffFree(leader: string, servers: set<string>, events: seq<Event>, e: Event, from: string, name: string)
    requires leader in servers && Run(leader, servers, events).Some? && Possible(Run(leader, servers, events).value, e)
    requires e == Get(leader, name) || (e.Deliver? && Run(leader, servers, events).value.net[e.i] == Request(from, name))
    ensures var s := Run(leader, servers, events).value; var u := Step(s, e);
      var free := !Taken(leader, servers, events, name);
      if e.Get? then u.net == s.net && u.holders == s.holders + (if free then [(leader, name)] else [])
      else u.holders == s.holders && u.net == Without(s.net, e.i) + [Response(from, name, free)]
  {
    TakenIffGuarded(leader, servers, events, name);
    var s := Run(leader, servers, events).value;
    assert s.holders + [] == s.holders;
  }

  /** Followers wait for at most one answer, exactly while their request timer runs; leaders for none. */
  ghost predicate AllPatient(s: System, name: string) {
    && (forall n :: n in s.nodes ==> Patient(s, n, name))
    && (forall p :: p in s.net && p.Response? ==> p.to != s.leader)
    && (forall p :: p in s.net && p.Request? ==> p.from != s.leader)
  }

  lemma DeliverPatient(s: System, i: nat, name: string)
    requires AllPatient(s, name) && Possible(s, Deliver(i))
    ensures AllPatient(Step(s, Deliver(i)), name)
  {
    assert s.net[i] in s.net;
    assert forall p :: p in Without(s.net, i) ==> p in s.net;
    forall n | n in s.nodes ensures Patient(Step(s, Deliver(i)), n, name) { assert Patient(s, n, name); }
  }

  lemma StepPatient(s: System, e: Event, name: string)
    requires AllPatient(s, name) && Possible(s, e)
    ensures AllPatient(Step(s, e), name)
  {
    if e.Deliver? { DeliverPatient(s, e.i, name); return; }
    if e.Lose? { assert forall p :: p in Without(s.net, e.i) ==> p in s.net; }
    forall n | n in s.nodes ensures Patient(Step(s, e), n, name) { assert Patient(s, n, name); }
  }

  lemma {:induction false} RunPatient(leader: string, servers: set<string>, events: seq<Event>, name: string)
    requires leader in servers && Run(leader, servers, events).Some?
    ensures AllPatient(Run(leader, servers, events).value, name)
    decreases |events|
  {
    if events != [] {
      var past := events[..|events| - 1];
      RunPatient(leader, servers, past, name);
      StepPatient(Run(leader, servers, past).value, events[|events| - 1], name);
    }
  }

  /** In every run another server sends its request to the leader exactly if it does not wait for an answer
      about the lock; and the first answer that comes back while it waits, or its request timer, is what its
      owner is told, once. */
  lemma FollowerIsToldOnce(leader: string, servers: set<string>, events: seq<Event>, node: string, name: string)
    requires leader in servers && Run(leader, servers, events).Some? && node != leader && node in Run(leader, servers, events).value.nodes
    ensures var s := Run(leader, servers, events).value; var waits := s.nodes[node].waiting[name] == 1;
      && s.nodes[node].waiting[name] <= 1
      && (Possible(s, RequestTimeout(node, name)) <==> waits)
      && (var u := Step(s, Get(node, name));
          && u.nodes[node].waiting[name] == 1 && u.holders == s.holders
          && u.net == s.net + (if waits then [] else [Request(node, name)]))
      && (waits ==> var u := Step(s, RequestTimeout(node, name)); u.holders == s.holders && u.nodes[node].waiting[name] == 0)
      && (forall i, locked :: 0 <= i < |s.net| && s.net[i] == Response(node, name, locked) ==>
            var u := Step(s, Deliver(i));
            && u.holders == s.holders + (if waits && locked then [(node, name)] else [])
            && u.nodes[node].waiting[name] == 0)
  {
    TakenIffGuarded(leader, servers, events, name);
    RunPatient(leader, servers, events, name);
    var s := Run(leader, servers, events).value;
    assert Patient(s, node, name);
    assert s.net + [] == s.net && s.holders + [] == s.holders;
    assert Copies(1, node, name) == [(node, name)] && Copies(0, node, name) == [];
  }

  /** In every run giving a lock back frees it: on the leader at once, and from another server when the release
      that it sends reaches the leader. */
  lemma GivingBackFrees(leader: string, servers: set<string>, events: seq<Event>, i: nat)
    requires leader in servers && Run(leader, servers, events).Some? && Possible(Run(leader, servers, events).value, GiveBack(i))
    ensures var s := Run(leader, servers, events).value; var u := Step(s, GiveBack(i)); var (node, name) := s.holders[i];
      && u.holders == Without(s.holders, i)
      && leader in s.nodes && leader in u.nodes
      && (node == leader ==> u.net == s.net && name !in u.nodes[leader].locks)
      && (node != leader ==> u.nodes == s.nodes && u.net == s.net + [Release(name)])
      && (node != leader ==> name !in Step(u, Deliver(|s.net|)).nodes[leader].locks)
  {
    TakenIffGuarded(leader, servers, events, Run(leader, servers, events).value.holders[i].1);
  }
}
