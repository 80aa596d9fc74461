/** What a hold timer can do to the owners of a lock, and what a server that has a lock can rely on. */
module LockTimeouts {
  import opened Common
  import opened Locks

  /** The system after `events` from `s` on. */
  function From(s: System, events: seq<Event>): Option<System>
    decreases |events|
  {
    if events == [] then Some(s)
    else
      var before := From(s, events[..|events| - 1]);
      var e := events[|events| - 1];
      if before.Some? && Possible(before.value, e) then Some(Step(before.value, e)) else None
  }

  predicate NoHoldTimeout(events: seq<Event>) {
    forall i :: 0 <= i < |events| ==> !events[i].HoldTimeout?
  }

  /** Two owners have been told true and have not released. */
  predicate TwoOwners(s: System, name: string) {
    Holds(s.holders, name) >= 2
  }

  ghost predicate Doubles(s: System, more: seq<Event>, name: string) {
    NoHoldTimeout(more) && From(s, more).Some? && TwoOwners(From(s, more).value, name)
  }

  /** Messages go to servers that exist. */
  ghost predicate Addressed(s: System) {
    && s.leader in s.nodes
    && (forall p :: p in s.net && p.Response? ==> p.to in s.nodes)
    && (forall p :: p in s.net && p.Request? ==> p.from in s.nodes)
  }

  lemma StepAddressed(s: System, e: Event)
    requires Addressed(s) && Possible(s, e)
    ensures Addressed(Step(s, e))
  {
    if e.Deliver? {
      assert s.net[e.i] in s.net;
      assert forall p :: p in Without(s.net, e.i) ==> p in s.net;
    } else if e.Lose? {
      assert forall p :: p in Without(s.net, e.i) ==> p in s.net;
    }
  }

  lemma {:induction false} RunAddressed(leader: string, servers: set<string>, events: seq<Event>)
    requires leader in servers && Run(leader, servers, events).Some?
    ensures Addressed(Run(leader, servers, events).value)
    decreases |events|
  {
    if events != [] {
      RunAddressed(leader, servers, events[..|events| - 1]);
      StepAddressed(Run(leader, servers, events[..|events| - 1]).value, events[|events| - 1]);
    }
  }

  lemma {:induction false} StaysExclusive(s: System, more: seq<Event>, name: string)
    requires (forall x :: Exclusive(s, x)) && NoHoldTimeout(more) && From(s, more).Some?
    ensures Exclusive(From(s, more).value, name)
    decreases |more|
  {
    if more != [] {
      var before := more[..|more| - 1];
      forall x ensures Exclusive(From(s, before).value, x) { StaysExclusive(s, before, x); }
      StepKeeps(From(s, before).value, more[|more| - 1], name);
    }
  }

  lemma OneMore(s: System, past: seq<Event>, e: Event)
    requires NoHoldTimeout(past) && !e.HoldTimeout? && From(s, past).Some? && Possible(From(s, past).value, e)
    ensures NoHoldTimeout(past + [e]) && From(s, past + [e]) == Some(Step(From(s, past).value, e))
  {
    assert (past + [e])[..|past|] == past;
  }

  /** Somebody on the leader is given the lock when the leader has it free. */
  lemma LeaderTakes(s: System, name: string)
    requires s.leader in s.nodes && name !in s.nodes[s.leader].locks
    ensures var u := Step(s, Get(s.leader, name));
      && u.net == s.net && u.leader == s.leader && u.nodes.Keys == s.nodes.Keys
      && (forall n :: n in s.nodes && n != s.leader ==> u.nodes[n] == s.nodes[n])
      && Holds(u.holders, name) == Holds(s.holders, name) + 1
  {
    HoldsAppend(s.holders, [(s.leader, name)], name);
    HoldsOne(s.leader, name, name);
  }

  lemma {:induction false} CarriedSomewhere(net: seq<Packet>, name: string) returns (i: nat)
    requires Carried(net, name) > 0
    ensures i < |net| && Carries(net[i], name)
  {
    if Carries(net[0], name) {
      i := 0;
    } else {
      var j := CarriedSomewhere(net[1..], name);
      i := j + 1;
    }
  }

  /** A release that is on its way frees the leader's lock under the new owner. */
  lemma LateRelease(s: System, i: nat, name: string)
    requires Addressed(s) && i < |s.net| && s.net[i] == Release(name) && name !in s.nodes[s.leader].locks
    ensures Doubles(s, [] + [Get(s.leader, name)] + [Deliver(i)] + [Get(s.leader, name)], name)
  {
    var get := Get(s.leader, name);
    OneMore(s, [], get);
    LeaderTakes(s, name);
    var u := Step(s, get);
    OneMore(s, [] + [get], Deliver(i));
    var v := Step(u, Deliver(i));
    assert v.holders == u.holders && name !in v.nodes[v.leader].locks;
    OneMore(s, [] + [get] + [Deliver(i)], get);
    LeaderTakes(v, name);
  }

  lemma TrueArrives(s: System, i: nat, name: string)
    requires i < |s.net| && s.net[i].Response? && s.net[i].name == name && s.net[i].locked
    requires s.leader in s.nodes && s.net[i].to in s.nodes && s.nodes[s.net[i].to].waiting[name] == 1
    ensures Holds(Step(s, Deliver(i)).holders, name) == Holds(s.holders, name) + 1
  {
    var to := s.net[i].to;
    assert Copies(1, to, name) == [(to, name)];
    HoldsAppend(s.holders, [(to, name)], name);
    HoldsOne(to, name, name);
  }

  /** An answer true that is on its way makes a second owner, if need be of a later request. */
  lemma LateAnswer(s: System, i: nat, name: string) returns (more: seq<Event>)
    requires Addressed(s) && i < |s.net| && s.net[i].Response? && s.net[i].name == name && s.net[i].locked
    requires s.net[i].to in s.nodes && s.net[i].to != s.leader && Patient(s, s.net[i].to, name)
    requires name !in s.nodes[s.leader].locks
    ensures Doubles(s, more, name)
  {
    var get, to := Get(s.leader, name), s.net[i].to;
    OneMore(s, [], get);
    LeaderTakes(s, name);
    var u := Step(s, get);
    more := [] + [get];
    if name !in s.nodes[to].timeouts {
      OneMore(s, more, Get(to, name));
      u := Step(u, Get(to, name));
      more := more + [Get(to, name)];
    }
    assert u.net[i] == s.net[i];
    OneMore(s, more, Deliver(i));
    TrueArrives(u, i, name);
    more := more + [Deliver(i)];
  }

  /** After any run without hold timeouts, a hold timer that fires can lead to two owners, with no
      other hold timer firing, if and only if at that moment an owner has the lock, or an answer true
      or a release is on its way. */
  lemma HoldTimeoutHarmlessIff(leader: string, servers: set<string>, events: seq<Event>, name: string)
    requires leader in servers && NoHoldTimeout(events) && Run(leader, servers, events).Some?
    requires Possible(Run(leader, servers, events).value, HoldTimeout(name))
    ensures var s := Run(leader, servers, events).value;
      (exists more :: Doubles(Step(s, HoldTimeout(name)), more, name)) <==> Claims(s, name) > 0
  {
    var s := Run(leader, servers, events).value;
    forall x ensures Exclusive(s, x) { RunKeeps(leader, servers, events, x); }
    RunAddressed(leader, servers, events);
    var u := Step(s, HoldTimeout(name));
    StepAddressed(s, HoldTimeout(name));
    if Claims(s, name) > 0 {
      MayDouble(s, u, name);
    } else {
      TimeoutKeepsClaims(s, name);
      forall more | NoHoldTimeout(more) && From(u, more).Some? ensures !TwoOwners(From(u, more).value, name) {
        StaysExclusive(u, more, name);
      }
    }
  }

  lemma TimeoutKeepsClaims(s: System, name: string)
    requires (forall x :: Exclusive(s, x)) && Possible(s, HoldTimeout(name)) && Claims(s, name) == 0
    ensures forall x :: Exclusive(Step(s, HoldTimeout(name)), x)
  {
    var u := Step(s, HoldTimeout(name));
    forall x ensures Exclusive(u, x) {
      assert Exclusive(s, x) && Claims(u, x) == Claims(s, x);
      if x == name { TimeoutKeepsClaimsIff(s, name); }
      forall n | n in u.nodes ensures Patient(u, n, x) { assert Patient(s, n, x); }
    }
  }

  lemma MayDouble(s: System, u: System, name: string)
    requires Exclusive(s, name) && Possible(s, HoldTimeout(name)) && u == Step(s, HoldTimeout(name)) && Addressed(u)
    requires Claims(s, name) > 0
    ensures exists more :: Doubles(u, more, name)
  {
    if Holds(s.holders, name) > 0 {
      OneMore(u, [], Get(u.leader, name));
      LeaderTakes(u, name);
      assert Doubles(u, [] + [Get(u.leader, name)], name);
    } else {
      var i := CarriedSomewhere(u.net, name);
      if u.net[i].Response? {
        assert u.net[i] in s.net && Patient(s, u.net[i].to, name);
        var more := LateAnswer(u, i, name);
      } else {
        LateRelease(u, i, name);
      }
    }
  }

  lemma OnlyOneOwner(s: System, e: Event, name: string)
    requires (forall x :: Exclusive(s, x)) && Possible(s, e) && !e.HoldTimeout? && Holds(s.holders, name) > 0
    ensures name in s.nodes[s.leader].locks && Carried(s.net, name) == 0
    ensures Holds(Step(s, e).holders, name) <= Holds(s.holders, name) == 1
  {
    assert Exclusive(s, name);
    StepKeeps(s, e, name);
    assert Claims(Step(s, e), name) <= 1;
  }

  /** A server that was told true and has not released is not granted the lock again, whatever happens
      next: the leader has the name in its set, and no answer true is on its way. */
  lemma NoSecondGrant(leader: string, servers: set<string>, events: seq<Event>, name: string, e: Event)
    requires leader in servers && NoHoldTimeout(events) && !e.HoldTimeout? && Run(leader, servers, events).Some?
    requires Possible(Run(leader, servers, events).value, e) && Holds(Run(leader, servers, events).value.holders, name) > 0
    ensures var s := Run(leader, servers, events).value;
      && name in s.nodes[s.leader].locks && Carried(s.net, name) == 0
      && Holds(Step(s, e).holders, name) <= Holds(s.holders, name) == 1
  {
    forall x ensures Exclusive(Run(leader, servers, events).value, x) { RunKeeps(leader, servers, events, x); }
    OnlyOneOwner(Run(leader, servers, events).value, e, name);
  }
}
