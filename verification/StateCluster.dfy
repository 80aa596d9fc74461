/** State registries that exchange messages over reliable FIFO channels, one for each ordered pair of
    servers. Once a full state has been sent, a replica that has read its channel to the end agrees
    with the sender. */
module StateCluster {
  import opened Common
  import opened StateRegistry

  /** `wire`: messages sent and not yet delivered, oldest first, by sender and receiver. `told`: the
      pairs whose receiver has been delivered a full state since it last dropped the sender's names. */
  datatype Cluster = Cluster(nodes: map<string, Registry>, wire: map<(string, string), seq<Message>>, told: set<(string, string)>)

  function Wire(c: Cluster, s: string, r: string): seq<Message> {
    if (s, r) in c.wire then c.wire[(s, r)] else []
  }

  /** `Join`: a server comes up with nothing. `SendFull`: a server answers a request for its full
      state; requests may be made at any time. `Deliver`: the oldest message of a channel arrives.
      `Gone`: `r` is told that `s` left the cluster. */
  datatype Event =
    | Join(r: string)
    | LocalAdd(s: string, name: string)
    | LocalRemove(s: string, name: string)
    | SendFull(s: string, r: string, order: seq<string>)
    | Deliver(s: string, r: string, order: seq<string>)
    | Gone(s: string, r: string, order: seq<string>)

  predicate Possible(c: Cluster, e: Event) {
    match e
    case Join(r) => r !in c.nodes
    case LocalAdd(s, _) => s in c.nodes
    case LocalRemove(s, _) => s in c.nodes
    case SendFull(s, r, order) => s in c.nodes && r in c.nodes && s != r && Enumerates(order, c.nodes[s].data)
    case Deliver(s, r, order) => s in c.nodes && r in c.nodes && s != r && Wire(c, s, r) != [] && Enumerates(order, c.nodes[r].data)
    case Gone(s, r, order) => s in c.nodes && r in c.nodes && s != r && Enumerates(order, c.nodes[r].data)
  }

  /** The wires after `s` sent `m` to every other server. */
  function Announce(c: Cluster, s: string, m: Option<Message>): map<(string, string), seq<Message>> {
    map a, b | a in c.nodes && b in c.nodes :: (a, b) := if a == s && b != s then Wire(c, a, b) + Sent(m) else Wire(c, a, b)
  }

  function Step(policy: Policy, c: Cluster, e: Event): Cluster
    requires Possible(c, e)
  {
    match e
    case Join(r) => c.(nodes := c.nodes[r := Empty(r)])
    case LocalAdd(s, name) =>
      var (u, m) := Add(c.nodes[s], name);
      c.(nodes := c.nodes[s := u], wire := Announce(c, s, m))
    case LocalRemove(s, name) =>
      var (u, m) := Remove(c.nodes[s], name);
      c.(nodes := c.nodes[s := u], wire := Announce(c, s, m))
    case SendFull(s, r, order) =>
      c.(wire := c.wire[(s, r) := Wire(c, s, r) + [FullState(HeldInOrder(c.nodes[s], order, s))]])
    case Deliver(s, r, order) =>
      var m := Wire(c, s, r)[0];
      c.(nodes := c.nodes[r := Receive(policy, c.nodes[r], m, s, order)],
         wire := c.wire[(s, r) := Wire(c, s, r)[1..]],
         told := if m.FullState? then c.told + {(s, r)} else c.told)
    case Gone(s, r, order) =>
      c.(nodes := c.nodes[r := Sweep(c.nodes[r], order, s)], told := c.told - {(s, r)})
  }

  const NOBODY := Cluster(map[], map[], {})

  function Run(policy: Policy, events: seq<Event>): Option<Cluster>
    decreases |events|
  {
    if events == [] then Some(NOBODY)
    else
      var before := Run(policy, events[..|events| - 1]);
      var e := events[|events| - 1];
      if before.Some? && Possible(before.value, e) then Some(Step(policy, before.value, e)) else None
  }

  // ---------- One channel ----------

  function Replay(policy: Policy, view: set<string>, wire: seq<Message>): set<string>
    decreases |wire|
  {
    if wire == [] then view else Replay(policy, Replay1(policy, view, wire[0]), wire[1..])
  }

  lemma {:induction false} ReplaySplit(policy: Policy, view: set<string>, a: seq<Message>, b: seq<Message>)
    ensures Replay(policy, view, a + b) == Replay(policy, Replay(policy, view, a), b)
    decreases |a|
  {
    if a == [] {
      assert a + b == b;
    } else {
      assert (a + b)[1..] == a[1..] + b;
      ReplaySplit(policy, Replay1(policy, view, a[0]), a[1..], b);
    }
  }

  lemma {:induction false} ReplayMonotone(policy: Policy, small: set<string>, big: set<string>, wire: seq<Message>)
    requires small <= big
    ensures Replay(policy, small, wire) <= Replay(policy, big, wire)
    decreases |wire|
  {
    if wire == [] {
    } else {
      ReplayMonotone(policy, Replay1(policy, small, wire[0]), Replay1(policy, big, wire[0]), wire[1..]);
    }
  }

  /** What a receiver's view of a sender, the channel between them and the names the sender holds have
      in common: replaying the channel never overshoots, and at every full state on the channel the
      view has not overshot that state, while the rest of the channel takes that state to the present. */
  ghost predicate Synced(policy: Policy, view: set<string>, wire: seq<Message>, own: set<string>, told: bool) {
    && Replay(policy, view, wire) <= own
    && (told ==> Replay(policy, view, wire) == own)
    && forall i :: 0 <= i < |wire| && wire[i].FullState? ==> AtFullState(policy, view, wire, own, i)
  }

  ghost predicate AtFullState(policy: Policy, view: set<string>, wire: seq<Message>, own: set<string>, i: nat)
    requires i < |wire| && wire[i].FullState?
  {
    && Replay(policy, view, wire[..i]) <= Names(wire[i].names)
    && Replay(policy, Names(wire[i].names), wire[i + 1..]) == own
  }

  /** The sender changed what it holds and said so, or said its full state. */
  lemma SyncedAfterSend(policy: Policy, view: set<string>, wire: seq<Message>, own: set<string>, told: bool, m: Message, own': set<string>)
    requires Synced(policy, view, wire, own, told)
    requires match m
             case AddName(name) => own' == own + {name}
             case RemoveName(name) => own' == own - {name}
             case FullState(names) => own' == own == Names(names)
    ensures Synced(policy, view, wire + [m], own', told)
  {
    ReplaySplit(policy, view, wire, [m]);
    ReplayOne(policy, Replay(policy, view, wire), m);
    var all := wire + [m];
    forall i | 0 <= i < |all| && all[i].FullState? ensures AtFullState(policy, view, all, own', i) {
      if i < |wire| {
        assert AtFullState(policy, view, wire, own, i);
        assert all[..i] == wire[..i] && all[i + 1..] == wire[i + 1..] + [m];
        ReplaySplit(policy, Names(wire[i].names), wire[i + 1..], [m]);
        ReplayOne(policy, own, m);
      } else {
        assert all[..i] == wire && all[i + 1..] == [];
      }
    }
  }

  lemma ReplayOne(policy: Policy, view: set<string>, m: Message)
    ensures Replay(policy, view, [m]) == Replay1(policy, view, m)
  {
    assert [m][1..] == [];
    assert Replay(policy, Replay1(policy, view, m), []) == Replay1(policy, view, m);
  }

  lemma SyncedAfterDelivery(policy: Policy, view: set<string>, wire: seq<Message>, own: set<string>, told: bool)
    requires Synced(policy, view, wire, own, told) && wire != []
    ensures Synced(policy, Replay1(policy, view, wire[0]), wire[1..], own, told || wire[0].FullState?)
  {
    var view', rest := Replay1(policy, view, wire[0]), wire[1..];
    if wire[0].FullState? {
      assert AtFullState(policy, view, wire, own, 0);
      assert wire[..0] == [];
      assert view' == Names(wire[0].names);
    }
    forall i | 0 <= i < |rest| && rest[i].FullState? ensures AtFullState(policy, view', rest, own, i) {
      assert AtFullState(policy, view, wire, own, i + 1);
      assert wire[..i + 1] == [wire[0]] + rest[..i];
      ReplaySplit(policy, view, [wire[0]], rest[..i]);
      ReplayOne(policy, view, wire[0]);
      assert wire[i + 2..] == rest[i + 1..];
    }
  }

  lemma SyncedAfterDrop(policy: Policy, view: set<string>, wire: seq<Message>, own: set<string>, told: bool)
    requires Synced(policy, view, wire, own, told)
    ensures Synced(policy, {}, wire, own, false)
  {
    ReplayMonotone(policy, {}, view, wire);
    forall i | 0 <= i < |wire| && wire[i].FullState? ensures AtFullState(policy, {}, wire, own, i) {
      assert AtFullState(policy, view, wire, own, i);
      ReplayMonotone(policy, {}, view, wire[..i]);
    }
  }

  // ---------- The whole cluster ----------

  ghost predicate PairSynced(policy: Policy, c: Cluster, s: string, r: string)
    requires s in c.nodes && r in c.nodes
  {
    Synced(policy, Held(c.nodes[r], s), Wire(c, s, r), Held(c.nodes[s], s), (s, r) in c.told)
  }

  ghost predicate AllSynced(policy: Policy, c: Cluster) {
    && (forall s :: s in c.nodes ==> c.nodes[s].self == s)
    && (forall s, r :: (s, r) in c.wire ==> s in c.nodes && r in c.nodes)
    && (forall s, r :: (s, r) in c.told ==> s in c.nodes && r in c.nodes)
    && (forall s, r :: s in c.nodes && r in c.nodes && s != r ==> PairSynced(policy, c, s, r))
    && (forall s, r :: r in c.nodes && s !in c.nodes ==> Held(c.nodes[r], s) == {})
  }

  lemma JoinKeeps(policy: Policy, c: Cluster, r: string)
    requires AllSynced(policy, c) && r !in c.nodes
    ensures AllSynced(policy, Step(policy, c, Join(r)))
  {
    var c' := Step(policy, c, Join(r));
    forall a, b | a in c'.nodes && b in c'.nodes && a != b ensures PairSynced(policy, c', a, b) {
      if a == r || b == r {
        assert Held(c'.nodes[b], a) == {} && Wire(c', a, b) == [];
        assert Replay(policy, {}, []) == {};
      } else {
        assert PairSynced(policy, c, a, b);
      }
    }
  }

  /** A local call on `s`: its own names change as the message says, and nothing else does. */
  lemma LocalKeeps(policy: Policy, c: Cluster, s: string, u: Registry, m: Option<Message>)
    requires AllSynced(policy, c) && s in c.nodes && u.self == s
    requires forall a :: a != s ==> Held(u, a) == Held(c.nodes[s], a)
    requires match m
             case None => Held(u, s) == Held(c.nodes[s], s)
             case Some(AddName(name)) => Held(u, s) == Held(c.nodes[s], s) + {name}
             case Some(RemoveName(name)) => Held(u, s) == Held(c.nodes[s], s) - {name}
             case Some(FullState(_)) => false
    ensures AllSynced(policy, c.(nodes := c.nodes[s := u], wire := Announce(c, s, m)))
  {
    var c' := c.(nodes := c.nodes[s := u], wire := Announce(c, s, m));
    forall a, b | a in c'.nodes && b in c'.nodes && a != b ensures PairSynced(policy, c', a, b) {
      assert PairSynced(policy, c, a, b);
      if a == s && m.Some? {
        SyncedAfterSend(policy, Held(c.nodes[b], s), Wire(c, s, b), Held(c.nodes[s], s), (s, b) in c.told, m.value, Held(u, s));
        assert Wire(c', s, b) == Wire(c, s, b) + [m.value];
      } else {
        assert Wire(c', a, b) == Wire(c, a, b);
      }
    }
  }

  lemma LocalAddKeeps(policy: Policy, c: Cluster, s: string, name: string)
    requires AllSynced(policy, c) && s in c.nodes
    ensures AllSynced(policy, Step(policy, c, Event.LocalAdd(s, name)))
  {
    var (u, m) := Add(c.nodes[s], name);
    forall a ensures a != s ==> Held(u, a) == Held(c.nodes[s], a) {
      AddHeld(c.nodes[s], name, a);
    }
    AddHeld(c.nodes[s], name, s);
    LocalKeeps(policy, c, s, u, m);
  }

  lemma LocalRemoveKeeps(policy: Policy, c: Cluster, s: string, name: string)
    requires AllSynced(policy, c) && s in c.nodes
    ensures AllSynced(policy, Step(policy, c, Event.LocalRemove(s, name)))
  {
    var (u, m) := Remove(c.nodes[s], name);
    forall a ensures a != s ==> Held(u, a) == Held(c.nodes[s], a) {
      RemoveHeld(c.nodes[s], name, a);
    }
    RemoveHeld(c.nodes[s], name, s);
    LocalKeeps(policy, c, s, u, m);
  }

  lemma SendFullKeeps(policy: Policy, c: Cluster, s: string, r: string, order: seq<string>)
    requires AllSynced(policy, c) && Possible(c, SendFull(s, r, order))
    ensures AllSynced(policy, Step(policy, c, SendFull(s, r, order)))
  {
    var c' := Step(policy, c, SendFull(s, r, order));
    var names := HeldInOrder(c.nodes[s], order, s);
    HeldInOrderDistinct(c.nodes[s], order, s);
    assert Names(names) == Held(c.nodes[s], s);
    forall a, b | a in c'.nodes && b in c'.nodes && a != b ensures PairSynced(policy, c', a, b) {
      assert PairSynced(policy, c, a, b);
      if a == s && b == r {
        SyncedAfterSend(policy, Held(c.nodes[r], s), Wire(c, s, r), Held(c.nodes[s], s), (s, r) in c.told, FullState(names), Held(c.nodes[s], s));
      } else {
        assert Wire(c', a, b) == Wire(c, a, b);
      }
    }
  }

  lemma DeliverKeeps(policy: Policy, c: Cluster, s: string, r: string, order: seq<string>)
    requires AllSynced(policy, c) && Possible(c, Deliver(s, r, order))
    ensures AllSynced(policy, Step(policy, c, Deliver(s, r, order)))
  {
    var c' := Step(policy, c, Deliver(s, r, order));
    var m := Wire(c, s, r)[0];
    forall a ensures Held(c'.nodes[r], a) == if a == s then Replay1(policy, Held(c.nodes[r], s), m) else Held(c.nodes[r], a) {
      ReceiveHeld(policy, c.nodes[r], m, s, order, a);
    }
    ReceiveHeld(policy, c.nodes[r], m, s, order, r);
    forall a, b | a in c'.nodes && b in c'.nodes && a != b ensures PairSynced(policy, c', a, b) {
      assert PairSynced(policy, c, a, b);
      if a == s && b == r {
        SyncedAfterDelivery(policy, Held(c.nodes[r], s), Wire(c, s, r), Held(c.nodes[s], s), (s, r) in c.told);
        assert Wire(c', s, r) == Wire(c, s, r)[1..];
      } else {
        assert Wire(c', a, b) == Wire(c, a, b);
      }
    }
  }

  lemma GoneKeeps(policy: Policy, c: Cluster, s: string, r: string, order: seq<string>)
    requires AllSynced(policy, c) && Possible(c, Gone(s, r, order))
    ensures AllSynced(policy, Step(policy, c, Gone(s, r, order)))
  {
    var c' := Step(policy, c, Gone(s, r, order));
    forall a ensures Held(c'.nodes[r], a) == if a == s then {} else Held(c.nodes[r], a) {
      SweepHeld(c.nodes[r], order, s, a);
      assert Held(c.nodes[r], s) <= Names(order);
    }
    SweepHeld(c.nodes[r], order, s, r);
    forall a, b | a in c'.nodes && b in c'.nodes && a != b ensures PairSynced(policy, c', a, b) {
      assert PairSynced(policy, c, a, b);
      if a == s && b == r {
        SyncedAfterDrop(policy, Held(c.nodes[r], s), Wire(c, s, r), Held(c.nodes[s], s), (s, r) in c.told);
      }
    }
  }

  lemma StepKeeps(policy: Policy, c: Cluster, e: Event)
    requires AllSynced(policy, c) && Possible(c, e)
    ensures AllSynced(policy, Step(policy, c, e))
  {
    match e
    case Join(r) => JoinKeeps(policy, c, r);
    case LocalAdd(s, name) => LocalAddKeeps(policy, c, s, name);
    case LocalRemove(s, name) => LocalRemoveKeeps(policy, c, s, name);
    case SendFull(s, r, order) => SendFullKeeps(policy, c, s, r, order);
    case Deliver(s, r, order) => DeliverKeeps(policy, c, s, r, order);
    case Gone(s, r, order) => GoneKeeps(policy, c, s, r, order);
  }

  lemma {:induction false} RunKeeps(policy: Policy, events: seq<Event>)
    requires Run(policy, events).Some?
    ensures AllSynced(policy, Run(policy, events).value)
    decreases |events|
  {
    if events == [] {
    } else {
      var before := events[..|events| - 1];
      RunKeeps(policy, before);
      StepKeeps(policy, Run(policy, before).value, events[|events| - 1]);
    }
  }

  /** In every run of the cluster, for every sender `s` and receiver `r`: replaying the channel on r's
      view of s never yields a name that s does not hold; it yields exactly the names s holds once a
      full state is on the channel or was delivered after r last dropped s's names; so then an empty
      channel means that r and s agree on them. */
  lemma Converges(policy: Policy, events: seq<Event>, s: string, r: string)
    requires Run(policy, events).Some?
    requires s in Run(policy, events).value.nodes && r in Run(policy, events).value.nodes && s != r
    ensures var c := Run(policy, events).value;
      var view, wire, own := Held(c.nodes[r], s), Wire(c, s, r), Held(c.nodes[s], s);
      var informed := (s, r) in c.told || exists i :: 0 <= i < |wire| && wire[i].FullState?;
      && Replay(policy, view, wire) <= own
      && (informed ==> Replay(policy, view, wire) == own)
      && (wire == [] && informed ==> view == own)
  {
    RunKeeps(policy, events);
    var c := Run(policy, events).value;
    assert PairSynced(policy, c, s, r);
    var view, wire, own := Held(c.nodes[r], s), Wire(c, s, r), Held(c.nodes[s], s);
    if i :| 0 <= i < |wire| && wire[i].FullState? {
      FullStateFixesView(policy, view, wire, own, (s, r) in c.told, i);
    }
  }

  lemma FullStateFixesView(policy: Policy, view: set<string>, wire: seq<Message>, own: set<string>, told: bool, i: nat)
    requires Synced(policy, view, wire, own, told) && i < |wire| && wire[i].FullState?
    ensures Replay(policy, view, wire) == own
  {
    assert AtFullState(policy, view, wire, own, i);
    var there := Replay(policy, view, wire[..i]);
    assert wire == wire[..i] + ([wire[i]] + wire[i + 1..]);
    ReplaySplit(policy, view, wire[..i], [wire[i]] + wire[i + 1..]);
    ReplaySplit(policy, there, [wire[i]], wire[i + 1..]);
    ReplayOne(policy, there, wire[i]);
    assert Replay1(policy, there, wire[i]) == Names(wire[i].names);
  }
}
