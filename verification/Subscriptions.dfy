/** Who is subscribed to what on one server: an index by socket and an index by name, kept in step with
    the count in the state registry, which says when a name gets its first and loses its last
    subscriber. The server is alone: its state registry is the single one. */
module Subscriptions {
  import opened Common
  import C = SingleStateRegistry
  import StateRegistry

  /** What the sockets and the subscription listener are told. `Multiple`, `NotSubscribed`, `Ack` go to
      a socket, the others to the listener. */
  datatype Trace =
    | FirstMade(name: string) | Made(name: string, socket: nat)
    | Gone(name: string, socket: nat) | LastGone(name: string)
    | Multiple(name: string, socket: nat) | NotSubscribed(name: string, socket: nat) | Ack(socket: nat)

  datatype History = Start | After(past: History, last: Trace)

  /** `callbacks`: the sockets that have the close callback registered. */
  datatype State = State(
    sockets: map<nat, set<string>>, subscriptions: map<string, set<nat>>, callbacks: set<nat>, cluster: C.Single, trace: History)

  const EMPTY := State(map[], map[], {}, C.Single(map[], StateRegistry.Start), Start)

  function Note(s: State, e: Trace): State {
    s.(trace := After(s.trace, e))
  }

  function Subscribers(s: State, name: string): set<nat> {
    if name in s.subscriptions then s.subscriptions[name] else {}
  }

  function Names(s: State, socket: nat): set<string> {
    if socket in s.sockets then s.sockets[socket] else {}
  }

  /** A call to the state registry; it tells the listener on the spot. */
  function CallCluster(s: State, call: C.Call): State {
    var cluster := C.SingleStep(s.cluster, call);
    var t := s.(cluster := cluster);
    if cluster.log == s.cluster.log then t
    else Note(t, if call.Add? then FirstMade(call.name) else LastGone(call.name))
  }

  function AddSocket(s: State, name: string, socket: nat): State {
    var mine := Names(s, socket);
    var t := s.(sockets := s.sockets[socket := mine + {name}], callbacks := if mine == {} then s.callbacks + {socket} else s.callbacks);
    Note(CallCluster(t, C.Add(name)), Made(name, socket))
  }

  function Acked(s: State, socket: nat, silent: bool): State {
    if silent then s else Note(s, Ack(socket))
  }

  function Subscribe(s: State, name: string, socket: nat, silent: bool): State {
    if socket in Subscribers(s, name) then Note(s, Multiple(name, socket))
    else
      Acked(AddSocket(s.(subscriptions := s.subscriptions[name := Subscribers(s, name) + {socket}]), name, socket), socket, silent)
  }

  /** `removeSocket`, for a socket that was just taken out of the name's set. */
  function RemoveSocket(s: State, name: string, socket: nat): State {
    var cleared := if Subscribers(s, name) == {} then s.(subscriptions := s.subscriptions - {name}) else s;
    var told := CallCluster(Note(cleared, Gone(name, socket)), C.Remove(name));
    if socket !in told.sockets then told
    else
      var mine := told.sockets[socket] - {name};
      if mine == {} then told.(sockets := told.sockets - {socket}, callbacks := told.callbacks - {socket})
      else told.(sockets := told.sockets[socket := mine])
  }

  function Leave(s: State, name: string, socket: nat): State {
    RemoveSocket(s.(subscriptions := s.subscriptions[name := Subscribers(s, name) - {socket}]), name, socket)
  }

  function Unsubscribe(s: State, name: string, socket: nat, silent: bool): State {
    if socket !in Subscribers(s, name) then (if silent then s else Note(s, NotSubscribed(name, socket)))
    else Acked(Leave(s, name, socket), socket, silent)
  }

  function SubscribeAll(s: State, names: seq<string>, socket: nat): State
    decreases |names|
  {
    if names == [] then s else Subscribe(SubscribeAll(s, names[..|names| - 1], socket), names[|names| - 1], socket, true)
  }

  function UnsubscribeAll(s: State, names: seq<string>, socket: nat): State
    decreases |names|
  {
    if names == [] then s else Unsubscribe(UnsubscribeAll(s, names[..|names| - 1], socket), names[|names| - 1], socket, true)
  }

  function LeaveAll(s: State, names: seq<string>, socket: nat): State
    decreases |names|
  {
    if names == [] then s else Leave(LeaveAll(s, names[..|names| - 1], socket), names[|names| - 1], socket)
  }

  /** `order` is the order in which the socket's set is walked. */
  function OnSocketClose(s: State, socket: nat, order: seq<string>): State {
    if socket !in s.sockets then s
    else
      var t := LeaveAll(s, order, socket);
      t.(sockets := t.sockets - {socket})
  }

  datatype Event =
    | Subscribes(name: string, socket: nat, silent: bool)
    | Unsubscribes(name: string, socket: nat, silent: bool)
    | SubscribesBulk(names: seq<string>, socket: nat, silent: bool)
    | UnsubscribesBulk(names: seq<string>, socket: nat, silent: bool)
    | Closes(socket: nat, order: seq<string>)

  predicate Enumerates(order: seq<string>, names: set<string>) {
    && (forall i, j :: 0 <= i < j < |order| ==> order[i] != order[j])
    && (set n | n in order) == names
  }

  predicate Possible(s: State, e: Event) {
    e.Closes? ==> e.socket in s.callbacks && Enumerates(e.order, Names(s, e.socket))
  }

  function Step(s: State, e: Event): State {
    match e
    case Subscribes(name, socket, silent) => Subscribe(s, name, socket, silent)
    case Unsubscribes(name, socket, silent) => Unsubscribe(s, name, socket, silent)
    case SubscribesBulk(names, socket, silent) => Acked(SubscribeAll(s, names, socket), socket, silent)
    case UnsubscribesBulk(names, socket, silent) => Acked(UnsubscribeAll(s, names, socket), socket, silent)
    case Closes(socket, order) => OnSocketClose(s, socket, order)
  }

  function Run(events: seq<Event>): Option<State>
    decreases |events|
  {
    if events == [] then Some(EMPTY)
    else
      var before := Run(events[..|events| - 1]);
      var e := events[|events| - 1];
      if before.Some? && Possible(before.value, e) then Some(Step(before.value, e)) else None
  }

  // ---------- What every run keeps ----------

  /** Subscriptions made to a name less those that are gone. */
  function Count(t: History, n: string): int {
    match t
    case Start => 0
    case After(past, Made(name, _)) => Count(past, n) + (if name == n then 1 else 0)
    case After(past, Gone(name, _)) => Count(past, n) - (if name == n then 1 else 0)
    case After(past, _) => Count(past, n)
  }

  /** Nothing is still to be told: no first subscription was announced that was not made, and no name
      lost its last subscriber unannounced. */
  predicate Settled(t: History) {
    t.Start? || (!t.last.FirstMade? && (t.last.Gone? ==> Count(t, t.last.name) != 0))
  }

  /** A name's first subscription is announced immediately before it is made, its last one immediately
      after it is gone, and no other one is announced. */
  predicate Notified(t: History) {
    match t
    case Start => true
    case After(past, FirstMade(n)) => Notified(past) && Settled(past) && Count(past, n) == 0
    case After(past, Made(n, _)) => Notified(past) && if Count(past, n) == 0 then past.After? && past.last == FirstMade(n) else Settled(past)
    case After(past, Gone(n, _)) => Notified(past) && Settled(past) && Count(past, n) > 0
    case After(past, LastGone(n)) => Notified(past) && Count(past, n) == 0 && past.After? && past.last.Gone? && past.last.name == n
    case After(past, _) => Notified(past) && Settled(past)
  }

  /** The two indexes are the same relation. */
  ghost predicate SameRelation(s: State) {
    forall x, n :: n in Names(s, x) <==> x in Subscribers(s, n)
  }

  predicate NoEmptySets(s: State) {
    (forall x :: x in s.sockets ==> Names(s, x) != {}) && (forall n :: n in s.subscriptions ==> Subscribers(s, n) != {})
  }

  /** The state registry counts the subscribers of the name. */
  predicate CountedName(s: State, n: string) {
    if Subscribers(s, n) == {} then n !in s.cluster.data
    else n in s.cluster.data && s.cluster.data[n] == C.Num(|Subscribers(s, n)|)
  }

  ghost predicate Counted(s: State) {
    forall n :: CountedName(s, n)
  }

  ghost predicate Told(s: State) {
    Notified(s.trace) && Settled(s.trace) && forall n :: Count(s.trace, n) == |Subscribers(s, n)|
  }

  ghost predicate Sound(s: State) {
    SameRelation(s) && NoEmptySets(s) && s.callbacks == s.sockets.Keys && Counted(s) && Told(s)
  }

  lemma MoreThan<T>(a: set<T>, x: T)
    requires x !in a
    ensures |a + {x}| == |a| + 1
  {
  }

  lemma LessThan<T>(a: set<T>, x: T)
    requires x in a
    ensures |a - {x}| == |a| - 1
  {
  }

  lemma PlainNote(s: State, e: Trace)
    requires Sound(s) && (e.Multiple? || e.NotSubscribed? || e.Ack?)
    ensures Sound(Note(s, e))
  {
    var u := Note(s, e);
    assert forall n :: Count(u.trace, n) == Count(s.trace, n) && Subscribers(u, n) == Subscribers(s, n);
    assert forall x :: Names(u, x) == Names(s, x);
    assert forall n :: CountedName(s, n) ==> CountedName(u, n);
  }

  /** The registry announces a name's first addition, and its last removal. */
  lemma CallAnnounces(s: State, call: C.Call)
    requires call.name in s.cluster.data ==> s.cluster.data[call.name].Num? && s.cluster.data[call.name].n > 0
    requires call.Remove? ==> call.name in s.cluster.data
    ensures var u := CallCluster(s, call); var name := call.name;
      var n := if name in s.cluster.data then s.cluster.data[name].n else 0;
      && u == s.(cluster := u.cluster, trace := u.trace)
      && (call.Add? ==> u.cluster.data == s.cluster.data[name := C.Num(n + 1)] && u.trace == if n == 0 then After(s.trace, FirstMade(name)) else s.trace)
      && (call.Remove? ==>
            && u.cluster.data == (if n == 1 then s.cluster.data - {name} else s.cluster.data[name := C.Num(n - 1)])
            && u.trace == if n == 1 then After(s.trace, LastGone(name)) else s.trace)
  {
  }

  lemma SubscribeKeeps(s: State, name: string, socket: nat, silent: bool)
    requires Sound(s)
    ensures Sound(Subscribe(s, name, socket, silent))
  {
    if socket in Subscribers(s, name) {
      PlainNote(s, Multiple(name, socket));
    } else {
      var joined := AddSocket(s.(subscriptions := s.subscriptions[name := Subscribers(s, name) + {socket}]), name, socket);
      JoinKeeps(s, name, socket, joined);
      if !silent { PlainNote(joined, Ack(socket)); }
    }
  }

  /** One pair more, or one less. */
  ghost predicate RelationJoined(s: State, u: State, name: string, socket: nat) {
    && (forall x :: Names(u, x) == if x == socket then Names(s, x) + {name} else Names(s, x))
    && (forall n :: Subscribers(u, n) == if n == name then Subscribers(s, n) + {socket} else Subscribers(s, n))
  }

  predicate KeysJoined(s: State, u: State, name: string, socket: nat) {
    && u.sockets.Keys == s.sockets.Keys + {socket} && u.subscriptions.Keys == s.subscriptions.Keys + {name}
    && u.callbacks == s.callbacks + {socket}
  }

  predicate CountsJoined(s: State, u: State, name: string, socket: nat) {
    && u.cluster.data == s.cluster.data[name := C.Num(|Subscribers(s, name)| + 1)]
    && u.trace == After(if Subscribers(s, name) == {} then After(s.trace, FirstMade(name)) else s.trace, Made(name, socket))
  }

  ghost predicate RelationParted(s: State, u: State, name: string, socket: nat) {
    && (forall x :: Names(u, x) == if x == socket then Names(s, x) - {name} else Names(s, x))
    && (forall n :: Subscribers(u, n) == if n == name then Subscribers(s, n) - {socket} else Subscribers(s, n))
  }

  predicate KeysParted(s: State, u: State, name: string, socket: nat) {
    && u.sockets.Keys == (if Names(s, socket) - {name} == {} then s.sockets.Keys - {socket} else s.sockets.Keys)
    && u.subscriptions.Keys == (if Subscribers(s, name) - {socket} == {} then s.subscriptions.Keys - {name} else s.subscriptions.Keys)
    && u.callbacks == (if Names(s, socket) - {name} == {} then s.callbacks - {socket} else s.callbacks)
  }

  predicate CountsParted(s: State, u: State, name: string, socket: nat) {
    var left := Subscribers(s, name) - {socket};
    && u.cluster.data == (if left == {} then s.cluster.data - {name} else s.cluster.data[name := C.Num(|left|)])
    && u.trace == (if left == {} then After(After(s.trace, Gone(name, socket)), LastGone(name)) else After(s.trace, Gone(name, socket)))
  }

  ghost predicate Joined(s: State, u: State, name: string, socket: nat) {
    RelationJoined(s, u, name, socket) && KeysJoined(s, u, name, socket) && CountsJoined(s, u, name, socket)
  }

  ghost predicate Parted(s: State, u: State, name: string, socket: nat) {
    RelationParted(s, u, name, socket) && KeysParted(s, u, name, socket) && CountsParted(s, u, name, socket)
  }

  lemma RelationKept(s: State, u: State, name: string, socket: nat)
    requires SameRelation(s) && (RelationJoined(s, u, name, socket) || RelationParted(s, u, name, socket))
    ensures SameRelation(u)
  {
    forall x, n ensures n in Names(u, x) <==> x in Subscribers(u, n) {
      assert n in Names(s, x) <==> x in Subscribers(s, n);
    }
  }

  lemma SetsKept(s: State, u: State, name: string, socket: nat)
    requires NoEmptySets(s) && s.callbacks == s.sockets.Keys
    requires || (RelationJoined(s, u, name, socket) && KeysJoined(s, u, name, socket))
             || (RelationParted(s, u, name, socket) && KeysParted(s, u, name, socket))
    ensures NoEmptySets(u) && u.callbacks == u.sockets.Keys
  {
    forall x | x in u.sockets ensures Names(u, x) != {} {
      assert x in s.sockets ==> Names(s, x) != {};
    }
    forall n | n in u.subscriptions ensures Subscribers(u, n) != {} {
      assert n in s.subscriptions ==> Subscribers(s, n) != {};
    }
  }

  lemma CountedJoined(s: State, u: State, name: string, socket: nat)
    requires Counted(s) && RelationJoined(s, u, name, socket) && CountsJoined(s, u, name, socket) && socket !in Subscribers(s, name)
    ensures Counted(u)
  {
    MoreThan(Subscribers(s, name), socket);
    forall n ensures CountedName(u, n) {
      assert CountedName(s, n);
    }
  }

  lemma CountedParted(s: State, u: State, name: string, socket: nat)
    requires Counted(s) && RelationParted(s, u, name, socket) && CountsParted(s, u, name, socket)
    ensures Counted(u)
  {
    forall n ensures CountedName(u, n) {
      assert CountedName(s, n);
    }
  }

  lemma ToldJoined(s: State, u: State, name: string, socket: nat)
    requires Told(s) && RelationJoined(s, u, name, socket) && CountsJoined(s, u, name, socket) && socket !in Subscribers(s, name)
    ensures Told(u)
  {
    MoreThan(Subscribers(s, name), socket);
    assert Count(s.trace, name) == |Subscribers(s, name)|;
    forall n ensures Count(u.trace, n) == |Subscribers(u, n)| {
      assert Count(s.trace, n) == |Subscribers(s, n)|;
    }
  }

  lemma ToldParted(s: State, u: State, name: string, socket: nat)
    requires Told(s) && RelationParted(s, u, name, socket) && CountsParted(s, u, name, socket) && socket in Subscribers(s, name)
    ensures Told(u)
  {
    LessThan(Subscribers(s, name), socket);
    assert Count(s.trace, name) == |Subscribers(s, name)|;
    forall n ensures Count(u.trace, n) == |Subscribers(u, n)| {
      assert Count(s.trace, n) == |Subscribers(s, n)|;
    }
  }

  lemma JoinKeeps(s: State, name: string, socket: nat, u: State)
    requires Sound(s) && socket !in Subscribers(s, name)
    requires u == AddSocket(s.(subscriptions := s.subscriptions[name := Subscribers(s, name) + {socket}]), name, socket)
    ensures Sound(u)
  {
    Joins(s, name, socket, u);
    RelationKept(s, u, name, socket);
    SetsKept(s, u, name, socket);
    CountedJoined(s, u, name, socket);
    ToldJoined(s, u, name, socket);
  }

  function Linked(s: State, name: string, socket: nat): State {
    var mine := Names(s, socket);
    s.(subscriptions := s.subscriptions[name := Subscribers(s, name) + {socket}],
       sockets := s.sockets[socket := mine + {name}],
       callbacks := if mine == {} then s.callbacks + {socket} else s.callbacks)
  }

  lemma LinkedRelation(s: State, name: string, socket: nat)
    ensures RelationJoined(s, Linked(s, name, socket), name, socket)
  {
  }

  lemma LinkedKeys(s: State, name: string, socket: nat)
    requires NoEmptySets(s) && s.callbacks == s.sockets.Keys
    ensures KeysJoined(s, Linked(s, name, socket), name, socket)
  {
    if Names(s, socket) != {} { assert s.callbacks + {socket} == s.callbacks; }
  }

  lemma SameIndexes(s: State, t: State, u: State, name: string, socket: nat)
    requires u == t.(cluster := u.cluster, trace := u.trace)
    ensures RelationJoined(s, t, name, socket) ==> RelationJoined(s, u, name, socket)
    ensures KeysJoined(s, t, name, socket) ==> KeysJoined(s, u, name, socket)
    ensures RelationParted(s, t, name, socket) ==> RelationParted(s, u, name, socket)
    ensures KeysParted(s, t, name, socket) ==> KeysParted(s, u, name, socket)
  {
    assert forall x :: Names(t, x) == Names(u, x);
    assert forall n :: Subscribers(t, n) == Subscribers(u, n);
  }

  lemma JoinsCounts(s: State, t: State, name: string, socket: nat)
    requires t.cluster == s.cluster && t.trace == s.trace
    requires name in s.cluster.data <==> Subscribers(s, name) != {}
    requires name in s.cluster.data ==> s.cluster.data[name] == C.Num(|Subscribers(s, name)|)
    ensures var u := Note(CallCluster(t, C.Add(name)), Made(name, socket));
      CountsJoined(s, u, name, socket) && u == t.(cluster := u.cluster, trace := u.trace)
  {
    CallAnnounces(t, C.Add(name));
  }

  lemma JoinsIndexes(s: State, name: string, socket: nat, u: State)
    requires NoEmptySets(s) && s.callbacks == s.sockets.Keys
    requires u == Linked(s, name, socket).(cluster := u.cluster, trace := u.trace)
    ensures RelationJoined(s, u, name, socket) && KeysJoined(s, u, name, socket)
  {
    LinkedRelation(s, name, socket);
    LinkedKeys(s, name, socket);
    SameIndexes(s, Linked(s, name, socket), u, name, socket);
  }

  lemma Joins(s: State, name: string, socket: nat, u: State)
    requires NoEmptySets(s) && Counted(s) && s.callbacks == s.sockets.Keys && socket !in Subscribers(s, name)
    requires u == AddSocket(s.(subscriptions := s.subscriptions[name := Subscribers(s, name) + {socket}]), name, socket)
    ensures Joined(s, u, name, socket)
  {
    assert CountedName(s, name);
    AddSocketIs(s, name, socket);
    JoinsCounts(s, Linked(s, name, socket), name, socket);
    JoinsIndexes(s, name, socket, u);
  }

  lemma AddSocketIs(s: State, name: string, socket: nat)
    ensures AddSocket(s.(subscriptions := s.subscriptions[name := Subscribers(s, name) + {socket}]), name, socket) ==
            Note(CallCluster(Linked(s, name, socket), C.Add(name)), Made(name, socket))
  {
  }

  /** The indexes as they are after the pair is taken out of both. */
  function Unlinked(s: State, name: string, socket: nat): State {
    var left, mine := Subscribers(s, name) - {socket}, Names(s, socket) - {name};
    s.(subscriptions := if left == {} then s.subscriptions - {name} else s.subscriptions[name := left],
       sockets := if mine == {} then s.sockets - {socket} else s.sockets[socket := mine],
       callbacks := if mine == {} then s.callbacks - {socket} else s.callbacks)
  }

  lemma UnlinkedParted(s: State, name: string, socket: nat)
    requires socket in Subscribers(s, name) && name in Names(s, socket)
    ensures RelationParted(s, Unlinked(s, name, socket), name, socket) && KeysParted(s, Unlinked(s, name, socket), name, socket)
  {
  }

  lemma PartsCounts(s: State, t: State, name: string, socket: nat)
    requires t.cluster == s.cluster && t.trace == s.trace && socket in Subscribers(s, name)
    requires name in s.cluster.data && s.cluster.data[name] == C.Num(|Subscribers(s, name)|)
    ensures var u := CallCluster(Note(t, Gone(name, socket)), C.Remove(name));
      CountsParted(s, u, name, socket) && u == t.(cluster := u.cluster, trace := u.trace)
  {
    LessThan(Subscribers(s, name), socket);
    CallAnnounces(Note(t, Gone(name, socket)), C.Remove(name));
  }

  lemma PartsIndexes(s: State, name: string, socket: nat, u: State)
    requires socket in Subscribers(s, name) && name in Names(s, socket)
    requires u == Unlinked(s, name, socket).(cluster := u.cluster, trace := u.trace)
    ensures RelationParted(s, u, name, socket) && KeysParted(s, u, name, socket)
  {
    UnlinkedParted(s, name, socket);
    SameIndexes(s, Unlinked(s, name, socket), u, name, socket);
  }

  /** The name's index without the socket, before the rest is done. */
  function Emptied(s: State, name: string, socket: nat): State {
    var left := Subscribers(s, name) - {socket};
    s.(subscriptions := if left == {} then s.subscriptions - {name} else s.subscriptions[name := left])
  }

  lemma LeaveIs(s: State, name: string, socket: nat)
    requires name in Names(s, socket)
    ensures var told := CallCluster(Note(Emptied(s, name, socket), Gone(name, socket)), C.Remove(name));
      Leave(s, name, socket) == Unlinked(s, name, socket).(cluster := told.cluster, trace := told.trace)
  {
    assert s.subscriptions[name := {}] - {name} == s.subscriptions - {name};
  }

  lemma Parts(s: State, name: string, socket: nat, u: State)
    requires NoEmptySets(s) && Counted(s) && socket in Subscribers(s, name) && name in Names(s, socket) && u == Leave(s, name, socket)
    ensures Parted(s, u, name, socket)
  {
    assert CountedName(s, name);
    LeaveIs(s, name, socket);
    PartsCounts(s, Emptied(s, name, socket), name, socket);
    PartsIndexes(s, name, socket, u);
  }

  lemma PairOf(s: State, x: nat, n: string)
    requires Sound(s)
    ensures n in Names(s, x) <==> x in Subscribers(s, n)
  {
  }

  lemma LeaveKeeps(s: State, name: string, socket: nat)
    requires Sound(s) && socket in Subscribers(s, name)
    ensures Sound(Leave(s, name, socket)) && RelationParted(s, Leave(s, name, socket), name, socket)
  {
    var u := Leave(s, name, socket);
    PairOf(s, socket, name);
    Parts(s, name, socket, u);
    RelationKept(s, u, name, socket);
    SetsKept(s, u, name, socket);
    CountedParted(s, u, name, socket);
    ToldParted(s, u, name, socket);
  }

  lemma UnsubscribeKeeps(s: State, name: string, socket: nat, silent: bool)
    requires Sound(s)
    ensures Sound(Unsubscribe(s, name, socket, silent))
  {
    if socket in Subscribers(s, name) {
      LeaveKeeps(s, name, socket);
      if !silent { PlainNote(Leave(s, name, socket), Ack(socket)); }
    } else if !silent {
      PlainNote(s, NotSubscribed(name, socket));
    }
  }

  lemma {:induction false} SubscribeAllKeeps(s: State, names: seq<string>, socket: nat)
    requires Sound(s)
    ensures Sound(SubscribeAll(s, names, socket))
    decreases |names|
  {
    if names != [] {
      SubscribeAllKeeps(s, names[..|names| - 1], socket);
      SubscribeKeeps(SubscribeAll(s, names[..|names| - 1], socket), names[|names| - 1], socket, true);
    }
  }

  lemma {:induction false} UnsubscribeAllKeeps(s: State, names: seq<string>, socket: nat)
    requires Sound(s)
    ensures Sound(UnsubscribeAll(s, names, socket))
    decreases |names|
  {
    if names != [] {
      UnsubscribeAllKeeps(s, names[..|names| - 1], socket);
      UnsubscribeKeeps(UnsubscribeAll(s, names[..|names| - 1], socket), names[|names| - 1], socket, true);
    }
  }

  /** All the socket's names but the given ones are left. */
  ghost predicate Left(s: State, u: State, names: seq<string>, socket: nat) {
    && (forall n :: n in Names(u, socket) <==> n in Names(s, socket) && n !in names)
    && (forall x :: x != socket ==> Names(u, x) == Names(s, x))
  }

  lemma LeftOne(s: State, t: State, u: State, names: seq<string>, socket: nat)
    requires names != [] && Left(s, t, names[..|names| - 1], socket) && RelationParted(t, u, names[|names| - 1], socket)
    ensures Left(s, u, names, socket)
  {
    var before, last := names[..|names| - 1], names[|names| - 1];
    assert names == before + [last];
    forall n ensures n in Names(u, socket) <==> n in Names(s, socket) && n !in names {
      assert n in names <==> n in before || n == last;
    }
  }

  lemma {:induction false} LeaveAllKeeps(s: State, names: seq<string>, socket: nat)
    requires Sound(s) && forall n :: n in names ==> n in Names(s, socket)
    requires forall i, j :: 0 <= i < j < |names| ==> names[i] != names[j]
    ensures Sound(LeaveAll(s, names, socket)) && Left(s, LeaveAll(s, names, socket), names, socket)
    decreases |names|
  {
    if names != [] {
      var before, last := names[..|names| - 1], names[|names| - 1];
      LeaveAllKeeps(s, before, socket);
      var t := LeaveAll(s, before, socket);
      assert last in names && last !in before;
      PairOf(t, socket, last);
      LeaveKeeps(t, last, socket);
      LeftOne(s, t, Leave(t, last, socket), names, socket);
    }
  }

  /** A socket that closes keeps no subscription, and the others keep theirs. */
  lemma CloseKeeps(s: State, socket: nat, order: seq<string>)
    requires Sound(s) && Enumerates(order, Names(s, socket))
    ensures var u := OnSocketClose(s, socket, order);
      Sound(u) && Names(u, socket) == {} && forall x :: x != socket ==> Names(u, x) == Names(s, x)
  {
    if socket in s.sockets {
      assert forall n :: n in order ==> n in (set m | m in order);
      LeaveAllKeeps(s, order, socket);
      var t := LeaveAll(s, order, socket);
      assert Names(t, socket) == {} by {
        assert forall n :: n in (set m | m in order) ==> n in order;
      }
      assert socket !in t.sockets;
      assert t.sockets - {socket} == t.sockets;
    }
  }

  lemma StepKeeps(s: State, e: Event)
    requires Sound(s) && Possible(s, e)
    ensures Sound(Step(s, e))
  {
    match e
    case Subscribes(name, socket, silent) => SubscribeKeeps(s, name, socket, silent);
    case Unsubscribes(name, socket, silent) => UnsubscribeKeeps(s, name, socket, silent);
    case SubscribesBulk(names, socket, silent) =>
      SubscribeAllKeeps(s, names, socket);
      if !silent { PlainNote(SubscribeAll(s, names, socket), Ack(socket)); }
    case UnsubscribesBulk(names, socket, silent) =>
      UnsubscribeAllKeeps(s, names, socket);
      if !silent { PlainNote(UnsubscribeAll(s, names, socket), Ack(socket)); }
    case Closes(socket, order) => CloseKeeps(s, socket, order);
  }

  /** After any sequence of calls and socket closes: the two indexes are the same relation, without
      empty sets; the close callback is registered exactly for the sockets with subscriptions; the
      state registry's count of each name is the number of its subscribers; and the first and last
      subscriptions of a name are announced exactly when its number of subscribers leaves and reaches
      zero. */
  lemma {:induction false} IndexesAgree(events: seq<Event>)
    requires Run(events).Some?
    ensures Sound(Run(events).value)
    decreases |events|
  {
    if events != [] {
      IndexesAgree(events[..|events| - 1]);
      StepKeeps(Run(events[..|events| - 1]).value, events[|events| - 1]);
    }
  }
}
