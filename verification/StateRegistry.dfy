/** One server's part of a replicated set of names: which servers hold each name, how often this
    server added it, and the events told to listeners. */
module StateRegistry {
  import opened Common

  /** `nodes`: the servers that hold the name. `localCount`: this server's count of additions. */
  datatype Entry = Entry(localCount: int, nodes: set<string>, checkSum: int)

  datatype Emitted = Added(name: string) | Removed(name: string) | ServerAdded(name: string, server: string) | ServerRemoved(name: string, server: string)

  /** Events told so far, newest outermost. */
  datatype Log = Start | After(past: Log, last: Emitted)

  datatype Message = AddName(name: string) | RemoveName(name: string) | FullState(names: seq<string>)

  datatype Registry = Registry(self: string, data: map<string, Entry>, log: Log)

  function Empty(self: string): Registry {
    Registry(self, map[], Start)
  }

  function Tell(r: Registry, e: Emitted): Registry {
    r.(log := After(r.log, e))
  }

  /** The names that `server` holds, as far as this registry knows. */
  function Held(r: Registry, server: string): set<string> {
    set name | name in r.data && server in r.data[name].nodes
  }

  function AddToServer(r: Registry, name: string, server: string): Registry {
    var known := if name in r.data then r
                 else Tell(r.(data := r.data[name := Entry(1, {}, CheckSum(name))]), Added(name));
    var entry := known.data[name];
    Tell(known.(data := known.data[name := entry.(nodes := entry.nodes + {server})]), ServerAdded(name, server))
  }

  function RemoveFromServer(r: Registry, name: string, server: string): Registry {
    if name !in r.data then r
    else
      var nodes := r.data[name].nodes - {server};
      Tell(if nodes == {} then Tell(r.(data := r.data - {name}), Removed(name))
           else r.(data := r.data[name := r.data[name].(nodes := nodes)]),
           ServerRemoved(name, server))
  }

  function Sent(m: Option<Message>): seq<Message> {
    if m.Some? then [m.value] else []
  }

  /** `add`: the registry afterwards, and what is sent to the cluster. */
  function Add(r: Registry, name: string): (Registry, Option<Message>) {
    if name !in r.data || r.self !in r.data[name].nodes then
      (AddToServer(r, name, r.self), Some(AddName(name)))
    else
      (r.(data := r.data[name := r.data[name].(localCount := r.data[name].localCount + 1)]), None)
  }

  function Remove(r: Registry, name: string): (Registry, Option<Message>) {
    if name !in r.data then (r, None)
    else
      var entry := r.data[name].(localCount := r.data[name].localCount - 1);
      var counted := r.(data := r.data[name := entry]);
      if entry.localCount == 0 then (RemoveFromServer(counted, name, r.self), Some(RemoveName(name))) else (counted, None)
  }

  /** `removeFromServer` for those of the names that `server` holds, in the given order. */
  function Sweep(r: Registry, names: seq<string>, server: string): Registry
    decreases |names|
  {
    if names == [] then r
    else
      var name := names[0];
      Sweep(if name in r.data && server in r.data[name].nodes then RemoveFromServer(r, name, server) else r, names[1..], server)
  }

  function AddAll(r: Registry, names: seq<string>, server: string): Registry
    decreases |names|
  {
    if names == [] then r else AddAll(AddToServer(r, names[0], server), names[1..], server)
  }

  /** `removeFromServer` for each of the names that the full state does not list. */
  function DropOthers(r: Registry, names: seq<string>, keep: seq<string>, server: string): Registry
    decreases |names|
  {
    if names == [] then r
    else DropOthers(if names[0] in keep then r else RemoveFromServer(r, names[0], server), names[1..], keep, server)
  }

  /** The names that the first loop of `applyFullState` visits. As written it asks a `Map` for
      `Object.keys`, which lists none; `replacing` is the version that was meant, with `order` an
      enumeration of the registry's names. */
  datatype Policy = AsWritten | Replacing

  function Visited(policy: Policy, order: seq<string>): seq<string> {
    if policy.Replacing? then order else []
  }

  function ApplyFullState(policy: Policy, r: Registry, server: string, names: seq<string>, order: seq<string>): Registry {
    AddAll(DropOthers(r, Visited(policy, order), names, server), names, server)
  }

  /** `processIncomingMessage` for the messages that carry names. */
  function Receive(policy: Policy, r: Registry, m: Message, server: string, order: seq<string>): Registry {
    match m
    case AddName(name) => AddToServer(r, name, server)
    case RemoveName(name) => RemoveFromServer(r, name, server)
    case FullState(names) => ApplyFullState(policy, r, server, names, order)
  }

  /** `order` lists a map's keys, each once: the iteration order of a JavaScript `Map`. */
  predicate Enumerates(order: seq<string>, m: map<string, Entry>) {
    && (forall n :: n in order ==> n in m)
    && (forall n :: n in m ==> n in order)
    && (forall i, j :: 0 <= i < j < |order| ==> order[i] != order[j])
  }

  /** What can happen to one registry. */
  datatype Event =
    | LocalAdd(name: string)
    | LocalRemove(name: string)
    | Incoming(m: Message, server: string, order: seq<string>)
    | ServerGone(server: string, order: seq<string>)

  predicate Possible(r: Registry, e: Event) {
    match e
    case LocalAdd(_) => true
    case LocalRemove(_) => true
    case Incoming(_, server, order) => server != r.self && Enumerates(order, r.data)
    case ServerGone(server, order) => server != r.self && Enumerates(order, r.data)
  }

  function Step(policy: Policy, r: Registry, e: Event): Registry {
    match e
    case LocalAdd(name) => Add(r, name).0
    case LocalRemove(name) => Remove(r, name).0
    case Incoming(m, server, order) => Receive(policy, r, m, server, order)
    case ServerGone(server, order) => Sweep(r, order, server)
  }

  /** The registry after a run from the start. */
  function Run(policy: Policy, self: string, events: seq<Event>): Registry
    decreases |events|
  {
    if events == [] then Empty(self)
    else Step(policy, Run(policy, self, events[..|events| - 1]), events[|events| - 1])
  }

  predicate PossibleRun(policy: Policy, self: string, events: seq<Event>)
    decreases |events|
  {
    events == [] ||
    var before := events[..|events| - 1];
    PossibleRun(policy, self, before) && Possible(Run(policy, self, before), events[|events| - 1])
  }

  // ---------- Check sums ----------

  const TWO31 := 0x8000_0000
  const TWO32 := 0x1_0000_0000
  const TWO53 := 0x20_0000_0000_0000

  /** JavaScript's conversion to a signed 32-bit integer. */
  function ToInt32(x: int): int {
    (x + TWO31) % TWO32 - TWO31
  }

  /** One round of the loop: only the shift wraps, the rest is done in doubles. */
  function Round(sum: int, code: int): int {
    ToInt32(ToInt32(sum) * 32) - sum + code
  }

  function CheckSum(name: string): int {
    if name == "" then 0 else Round(CheckSum(name[..|name| - 1]), name[|name| - 1] as int)
  }

  /** The base-31 polynomial of the character codes. */
  function Polynomial(name: string): int {
    if name == "" then 0 else 31 * Polynomial(name[..|name| - 1]) + name[|name| - 1] as int
  }

  predicate Congruent(a: int, b: int) {
    a % TWO32 == b % TWO32
  }

  lemma ToInt32Congruent(x: int)
    ensures Congruent(ToInt32(x), x) && -TWO31 <= ToInt32(x) < TWO31
  {
    var k := (x + TWO31) / TWO32;
    assert ToInt32(x) == x + (-k) * TWO32;
    ModShift(x, -k);
  }

  lemma ModShift(x: int, k: int)
    ensures (x + k * TWO32) % TWO32 == x % TWO32
  {
  }

  lemma CongruentBy(a: int, b: int) returns (k: int)
    requires Congruent(a, b)
    ensures a == b + k * TWO32
  {
    k := a / TWO32 - b / TWO32;
  }

  lemma RoundCongruent(sum: int, poly: int, code: int)
    requires Congruent(sum, poly)
    ensures Congruent(Round(sum, code), 31 * poly + code)
  {
    ToInt32Congruent(sum);
    ToInt32Congruent(ToInt32(sum) * 32);
    var i := CongruentBy(sum, poly);
    var j := CongruentBy(ToInt32(sum), sum);
    var l := CongruentBy(ToInt32(ToInt32(sum) * 32), ToInt32(sum) * 32);
    assert Round(sum, code) == 31 * poly + code + (31 * i + 32 * j + l) * TWO32;
    ModShift(31 * poly + code, 31 * i + 32 * j + l);
  }

  /** The check sum is the base-31 polynomial modulo 2^32, and never further from zero than
      length * (2^31 + 65535): exact in doubles up to 4194176 UTF-16 code units. */
  lemma {:induction false} CheckSumLaw(name: string)
    requires forall i :: 0 <= i < |name| ==> name[i] as int <= 0xFFFF
    ensures Congruent(CheckSum(name), Polynomial(name))
    ensures -(|name| * (TWO31 + 0xFFFF)) <= CheckSum(name) <= |name| * (TWO31 + 0xFFFF)
    ensures |name| <= 4194176 ==> -TWO53 <= CheckSum(name) <= TWO53
    decreases |name|
  {
    if name != "" {
      var before := name[..|name| - 1];
      CheckSumLaw(before);
      RoundCongruent(CheckSum(before), Polynomial(before), name[|name| - 1] as int);
      ToInt32Congruent(ToInt32(CheckSum(before)) * 32);
    }
  }

  /** The total over a list of names. */
  function Total(names: seq<string>): int {
    if names == [] then 0 else CheckSum(names[0]) + Total(names[1..])
  }

  lemma {:induction false} TotalWithout(names: seq<string>, i: nat)
    requires i < |names|
    ensures Total(names) == CheckSum(names[i]) + Total(names[..i] + names[i + 1..])
    decreases |names|
  {
    if i > 0 {
      TotalWithout(names[1..], i - 1);
      var rest := names[..i] + names[i + 1..];
      assert rest[0] == names[0] && rest[1..] == names[1..][..i - 1] + names[1..][i..];
    } else {
      assert names[..0] + names[1..] == names[1..];
    }
  }

  /** Two lists of the same distinct names have the same total, in whatever order. */
  lemma {:induction false} TotalOfSet(a: seq<string>, b: seq<string>)
    requires forall n :: n in a <==> n in b
    requires forall i, j :: 0 <= i < j < |a| ==> a[i] != a[j]
    requires forall i, j :: 0 <= i < j < |b| ==> b[i] != b[j]
    ensures Total(a) == Total(b)
    decreases |a| + |b|, if a == [] then 1 else 0
  {
    if a == [] && b == [] {
    } else if a == [] {
      TotalOfSet(b, a);
    } else {
      assert a[0] in b;
      var k :| 0 <= k < |b| && b[k] == a[0];
      var rest := b[..k] + b[k + 1..];
      TotalWithout(b, k);
      forall n ensures n in a[1..] <==> n in rest {
        if n in a[1..] {
          assert n in a && n in b && n != a[0];
        }
        if n in rest {
          assert n in b && n in a;
        }
      }
      TotalOfSet(a[1..], rest);
    }
  }

  // ---------- What every registry keeps ----------

  /** The add and remove events of one name, oldest first: true is an add. */
  function Toggles(log: Log, x: string): seq<bool> {
    match log
    case Start => []
    case After(past, Added(name)) => if name == x then Toggles(past, x) + [true] else Toggles(past, x)
    case After(past, Removed(name)) => if name == x then Toggles(past, x) + [false] else Toggles(past, x)
    case After(past, _) => Toggles(past, x)
  }

  /** Adds and removes alternate, starting with an add, and the last one says whether the name is there. */
  ghost predicate Alternates(r: Registry, x: string) {
    var t := Toggles(r.log, x);
    && (forall i :: 0 <= i < |t| ==> t[i] == (i % 2 == 0))
    && (x in r.data <==> |t| % 2 == 1)
  }

  /** Entries have a holder and their name's check sum. */
  ghost predicate Populated(r: Registry) {
    forall n :: n in r.data ==> r.data[n].nodes != {} && r.data[n].checkSum == CheckSum(n)
  }

  ghost predicate Tidy(r: Registry, x: string) {
    Populated(r) && Alternates(r, x)
  }

  lemma AddToServerTidy(r: Registry, name: string, server: string, x: string)
    requires Tidy(r, x)
    ensures Tidy(AddToServer(r, name, server), x)
  {
    var u := AddToServer(r, name, server);
    assert Toggles(u.log, x) == if name !in r.data && name == x then Toggles(r.log, x) + [true] else Toggles(r.log, x);
  }

  lemma RemoveFromServerTidy(r: Registry, name: string, server: string, x: string)
    requires Tidy(r, x)
    ensures Tidy(RemoveFromServer(r, name, server), x)
  {
    if name in r.data {
      var u := RemoveFromServer(r, name, server);
      var gone := r.data[name].nodes - {server} == {};
      assert Toggles(u.log, x) == if gone && name == x then Toggles(r.log, x) + [false] else Toggles(r.log, x);
    }
  }

  lemma {:induction false} AddAllTidy(r: Registry, names: seq<string>, server: string, x: string)
    requires Tidy(r, x)
    ensures Tidy(AddAll(r, names, server), x)
    decreases |names|
  {
    if names == [] {
    } else {
      AddToServerTidy(r, names[0], server, x);
      AddAllTidy(AddToServer(r, names[0], server), names[1..], server, x);
    }
  }

  lemma {:induction false} DropOthersTidy(r: Registry, names: seq<string>, keep: seq<string>, server: string, x: string)
    requires Tidy(r, x)
    ensures Tidy(DropOthers(r, names, keep, server), x)
    decreases |names|
  {
    if names == [] {
    } else {
      RemoveFromServerTidy(r, names[0], server, x);
      DropOthersTidy(if names[0] in keep then r else RemoveFromServer(r, names[0], server), names[1..], keep, server, x);
    }
  }

  lemma {:induction false} SweepTidy(r: Registry, names: seq<string>, server: string, x: string)
    requires Tidy(r, x)
    ensures Tidy(Sweep(r, names, server), x)
    decreases |names|
  {
    if names == [] {
    } else {
      var name := names[0];
      RemoveFromServerTidy(r, name, server, x);
      SweepTidy(if name in r.data && server in r.data[name].nodes then RemoveFromServer(r, name, server) else r, names[1..], server, x);
    }
  }

  lemma RemoveTidy(r: Registry, name: string, x: string)
    requires Tidy(r, x)
    ensures Tidy(Remove(r, name).0, x)
  {
    if name in r.data {
      var entry := r.data[name].(localCount := r.data[name].localCount - 1);
      RemoveFromServerTidy(r.(data := r.data[name := entry]), name, r.self, x);
    }
  }

  lemma StepTidy(policy: Policy, r: Registry, e: Event, x: string)
    requires Tidy(r, x)
    ensures Tidy(Step(policy, r, e), x)
  {
    match e
    case LocalAdd(name) => AddToServerTidy(r, name, r.self, x);
    case LocalRemove(name) => RemoveTidy(r, name, x);
    case Incoming(m, server, order) =>
      match m {
        case AddName(name) => AddToServerTidy(r, name, server, x);
        case RemoveName(name) => RemoveFromServerTidy(r, name, server, x);
        case FullState(names) =>
          DropOthersTidy(r, Visited(policy, order), names, server, x);
          AddAllTidy(DropOthers(r, Visited(policy, order), names, server), names, server, x);
      }
    case ServerGone(server, order) => SweepTidy(r, order, server, x);
  }

  /** On any server, with local calls, remote messages and leaving servers in any order: an entry
      exists exactly when some server holds the name, and for each name the add and remove events
      strictly alternate, starting with an add and ending with an add exactly when the name is there. */
  lemma {:induction false} EventsAlternate(policy: Policy, self: string, events: seq<Event>, x: string)
    ensures var r := Run(policy, self, events);
      && (x in r.data <==> exists server :: x in Held(r, server))
      && Alternates(r, x) && Populated(r)
    decreases |events|
  {
    if events == [] {
    } else {
      EventsAlternate(policy, self, events[..|events| - 1], x);
      StepTidy(policy, Run(policy, self, events[..|events| - 1]), events[|events| - 1], x);
    }
    var r := Run(policy, self, events);
    if x in r.data {
      var server :| server in r.data[x].nodes;
      assert x in Held(r, server);
    }
  }

  // ---------- Which names a server holds ----------

  lemma AddToServerHeld(r: Registry, name: string, server: string, other: string)
    ensures Held(AddToServer(r, name, server), other) == Held(r, other) + (if other == server then {name} else {})
    ensures AddToServer(r, name, server).self == r.self
  {
  }

  lemma RemoveFromServerHeld(r: Registry, name: string, server: string, other: string)
    ensures Held(RemoveFromServer(r, name, server), other) == Held(r, other) - (if other == server then {name} else {})
    ensures RemoveFromServer(r, name, server).self == r.self
  {
    if name in r.data && other != server && other in r.data[name].nodes {
      assert other in r.data[name].nodes - {server};
    }
  }

  function Names(names: seq<string>): set<string> {
    set n | n in names
  }

  lemma {:induction false} AddAllHeld(r: Registry, names: seq<string>, server: string, other: string)
    ensures Held(AddAll(r, names, server), other) == Held(r, other) + (if other == server then Names(names) else {})
    ensures AddAll(r, names, server).self == r.self
    decreases |names|
  {
    if names == [] {
    } else {
      AddToServerHeld(r, names[0], server, other);
      AddAllHeld(AddToServer(r, names[0], server), names[1..], server, other);
      assert Names(names) == {names[0]} + Names(names[1..]);
    }
  }

  lemma {:induction false} DropOthersHeld(r: Registry, names: seq<string>, keep: seq<string>, server: string, other: string)
    ensures Held(DropOthers(r, names, keep, server), other) ==
            Held(r, other) - (if other == server then Names(names) - Names(keep) else {})
    ensures DropOthers(r, names, keep, server).self == r.self
    decreases |names|
  {
    if names == [] {
    } else {
      var next := if names[0] in keep then r else RemoveFromServer(r, names[0], server);
      RemoveFromServerHeld(r, names[0], server, other);
      DropOthersHeld(next, names[1..], keep, server, other);
      assert Names(names) == {names[0]} + Names(names[1..]);
    }
  }

  lemma {:induction false} SweepHeld(r: Registry, names: seq<string>, server: string, other: string)
    ensures Held(Sweep(r, names, server), other) == Held(r, other) - (if other == server then Names(names) else {})
    ensures Sweep(r, names, server).self == r.self
    decreases |names|
  {
    if names == [] {
    } else {
      var name := names[0];
      var next := if name in r.data && server in r.data[name].nodes then RemoveFromServer(r, name, server) else r;
      RemoveFromServerHeld(r, name, server, other);
      SweepHeld(next, names[1..], server, other);
      assert Names(names) == {names[0]} + Names(names[1..]);
    }
  }

  /** What one message does to the names held by its sender. */
  function Replay1(policy: Policy, held: set<string>, m: Message): set<string> {
    match m
    case AddName(name) => held + {name}
    case RemoveName(name) => held - {name}
    case FullState(names) => if policy.Replacing? then Names(names) else held + Names(names)
  }

  /** A message changes the view of its sender as `Replay1` says, and no other view. */
  lemma ReceiveHeld(policy: Policy, r: Registry, m: Message, server: string, order: seq<string>, other: string)
    requires Enumerates(order, r.data)
    ensures Held(Receive(policy, r, m, server, order), other) ==
            if other == server then Replay1(policy, Held(r, server), m) else Held(r, other)
    ensures Receive(policy, r, m, server, order).self == r.self
  {
    match m
    case AddName(name) => AddToServerHeld(r, name, server, other);
    case RemoveName(name) => RemoveFromServerHeld(r, name, server, other);
    case FullState(names) =>
      DropOthersHeld(r, Visited(policy, order), names, server, other);
      AddAllHeld(DropOthers(r, Visited(policy, order), names, server), names, server, other);
      assert policy.Replacing? ==> Held(r, server) <= Names(order);
  }

  /** A local addition is announced exactly when this server comes to hold the name. */
  lemma AddHeld(r: Registry, name: string, other: string)
    ensures var (u, m) := Add(r, name);
      && u.self == r.self
      && Held(u, other) == Held(r, other) + (if other == r.self then {name} else {})
      && m == if name in Held(r, r.self) then None else Some(AddName(name))
  {
    AddToServerHeld(r, name, r.self, other);
  }

  /** A local removal changes what this server holds only if it is announced. It may be announced
      for a name this server does not hold. */
  lemma RemoveHeld(r: Registry, name: string, other: string)
    ensures var (u, m) := Remove(r, name);
      && u.self == r.self && (m.None? || m == Some(RemoveName(name)))
      && Held(u, other) == Held(r, other) - (if other == r.self && m.Some? then {name} else {})
  {
    if name in r.data {
      var entry := r.data[name].(localCount := r.data[name].localCount - 1);
      var counted := r.(data := r.data[name := entry]);
      assert Held(counted, other) == Held(r, other);
      RemoveFromServerHeld(counted, name, r.self, other);
    }
  }

  /** `getCheckSumTotal`: the sum of the cached check sums of the names that `server` holds. */
  function SumOver(r: Registry, order: seq<string>, server: string): int {
    if order == [] then 0
    else
      (if order[0] in r.data && server in r.data[order[0]].nodes then r.data[order[0]].checkSum else 0)
      + SumOver(r, order[1..], server)
  }

  function HeldInOrder(r: Registry, order: seq<string>, server: string): seq<string> {
    if order == [] then []
    else (if order[0] in Held(r, server) then [order[0]] else []) + HeldInOrder(r, order[1..], server)
  }

  lemma {:induction false} HeldInOrderTotal(r: Registry, order: seq<string>, server: string)
    requires Populated(r)
    ensures SumOver(r, order, server) == Total(HeldInOrder(r, order, server))
    decreases |order|
  {
    if order == [] {
    } else {
      HeldInOrderTotal(r, order[1..], server);
      var rest := HeldInOrder(r, order[1..], server);
      assert ([order[0]] + rest)[1..] == rest;
      assert [] + rest == rest;
    }
  }

  lemma {:induction false} HeldInOrderDistinct(r: Registry, order: seq<string>, server: string)
    requires forall i, j :: 0 <= i < j < |order| ==> order[i] != order[j]
    ensures var held := HeldInOrder(r, order, server);
      && (forall n :: n in held <==> n in order && n in Held(r, server))
      && (forall i, j :: 0 <= i < j < |held| ==> held[i] != held[j])
    decreases |order|
  {
    if order == [] {
    } else {
      HeldInOrderDistinct(r, order[1..], server);
    }
  }

  /** Two registries that agree on the names a server holds compute the same total for it, whatever
      the order of their maps: agreeing views never schedule a reconciliation. */
  lemma EqualViewsEqualTotals(r: Registry, order: seq<string>, r': Registry, order': seq<string>, server: string)
    requires Populated(r) && Enumerates(order, r.data) && Populated(r') && Enumerates(order', r'.data)
    requires Held(r, server) == Held(r', server)
    ensures SumOver(r, order, server) == SumOver(r', order', server)
  {
    HeldInOrderTotal(r, order, server);
    HeldInOrderTotal(r', order', server);
    HeldInOrderDistinct(r, order, server);
    HeldInOrderDistinct(r', order', server);
    var a, b := HeldInOrder(r, order, server), HeldInOrder(r', order', server);
    forall n ensures n in a <==> n in b {
      assert n in a <==> n in Held(r, server);
      assert n in b <==> n in Held(r', server);
    }
    TotalOfSet(a, b);
  }
}
