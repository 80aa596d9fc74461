/** The two state registries as objects whose maps change in place, each method proved to do what the
    functions in `StateRegistry` and `SingleStateRegistry` say. */
module StateRegistries {
  import opened Common
  import S = StateRegistry
  import P = SingleStateRegistry

  /** A list without one of its members. */
  function Minus(names: seq<string>, x: string): seq<string> {
    if names == [] then [] else (if names[0] == x then [] else [names[0]]) + Minus(names[1..], x)
  }

  predicate Distinct(names: seq<string>) {
    forall i, j :: 0 <= i < j < |names| ==> names[i] != names[j]
  }

  lemma {:induction false} MinusLaw(names: seq<string>, x: string)
    requires Distinct(names)
    ensures Distinct(Minus(names, x)) && forall n :: n in Minus(names, x) <==> n in names && n != x
    decreases |names|
  {
    if names == [] {
    } else {
      MinusLaw(names[1..], x);
      var rest := Minus(names[1..], x);
      assert [] + rest == rest;
      assert names[0] !in names[1..];
      forall i, j | 0 <= i < j < |Minus(names, x)| ensures Minus(names, x)[i] != Minus(names, x)[j] {
        if names[0] != x && i == 0 {
          assert rest[j - 1] in rest;
        }
      }
    }
  }

  /** `latest`: the timer kept for each server. `armed`: the timers that run, with the server whose full
      state they will ask for. */
  datatype Reconciliations = Reconciliations(latest: map<string, nat>, armed: map<nat, string>, next: nat)

  /** A check sum of the server was compared. A timer that is kept already is overwritten, not cleared. */
  function Compared(r: Reconciliations, server: string, same: bool): Reconciliations {
    if !same then r.(latest := r.latest[server := r.next], armed := r.armed[r.next := server], next := r.next + 1)
    else if server in r.latest then r.(latest := r.latest - {server}, armed := r.armed - {r.latest[server]})
    else r
  }

  /** Timers have their numbers once, and the one kept for a server is a timer of that server if it runs. */
  predicate Numbered(r: Reconciliations) {
    && (forall t :: t in r.armed ==> t < r.next)
    && (forall s :: s in r.latest ==> r.latest[s] < r.next && (r.latest[s] in r.armed ==> r.armed[r.latest[s]] == s))
  }

  lemma ComparedStaysNumbered(r: Reconciliations, server: string, same: bool)
    requires Numbered(r)
    ensures Numbered(Compared(r, server, same))
  {
  }

  /** A matching check sum leaves no request for the server's state under way exactly if no timer but the
      latest was running: two differing check sums before it leave one. */
  lemma MatchClearsIff(r: Reconciliations, server: string)
    requires Numbered(r)
    ensures (forall t :: t in Compared(r, server, true).armed ==> Compared(r, server, true).armed[t] != server) <==>
            (forall t :: t in r.armed && r.armed[t] == server ==> server in r.latest && t == r.latest[server])
  {
    var u := Compared(r, server, true);
    if t :| t in r.armed && r.armed[t] == server && !(server in r.latest && t == r.latest[server]) {
      assert t in u.armed && u.armed[t] == server;
    }
  }

  /** Two differing check sums and a matching one: the first request is still scheduled, and nothing can
      clear it any more. */
  lemma TwoDifferencesLeaveOne(r: Reconciliations, server: string)
    requires Numbered(r)
    ensures var u := Compared(Compared(Compared(r, server, false), server, false), server, true);
      Numbered(u) && r.next in u.armed && u.armed[r.next] == server && server !in u.latest
  {
    var once := Compared(r, server, false);
    ComparedStaysNumbered(r, server, false);
    ComparedStaysNumbered(once, server, false);
    ComparedStaysNumbered(Compared(once, server, false), server, true);
  }

  class DistributedStateRegistry {
    const serverName: string
    var data: map<string, S.Entry>
    /** The insertion order of `data`, which is what a `Map` iterates in. */
    var order: seq<string>
    var log: S.Log
    /** Messages broadcast to the cluster, and full states sent to one server, oldest first. */
    var broadcasts: seq<S.Message>
    var fullStates: seq<(string, S.Message)>
    /** Reconciliation requests that are scheduled. */
    var reconciliations: Reconciliations

    ghost predicate Valid()
      reads this
    {
      S.Enumerates(order, data)
    }

    function Model(): S.Registry
      reads this
    {
      S.Registry(serverName, data, log)
    }

    constructor (serverName: string)
      ensures Valid() && Model() == S.Empty(serverName)
      ensures broadcasts == [] && fullStates == [] && reconciliations == Reconciliations(map[], map[], 0)
    {
      this.serverName := serverName;
      data, order, log := map[], [], S.Start;
      broadcasts, fullStates, reconciliations := [], [], Reconciliations(map[], map[], 0);
    }

    method Emit(e: S.Emitted)
      modifies this`log
      ensures log == S.After(old(log), e)
    {
      log := S.After(log, e);
    }

    method Has(name: string) returns (r: bool)
      requires Valid()
      ensures r <==> name in data
    {
      r := name in data;
    }

    method Add(name: string)
      requires Valid()
      modifies this`data, this`order, this`log, this`broadcasts
      ensures Valid() && Model() == S.Add(old(Model()), name).0
      ensures broadcasts == old(broadcasts) + S.Sent(S.Add(old(Model()), name).1)
    {
      if name !in data || serverName !in data[name].nodes {
        AddToServer(name, serverName);
        broadcasts := broadcasts + [S.AddName(name)];
      } else {
        data := data[name := data[name].(localCount := data[name].localCount + 1)];
      }
    }

    method Remove(name: string)
      requires Valid()
      modifies this`data, this`order, this`log, this`broadcasts
      ensures Valid() && Model() == S.Remove(old(Model()), name).0
      ensures broadcasts == old(broadcasts) + S.Sent(S.Remove(old(Model()), name).1)
    {
      if name in data {
        data := data[name := data[name].(localCount := data[name].localCount - 1)];
        if data[name].localCount == 0 {
          RemoveFromServer(name, serverName);
          broadcasts := broadcasts + [S.RemoveName(name)];
        }
      }
    }

    method RemoveFromServer(name: string, server: string)
      requires Valid()
      modifies this`data, this`order, this`log
      ensures Valid() && Model() == S.RemoveFromServer(old(Model()), name, server)
    {
      if name !in data {
        return;
      }
      var nodes := data[name].nodes - {server};
      data := data[name := data[name].(nodes := nodes)];
      if nodes == {} {
        MinusLaw(order, name);
        assert data - {name} == old(data) - {name};
        data, order := data - {name}, Minus(order, name);
        Emit(S.Removed(name));
      }
      Emit(S.ServerRemoved(name, server));
    }

    method AddToServer(name: string, server: string)
      requires Valid()
      modifies this`data, this`order, this`log
      ensures Valid() && Model() == S.AddToServer(old(Model()), name, server)
    {
      if name !in data {
        var sum := CreateCheckSum(name);
        data, order := data[name := S.Entry(1, {}, sum)], order + [name];
        Emit(S.Added(name));
      }
      data := data[name := data[name].(nodes := data[name].nodes + {server})];
      Emit(S.ServerAdded(name, server));
    }

    /** The shift works on 32 bits, the difference and the sum do not. */
    static method CreateCheckSum(name: string) returns (checkSum: int)
      ensures checkSum == S.CheckSum(name)
    {
      checkSum := 0;
      for i := 0 to |name|
        invariant checkSum == S.CheckSum(name[..i])
      {
        assert name[..i + 1][..i] == name[..i];
        checkSum := S.ToInt32(S.ToInt32(checkSum) * 32) - checkSum + name[i] as int;
      }
      assert name[..|name|] == name;
    }

    method OnServerRemoved(server: string)
      requires Valid()
      modifies this`data, this`order, this`log
      ensures Valid() && Model() == S.Sweep(old(Model()), old(order), server)
    {
      var names := order;
      for i := 0 to |names|
        invariant Valid()
        invariant S.Sweep(Model(), names[i..], server) == S.Sweep(old(Model()), names, server)
      {
        assert names[i..][1..] == names[i + 1..];
        if names[i] in data && server in data[names[i]].nodes {
          RemoveFromServer(names[i], server);
        }
      }
    }

    method GetAll(server: string) returns (entries: seq<string>)
      requires Valid()
      ensures entries == S.HeldInOrder(Model(), order, server)
    {
      entries := [];
      for i := 0 to |order|
        invariant entries + S.HeldInOrder(Model(), order[i..], server) == S.HeldInOrder(Model(), order, server)
      {
        assert order[i..][1..] == order[i + 1..];
        if order[i] in data && server in data[order[i]].nodes {
          entries := entries + [order[i]];
        }
      }
    }

    method SendFullState(server: string)
      requires Valid()
      modifies this`fullStates
      ensures fullStates == old(fullStates) + [(server, S.FullState(S.HeldInOrder(Model(), order, serverName)))]
    {
      var localState := GetAll(serverName);
      fullStates := fullStates + [(server, S.FullState(localState))];
    }

    /** As written: the loop over `Object.keys` of a `Map` is a loop over nothing. */
    method ApplyFullState(server: string, names: seq<string>)
      requires Valid()
      modifies this`data, this`order, this`log
      ensures Valid() && Model() == S.ApplyFullState(S.AsWritten, old(Model()), server, names, old(order))
    {
      for i := 0 to |names|
        invariant Valid()
        invariant S.AddAll(Model(), names[i..], server) == S.AddAll(old(Model()), names, server)
      {
        assert names[i..][1..] == names[i + 1..];
        AddToServer(names[i], server);
      }
    }

    method ProcessIncomingMessage(m: S.Message, server: string)
      requires Valid()
      modifies this`data, this`order, this`log
      ensures Valid() && Model() == S.Receive(S.AsWritten, old(Model()), m, server, old(order))
    {
      match m
      case AddName(name) => AddToServer(name, server);
      case RemoveName(name) => RemoveFromServer(name, server);
      case FullState(names) => ApplyFullState(server, names);
    }

    method GetCheckSumTotal(server: string) returns (total: int)
      requires Valid()
      ensures total == S.SumOver(Model(), order, server)
    {
      total := 0;
      for i := 0 to |order|
        invariant total + S.SumOver(Model(), order[i..], server) == S.SumOver(Model(), order, server)
      {
        assert order[i..][1..] == order[i + 1..];
        if server in data[order[i]].nodes {
          total := total + data[order[i]].checkSum;
        }
      }
    }

    /** A reconciliation is scheduled when the totals differ, and the latest one is cancelled when they
        agree. */
    method VerifyCheckSum(server: string, remoteCheckSum: int)
      requires Valid()
      modifies this`reconciliations
      ensures reconciliations == Compared(old(reconciliations), server, S.SumOver(Model(), order, server) == remoteCheckSum)
    {
      var total := GetCheckSumTotal(server);
      var r := reconciliations;
      if total != remoteCheckSum {
        reconciliations := Reconciliations(r.latest[server := r.next], r.armed[r.next := server], r.next + 1);
        return;
      }
      if server in r.latest {
        reconciliations := r.(armed := r.armed - {r.latest[server]}, latest := r.latest - {server});
      }
    }

    /** The remote server's total, compared by a registry that agrees with it on the names that the
        remote server holds, schedules nothing. */
    method CompareWith(remote: DistributedStateRegistry)
      requires Valid() && remote.Valid() && remote != this
      requires S.Populated(Model()) && S.Populated(remote.Model())
      requires S.Held(Model(), remote.serverName) == S.Held(remote.Model(), remote.serverName)
      modifies this`reconciliations
      ensures reconciliations == Compared(old(reconciliations), remote.serverName, true)
      ensures remote.serverName !in reconciliations.latest && reconciliations.next == old(reconciliations).next
    {
      var checksum := remote.GetCheckSumTotal(remote.serverName);
      S.EqualViewsEqualTotals(Model(), order, remote.Model(), remote.order, remote.serverName);
      VerifyCheckSum(remote.serverName, checksum);
    }
  }

  class SingleRegistry {
    var data: map<string, P.Count>
    var log: S.Log

    function Model(): P.Single
      reads this
    {
      P.Single(data, log)
    }

    constructor ()
      ensures Model() == P.Single(map[], S.Start)
    {
      data, log := map[], S.Start;
    }

    method Add(name: string)
      modifies this
      ensures Model() == P.SingleStep(old(Model()), P.Add(name))
    {
      if name !in data || P.Falsy(data[name]) {
        data := data[name := P.Num(1)];
        log := S.After(log, S.Added(name));
      } else {
        data := data[name := P.Num(data[name].n + 1)];
      }
    }

    method Remove(name: string)
      modifies this
      ensures Model() == P.SingleStep(old(Model()), P.Remove(name))
    {
      var current := P.NaN;
      if name in data && data[name].Num? {
        current := P.Num(data[name].n - 1);
      }
      if current == P.Num(0) {
        data := data - {name};
        log := S.After(log, S.Removed(name));
      } else {
        data := data[name := current];
      }
    }
  }
}
