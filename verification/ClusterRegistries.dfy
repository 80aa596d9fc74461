/** The lock registry and the cluster registry of one server as objects. */
module ClusterRegistries {
  import opened Common
  import L = Locks

  class DistributedLockRegistry {
    const serverName: string
    var locks: set<string>
    var timeouts: map<string, L.Timer>
    /** One-shot listeners of the response emitter, by lock name. */
    var waiting: multiset<string>
    /** Messages sent, with their receiver, and answers given to callbacks, oldest first. */
    var sent: seq<(string, L.Packet)>
    var told: seq<(string, bool)>

    constructor (serverName: string)
      ensures Model() == L.IDLE && sent == [] && told == []
    {
      this.serverName := serverName;
      locks, timeouts, waiting, sent, told := {}, map[], multiset{}, [], [];
    }

    function Model(): L.Server
      reads this
    {
      L.Server(locks, timeouts, waiting)
    }

    /** The leader decides at once; a follower asks, unless a request of its own is pending. */
    method Get(lockName: string, leader: string)
      modifies this
      ensures leader == serverName ==>
        && Model() == L.GetLock(old(Model()), lockName).0 && sent == old(sent)
        && told == old(told) + [(lockName, L.GetLock(old(Model()), lockName).1)]
      ensures leader != serverName && lockName !in old(timeouts) ==>
        && Model() == L.AskLeader(old(Model()), lockName) && told == old(told)
        && sent == old(sent) + [(leader, L.Request(serverName, lockName))]
      ensures leader != serverName && lockName in old(timeouts) ==>
        Model() == old(Model()) && sent == old(sent) && told == old(told) + [(lockName, false)]
    {
      if leader == serverName {
        var granted := GetLock(lockName);
        told := told + [(lockName, granted)];
      } else if lockName !in timeouts {
        timeouts := timeouts[lockName := L.RequestTimer];
        waiting := waiting + multiset{lockName};
        sent := sent + [(leader, L.Request(serverName, lockName))];
      } else {
        told := told + [(lockName, false)];
      }
    }

    method Release(lockName: string, leader: string)
      modifies this
      ensures told == old(told)
      ensures leader == serverName ==> Model() == L.ReleaseLock(old(Model()), lockName) && sent == old(sent)
      ensures leader != serverName ==> Model() == old(Model()) && sent == old(sent) + [(leader, L.Release(lockName))]
    {
      if leader == serverName {
        ReleaseLock(lockName);
      } else {
        sent := sent + [(leader, L.Release(lockName))];
      }
    }

    /** Answers are for whoever asked; requests and releases are for the leader only. */
    method OnPrivateMessage(p: L.Packet, remote: string, leader: string)
      modifies this
      ensures match p
        case Response(_, name, locked) =>
          && Model() == L.TakeAnswer(old(Model()), name) && sent == old(sent)
          && told == old(told) + seq(old(waiting)[name], _ => (name, locked))
        case Request(_, name) =>
          && told == old(told)
          && (leader == serverName ==>
                && Model() == L.GetLock(old(Model()), name).0
                && sent == old(sent) + [(remote, L.Response(remote, name, L.GetLock(old(Model()), name).1))])
          && (leader != serverName ==> Model() == old(Model()) && sent == old(sent))
        case Release(name) =>
          && told == old(told) && sent == old(sent)
          && Model() == (if leader == serverName then L.ReleaseLock(old(Model()), name) else old(Model()))
    {
      match p
      case Response(_, name, locked) => HandleRemoteLockResponse(name, locked);
      case Request(_, name) =>
        if leader != serverName {
          return;
        }
        var granted := GetLock(name);
        sent := sent + [(remote, L.Response(remote, name, granted))];
      case Release(name) =>
        if leader != serverName {
          return;
        }
        ReleaseLock(name);
    }

    method HandleRemoteLockResponse(lockName: string, result: bool)
      modifies this`timeouts, this`waiting, this`told
      ensures Model() == L.TakeAnswer(old(Model()), lockName)
      ensures told == old(told) + seq(old(waiting)[lockName], _ => (lockName, result))
    {
      timeouts := timeouts - {lockName};
      var listeners := waiting[lockName];
      waiting := waiting[lockName := 0];
      for i := 0 to listeners
        invariant told == old(told) + seq(i, _ => (lockName, result))
        invariant Model() == L.TakeAnswer(old(Model()), lockName)
      {
        assert seq(i + 1, _ => (lockName, result)) == seq(i, _ => (lockName, result)) + [(lockName, result)];
        told := told + [(lockName, result)];
      }
    }

    method GetLock(lockName: string) returns (granted: bool)
      modifies this`timeouts, this`locks
      ensures (Model(), granted) == L.GetLock(old(Model()), lockName)
    {
      if lockName in locks {
        return false;
      }
      timeouts := timeouts[lockName := L.HoldTimer];
      locks := locks + {lockName};
      return true;
    }

    method ReleaseLock(lockName: string)
      modifies this`timeouts, this`locks
      ensures Model() == L.ReleaseLock(old(Model()), lockName)
    {
      timeouts := timeouts - {lockName};
      locks := locks - {lockName};
    }

    method OnLockRequestTimeout(lockName: string)
      modifies this
      ensures Model() == L.TakeAnswer(old(Model()), lockName) && sent == old(sent)
      ensures told == old(told) + seq(old(waiting)[lockName], _ => (lockName, false))
    {
      HandleRemoteLockResponse(lockName, false);
    }
  }

  datatype Presence = Presence(lastStatusTime: int, leaderScore: real)

  class DistributedClusterRegistry {
    const serverName: string
    var nodes: map<string, Presence>
    /** The insertion order of `nodes`. */
    var order: seq<string>
    var joined: seq<string>
    var left: seq<string>

    ghost predicate Valid()
      reads this
    {
      && (forall n :: n in order <==> n in nodes)
      && (forall i, j :: 0 <= i < j < |order| ==> order[i] != order[j])
    }

    function Scores(): map<string, real>
      reads this
    {
      map n | n in nodes :: nodes[n].leaderScore
    }

    constructor (serverName: string)
      ensures Valid() && nodes == map[] && joined == [] && left == []
    {
      this.serverName := serverName;
      nodes, order, joined, left := map[], [], [], [];
    }

    method GetLeader() returns (leader: string)
      requires Valid()
      ensures leader == L.Leader(serverName, order, Scores())
    {
      var maxScore := 0.0;
      leader := serverName;
      for i := 0 to |order|
        invariant L.Elect(order[i..], Scores(), leader, maxScore) == L.Leader(serverName, order, Scores())
      {
        assert order[i..][1..] == order[i + 1..];
        if nodes[order[i]].leaderScore > maxScore {
          maxScore := nodes[order[i]].leaderScore;
          leader := order[i];
        }
      }
    }

    /** With an outright winner among the nodes, of which this server is one, a server leads exactly
        if it is the winner. */
    method IsLeader(ghost top: string) returns (r: bool)
      requires Valid() && serverName in nodes && L.Outright(top, Scores())
      ensures r <==> serverName == top
    {
      var leader := GetLeader();
      L.OneLeader(Scores(), top, serverName, order);
      r := serverName == leader;
    }

    method UpdateNode(name: string, score: real, now: int)
      requires Valid()
      modifies this`nodes, this`order, this`joined
      ensures Valid() && nodes == old(nodes)[name := Presence(now, score)]
      ensures joined == if name in old(nodes) then old(joined) else old(joined) + [name]
    {
      var known := name in nodes;
      nodes := nodes[name := Presence(now, score)];
      if known {
        return;
      }
      order := order + [name];
      joined := joined + [name];
    }

    method RemoveNode(name: string)
      requires Valid()
      modifies this`nodes, this`order, this`left
      ensures Valid() && nodes == old(nodes) - {name}
      ensures left == if name in old(nodes) then old(left) + [name] else old(left)
    {
      if name in nodes {
        var i := 0;
        while order[i] != name
          invariant 0 <= i < |order| && name in order[i..]
          decreases |order| - i
        {
          i := i + 1;
        }
        nodes := nodes - {name};
        order := order[..i] + order[i + 1..];
        left := left + [name];
      }
    }

    /** A server on its own is never dropped; of several, exactly those that were heard of in time stay. */
    method CheckNodes(now: int, timeout: int)
      requires Valid()
      modifies this`nodes, this`order, this`left
      ensures Valid()
      ensures |old(nodes)| == 1 ==> nodes == old(nodes) && left == old(left)
      ensures |old(nodes)| != 1 ==> forall n :: n in nodes <==> n in old(nodes) && InTime(old(nodes)[n], now, timeout)
      ensures forall n :: n in nodes ==> n in old(nodes) && nodes[n] == old(nodes)[n]
      ensures forall n :: n in old(nodes) && n !in nodes ==> n in left
    {
      if |nodes| == 1 {
        return;
      }
      var names := order;
      ghost var was, gone := nodes, {};
      for i := 0 to |names|
        invariant Valid() && nodes == was - gone
        invariant forall n :: n in gone ==> n in was && !InTime(was[n], now, timeout) && n in left
        invariant forall k :: i <= k < |names| ==> names[k] !in gone
        invariant forall k :: 0 <= k < i && names[k] !in gone ==> InTime(was[names[k]], now, timeout)
      {
        var name := names[i];
        assert name in names;
        if now - nodes[name].lastStatusTime > timeout {
          RemoveNode(name);
          gone := gone + {name};
        }
      }
      assert forall n :: n in was ==> n in names;
    }
  }

  predicate InTime(p: Presence, now: int, timeout: int) {
    now - p.lastStatusTime <= timeout
  }
}
