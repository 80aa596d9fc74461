/** Who is subscribed and what each call is answered, in every run, told from the calls alone. */
module SubscriptionCalls {
  import opened Subscriptions

  /** The last call about the pair, bulk calls and closes of the socket included, is a subscription. */
  function Subscribed(events: seq<Event>, x: nat, n: string): bool
    decreases |events|
  {
    events != [] &&
    var before := Subscribed(events[..|events| - 1], x, n);
    match events[|events| - 1]
    case Subscribes(name, socket, _) => before || (name == n && socket == x)
    case Unsubscribes(name, socket, _) => before && !(name == n && socket == x)
    case SubscribesBulk(names, socket, _) => before || (n in names && socket == x)
    case UnsubscribesBulk(names, socket, _) => before && !(n in names && socket == x)
    case Closes(socket, _) => before && socket != x
  }

  function AckUnless(silent: bool, x: nat): seq<Trace> {
    if silent then [] else [Ack(x)]
  }

  /** A repeated subscription is refused also inside a bulk call, and then also for names listed twice. */
  function Refused(past: seq<Event>, names: seq<string>, x: nat): seq<Trace>
    decreases |names|
  {
    if names == [] then []
    else
      var before, n := names[..|names| - 1], names[|names| - 1];
      Refused(past, before, x) + (if Subscribed(past, x, n) || n in before then [Multiple(n, x)] else [])
  }

  /** What a call calls for, given the calls before it. */
  function Due(past: seq<Event>, e: Event): seq<Trace> {
    match e
    case Subscribes(n, x, silent) => if Subscribed(past, x, n) then [Multiple(n, x)] else AckUnless(silent, x)
    case Unsubscribes(n, x, silent) =>
      if Subscribed(past, x, n) then AckUnless(silent, x) else if silent then [] else [NotSubscribed(n, x)]
    case SubscribesBulk(names, x, silent) => Refused(past, names, x) + AckUnless(silent, x)
    case UnsubscribesBulk(_, x, silent) => AckUnless(silent, x)
    case Closes(_, _) => []
  }

  function AllDue(events: seq<Event>): seq<Trace>
    decreases |events|
  {
    if events == [] then [] else AllDue(events[..|events| - 1]) + Due(events[..|events| - 1], events[|events| - 1])
  }

  /** Everything that sockets were sent, oldest first. */
  function Sent(t: History): seq<Trace> {
    match t
    case Start => []
    case After(past, e) => if e.Multiple? || e.NotSubscribed? || e.Ack? then Sent(past) + [e] else Sent(past)
  }

  /** What the listener was told last about the pair is that the subscription was made. */
  predicate SaidToBe(t: History, x: nat, n: string) {
    match t
    case Start => false
    case After(past, e) => if e == Made(n, x) then true else if e == Gone(n, x) then false else SaidToBe(past, x, n)
  }

  ghost predicate Same(s: State, u: State) {
    forall x, n :: x in Subscribers(u, n) <==> x in Subscribers(s, n)
  }

  ghost predicate Matches(s: State) {
    forall x, n :: SaidToBe(s.trace, x, n) <==> x in Subscribers(s, n)
  }

  // ---------- One call ----------

  lemma NoteSays(s: State, e: Trace)
    requires Sound(s) && Matches(s) && (e.Multiple? || e.NotSubscribed? || e.Ack?)
    ensures var u := Note(s, e); Sound(u) && Matches(u) && Same(s, u) && Sent(u.trace) == Sent(s.trace) + [e]
  {
    PlainNote(s, e);
    var u := Note(s, e);
    assert forall n :: Subscribers(u, n) == Subscribers(s, n);
    assert forall x, n :: SaidToBe(u.trace, x, n) == SaidToBe(s.trace, x, n);
  }

  /** One pair more. */
  ghost predicate OneMore(s: State, u: State, name: string, socket: nat) {
    forall x, n :: x in Subscribers(u, n) <==> x in Subscribers(s, n) || (x == socket && n == name)
  }

  ghost predicate OneLess(s: State, u: State, name: string, socket: nat) {
    forall x, n :: x in Subscribers(u, n) <==> x in Subscribers(s, n) && !(x == socket && n == name)
  }

  lemma JoinedIsMore(s: State, u: State, name: string, socket: nat)
    requires RelationJoined(s, u, name, socket)
    ensures OneMore(s, u, name, socket)
  {
  }

  lemma PartedIsLess(s: State, u: State, name: string, socket: nat)
    requires RelationParted(s, u, name, socket)
    ensures OneLess(s, u, name, socket)
  {
  }

  lemma JoinedIsSaid(s: State, u: State, name: string, socket: nat)
    requires CountsJoined(s, u, name, socket)
    ensures Sent(u.trace) == Sent(s.trace)
    ensures forall x, n :: SaidToBe(u.trace, x, n) <==> SaidToBe(s.trace, x, n) || (x == socket && n == name)
  {
  }

  lemma PartedIsSaid(s: State, u: State, name: string, socket: nat)
    requires CountsParted(s, u, name, socket)
    ensures Sent(u.trace) == Sent(s.trace)
    ensures forall x, n :: SaidToBe(u.trace, x, n) <==> SaidToBe(s.trace, x, n) && !(x == socket && n == name)
  {
  }

  lemma MoreMatches(s: State, u: State, name: string, socket: nat)
    requires Matches(s) && OneMore(s, u, name, socket)
    requires forall x, n :: SaidToBe(u.trace, x, n) <==> SaidToBe(s.trace, x, n) || (x == socket && n == name)
    ensures Matches(u)
  {
  }

  lemma LessMatches(s: State, u: State, name: string, socket: nat)
    requires Matches(s) && OneLess(s, u, name, socket)
    requires forall x, n :: SaidToBe(u.trace, x, n) <==> SaidToBe(s.trace, x, n) && !(x == socket && n == name)
    ensures Matches(u)
  {
  }

  lemma JoinSays(s: State, name: string, socket: nat, u: State)
    requires Sound(s) && Matches(s) && socket !in Subscribers(s, name)
    requires u == AddSocket(s.(subscriptions := s.subscriptions[name := Subscribers(s, name) + {socket}]), name, socket)
    ensures Sound(u) && Matches(u) && OneMore(s, u, name, socket) && Sent(u.trace) == Sent(s.trace)
  {
    JoinKeeps(s, name, socket, u);
    Joins(s, name, socket, u);
    JoinedIsMore(s, u, name, socket);
    JoinedIsSaid(s, u, name, socket);
    MoreMatches(s, u, name, socket);
  }

  lemma SubscribeSays(s: State, name: string, socket: nat, silent: bool)
    requires Sound(s) && Matches(s)
    ensures var u := Subscribe(s, name, socket, silent);
      && Sound(u) && Matches(u) && OneMore(s, u, name, socket)
      && Sent(u.trace) == Sent(s.trace) + if socket in Subscribers(s, name) then [Multiple(name, socket)] else AckUnless(silent, socket)
  {
    if socket in Subscribers(s, name) {
      NoteSays(s, Multiple(name, socket));
    } else {
      var u := AddSocket(s.(subscriptions := s.subscriptions[name := Subscribers(s, name) + {socket}]), name, socket);
      JoinSays(s, name, socket, u);
      if !silent { NoteSays(u, Ack(socket)); }
    }
  }

  lemma LeaveSays(s: State, name: string, socket: nat)
    requires Sound(s) && Matches(s) && socket in Subscribers(s, name)
    ensures var u := Leave(s, name, socket); Sound(u) && Matches(u) && OneLess(s, u, name, socket) && Sent(u.trace) == Sent(s.trace)
  {
    var u := Leave(s, name, socket);
    LeaveKeeps(s, name, socket);
    PairOf(s, socket, name);
    Parts(s, name, socket, u);
    PartedIsLess(s, u, name, socket);
    PartedIsSaid(s, u, name, socket);
    LessMatches(s, u, name, socket);
  }

  lemma UnsubscribeSays(s: State, name: string, socket: nat, silent: bool)
    requires Sound(s) && Matches(s)
    ensures var u := Unsubscribe(s, name, socket, silent);
      && Sound(u) && Matches(u) && OneLess(s, u, name, socket)
      && Sent(u.trace) == Sent(s.trace) +
           if socket in Subscribers(s, name) then AckUnless(silent, socket) else if silent then [] else [NotSubscribed(name, socket)]
  {
    if socket in Subscribers(s, name) {
      LeaveSays(s, name, socket);
      if !silent { NoteSays(Leave(s, name, socket), Ack(socket)); }
    } else if !silent {
      NoteSays(s, NotSubscribed(name, socket));
    }
  }

  // ---------- Bulk calls and closes ----------

  ghost predicate ManyMore(s: State, u: State, names: seq<string>, socket: nat) {
    forall x, n :: x in Subscribers(u, n) <==> x in Subscribers(s, n) || (x == socket && n in names)
  }

  ghost predicate ManyLess(s: State, u: State, names: seq<string>, socket: nat) {
    forall x, n :: x in Subscribers(u, n) <==> x in Subscribers(s, n) && !(x == socket && n in names)
  }

  /** The calls so far are what the state holds. */
  ghost predicate Follows(s: State, events: seq<Event>) {
    forall x, n :: x in Subscribers(s, n) <==> Subscribed(events, x, n)
  }

  lemma InSnoc(names: seq<string>, n: string)
    requires names != []
    ensures n in names <==> n in names[..|names| - 1] || n == names[|names| - 1]
  {
    assert names == names[..|names| - 1] + [names[|names| - 1]];
  }

  lemma {:induction false} SubscribeAllSays(s: State, names: seq<string>, socket: nat, past: seq<Event>)
    requires Sound(s) && Matches(s) && Follows(s, past)
    ensures var u := SubscribeAll(s, names, socket);
      && Sound(u) && Matches(u) && ManyMore(s, u, names, socket)
      && Sent(u.trace) == Sent(s.trace) + Refused(past, names, socket)
    decreases |names|
  {
    if names != [] {
      var before, n := names[..|names| - 1], names[|names| - 1];
      SubscribeAllSays(s, before, socket, past);
      var t := SubscribeAll(s, before, socket);
      SubscribeSays(t, n, socket, true);
      MoreAndOne(s, t, SubscribeAll(s, names, socket), names, socket);
      assert socket in Subscribers(t, n) <==> Subscribed(past, socket, n) || n in before;
    }
  }

  lemma MoreAndOne(s: State, t: State, u: State, names: seq<string>, socket: nat)
    requires names != [] && ManyMore(s, t, names[..|names| - 1], socket) && OneMore(t, u, names[|names| - 1], socket)
    ensures ManyMore(s, u, names, socket)
  {
    forall m ensures m in names <==> m in names[..|names| - 1] || m == names[|names| - 1] { InSnoc(names, m); }
  }

  lemma {:induction false} UnsubscribeAllSays(s: State, names: seq<string>, socket: nat)
    requires Sound(s) && Matches(s)
    ensures var u := UnsubscribeAll(s, names, socket);
      Sound(u) && Matches(u) && ManyLess(s, u, names, socket) && Sent(u.trace) == Sent(s.trace)
    decreases |names|
  {
    if names != [] {
      var before, n := names[..|names| - 1], names[|names| - 1];
      UnsubscribeAllSays(s, before, socket);
      UnsubscribeSays(UnsubscribeAll(s, before, socket), n, socket, true);
      forall m ensures m in names <==> m in before || m == n { InSnoc(names, m); }
    }
  }

  lemma {:induction false} LeaveAllSays(s: State, names: seq<string>, socket: nat)
    requires Sound(s) && Matches(s) && forall n :: n in names ==> socket in Subscribers(s, n)
    requires forall i, j :: 0 <= i < j < |names| ==> names[i] != names[j]
    ensures var u := LeaveAll(s, names, socket);
      Sound(u) && Matches(u) && ManyLess(s, u, names, socket) && Sent(u.trace) == Sent(s.trace)
    decreases |names|
  {
    if names != [] {
      var before, n := names[..|names| - 1], names[|names| - 1];
      LeaveAllSays(s, before, socket);
      assert n in names && n !in before;
      LeaveSays(LeaveAll(s, before, socket), n, socket);
      forall m ensures m in names <==> m in before || m == n { InSnoc(names, m); }
    }
  }

  ghost predicate Closed(s: State, u: State, socket: nat) {
    forall x, n :: x in Subscribers(u, n) <==> x in Subscribers(s, n) && x != socket
  }

  lemma LessIsClosed(s: State, u: State, names: seq<string>, socket: nat)
    requires ManyLess(s, u, names, socket) && forall n :: socket in Subscribers(s, n) ==> n in names
    ensures Closed(s, u, socket)
  {
  }

  lemma SameSubscribers(t: State, u: State)
    requires u.subscriptions == t.subscriptions && u.trace == t.trace && Matches(t)
    ensures Matches(u) && Same(t, u)
  {
  }

  lemma CloseSays(s: State, socket: nat, order: seq<string>)
    requires Sound(s) && Matches(s) && Enumerates(order, Names(s, socket))
    ensures var u := OnSocketClose(s, socket, order); Sound(u) && Matches(u) && Sent(u.trace) == Sent(s.trace) && Closed(s, u, socket)
  {
    assert forall n :: n in order <==> n in (set m | m in order);
    forall n ensures n in order <==> socket in Subscribers(s, n) { PairOf(s, socket, n); }
    CloseKeeps(s, socket, order);
    if socket in s.sockets {
      LeaveAllSays(s, order, socket);
      var t := LeaveAll(s, order, socket);
      SameSubscribers(t, OnSocketClose(s, socket, order));
      LessIsClosed(s, t, order, socket);
    }
  }

  // ---------- Whole runs ----------

  ghost predicate Exact(s: State, events: seq<Event>) {
    Sound(s) && Matches(s) && Follows(s, events) && Sent(s.trace) == AllDue(events)
  }

  lemma FollowsOn(s: State, u: State, past: seq<Event>, e: Event)
    requires Follows(s, past)
    requires match e
             case Subscribes(name, socket, _) => OneMore(s, u, name, socket)
             case Unsubscribes(name, socket, _) => OneLess(s, u, name, socket)
             case SubscribesBulk(names, socket, _) => ManyMore(s, u, names, socket)
             case UnsubscribesBulk(names, socket, _) => ManyLess(s, u, names, socket)
             case Closes(socket, _) => Closed(s, u, socket)
    ensures Follows(u, past + [e]) && AllDue(past + [e]) == AllDue(past) + Due(past, e)
  {
    assert (past + [e])[..|past|] == past;
    forall x, n ensures x in Subscribers(u, n) <==> Subscribed(past + [e], x, n) {
      assert x in Subscribers(s, n) <==> Subscribed(past, x, n);
    }
  }

  lemma StepExact(s: State, past: seq<Event>, e: Event)
    requires Exact(s, past) && Possible(s, e)
    ensures Exact(Step(s, e), past + [e])
  {
    var u := Step(s, e);
    match e
    case Subscribes(name, socket, silent) => SubscribeSays(s, name, socket, silent); FollowsOn(s, u, past, e);
    case Unsubscribes(name, socket, silent) => UnsubscribeSays(s, name, socket, silent); FollowsOn(s, u, past, e);
    case SubscribesBulk(names, socket, silent) =>
      SubscribeAllSays(s, names, socket, past);
      AckSays(s, SubscribeAll(s, names, socket), socket, silent);
      FollowsOn(s, u, past, e);
    case UnsubscribesBulk(names, socket, silent) =>
      UnsubscribeAllSays(s, names, socket);
      AckSays(s, UnsubscribeAll(s, names, socket), socket, silent);
      FollowsOn(s, u, past, e);
    case Closes(socket, order) => CloseSays(s, socket, order); FollowsOn(s, u, past, e);
  }

  lemma AckSays(s: State, t: State, socket: nat, silent: bool)
    requires Sound(t) && Matches(t)
    ensures var u := Acked(t, socket, silent);
      Sound(u) && Matches(u) && Same(t, u) && Sent(u.trace) == Sent(t.trace) + AckUnless(silent, socket)
  {
    if !silent { NoteSays(t, Ack(socket)); }
  }

  lemma {:induction false} RunExact(events: seq<Event>)
    requires Run(events).Some?
    ensures Exact(Run(events).value, events)
    decreases |events|
  {
    if events != [] {
      var past := events[..|events| - 1];
      RunExact(past);
      StepExact(Run(past).value, past, events[|events| - 1]);
      assert past + [events[|events| - 1]] == events;
    } else {
      IndexesAgree([]);
    }
  }

  /** In every run a socket is a subscriber of a name exactly if the last call about the two, bulk calls and
      closes of the socket included, is a subscription; and the listener was told so last. */
  lemma SubscribersAreTheCallers(events: seq<Event>, x: nat, n: string)
    requires Run(events).Some?
    ensures x in Subscribers(Run(events).value, n) <==> Subscribed(events, x, n)
    ensures SaidToBe(Run(events).value.trace, x, n) <==> Subscribed(events, x, n)
  {
    RunExact(events);
  }

  /** In every run the sockets were sent exactly what the calls call for, in order: MULTIPLE_SUBSCRIPTIONS for
      a subscription that is there, silent or not; NOT_SUBSCRIBED for one that is not there to be ended, unless
      silent; and one acknowledgement for each other call that is not silent, a bulk call being one call. */
  lemma CallsAreAnswered(events: seq<Event>)
    requires Run(events).Some?
    ensures Sent(Run(events).value.trace) == AllDue(events)
  {
    RunExact(events);
  }
}
