/** What a socket has sent and what waits in its buffer, in every run, told from the calls alone. */
module SocketSends {
  import opened Common
  import opened SocketBuffer

  predicate Open(events: seq<Event>, x: nat)
    decreases |events|
  {
    events != [] &&
    match events[|events| - 1]
    case Opens(y) => y == x || Open(events[..|events| - 1], x)
    case Closes(y) => y != x && Open(events[..|events| - 1], x)
    case _ => Open(events[..|events| - 1], x)
  }

  /** Everything given to the socket while it was open. */
  function Given(events: seq<Event>, x: nat): seq<string>
    decreases |events|
  {
    if events == [] then []
    else
      var past, e := events[..|events| - 1], events[|events| - 1];
      Given(past, x) + (if e.Sends? && e.x == x && Open(past, x) then [e.message] else [])
  }

  /** What may still wait: all since the last message that could not, the last overflow, and the last time the
      timer fired on the open socket. A buffer of empty messages is left alone by all but the overflow. */
  function Waiting(c: Config, events: seq<Event>, x: nat): seq<string>
    decreases |events|
  {
    if events == [] then []
    else
      var past, e := events[..|events| - 1], events[|events| - 1];
      var before := Waiting(c, past, x);
      var kept := if Bytes(before) == "" then before else [];
      if !Open(past, x) || c.timeout == 0 then before
      else
        match e
        case Sends(y, message, buffer) =>
          if y != x then before
          else if !buffer then kept
          else if |Bytes(before)| + |message| > c.maxSize then []
          else before + [message]
        case TimerFires(_) => kept
        case _ => before
  }

  ghost predicate Exact(c: Config, e: Endpoint, events: seq<Event>, x: nat) {
    && (Open(events, x) <==> x in e.sockets && !e.sockets[x].isClosed)
    && (x !in e.sockets ==> Given(events, x) == [] && Waiting(c, events, x) == [])
    && (x in e.sockets ==> e.sockets[x].sent == Given(events, x) && e.sockets[x].buffered == Waiting(c, events, x))
  }

  lemma SendExact(c: Config, s: Socket, message: string, buffer: bool)
    requires Orderly(c, s) && !s.isClosed
    ensures var t := SendTo(c, s, message, buffer); var kept := if Bytes(s.buffered) == "" then s.buffered else [];
      && t.sent == s.sent + [message]
      && t.buffered == (if c.timeout == 0 then [] else if !buffer then kept
                        else if |Bytes(s.buffered)| + |message| > c.maxSize then [] else s.buffered + [message])
  {
  }

  lemma SendsExact(c: Config, e: Endpoint, past: seq<Event>, event: Event, x: nat)
    requires Possible(e, event) && Exact(c, e, past, x) && Sound(c, e, x) && event.Sends?
    ensures Exact(c, Step(c, e, event), past + [event], x)
  {
    assert (past + [event])[..|past|] == past;
    if event.x == x && !e.sockets[x].isClosed { SendExact(c, e.sockets[x], event.message, event.buffer); }
  }

  lemma TimerExact(c: Config, e: Endpoint, past: seq<Event>, event: Event, x: nat)
    requires Possible(e, event) && Exact(c, e, past, x) && Sound(c, e, x) && event.TimerFires?
    ensures Exact(c, Step(c, e, event), past + [event], x)
  {
    assert (past + [event])[..|past|] == past;
    FlushAllFlushes(e.sockets, event.order, x);
    assert x in event.order <==> x in (set z | z in event.order);
    if x in e.sockets { FlushedOrNot(c, e, x); }
  }

  lemma StepExact(c: Config, e: Endpoint, past: seq<Event>, event: Event, x: nat)
    requires Possible(e, event) && Exact(c, e, past, x) && Sound(c, e, x)
    ensures Exact(c, Step(c, e, event), past + [event], x)
  {
    match event
    case Opens(y) => assert (past + [event])[..|past|] == past;
    case Sends(_, _, _) => SendsExact(c, e, past, event, x);
    case TimerFires(_) => TimerExact(c, e, past, event, x);
    case Closes(y) => assert (past + [event])[..|past|] == past;
  }

  lemma FlushedOrNot(c: Config, e: Endpoint, x: nat)
    requires Sound(c, e, x) && x in e.sockets
    ensures var s := e.sockets[x];
      && Flush(s).sent == s.sent && Flush(s).isClosed == s.isClosed
      && Flush(s).buffered == (if Bytes(s.buffered) == "" then s.buffered else [])
      && (!s.isClosed && Bytes(s.buffered) != "" ==> x in e.scheduled)
      && (s.isClosed ==> x !in e.scheduled)
  {
  }

  /** In every run: what a socket has sent are the messages given to it while it was open; and what waits in its
      buffer is exactly what came since the last message that could not wait, the last overflow, or the last
      time the timer fired. So nothing that can wait is written earlier, and nothing else is held back. */
  lemma {:induction false} WaitsNoLonger(c: Config, events: seq<Event>, x: nat)
    requires Run(c, events).Some?
    ensures var e := Run(c, events).value;
      && (x in e.sockets ==> e.sockets[x].sent == Given(events, x) && e.sockets[x].buffered == Waiting(c, events, x))
      && Exact(c, e, events, x)
    decreases |events|
  {
    if events != [] {
      var past := events[..|events| - 1];
      WaitsNoLonger(c, past, x);
      BufferIsFifo(c, past, x);
      StepExact(c, Run(c, past).value, past, events[|events| - 1], x);
      assert past + [events[|events| - 1]] == events;
    }
  }
}
