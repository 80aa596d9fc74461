/** Buffered sending: messages that can wait are collected per socket and written when the buffer is
    full, when a message that cannot wait is sent, or when the endpoint's flush timer fires. */
module SocketBuffer {
  import opened Common

  /** `sent` is everything that was sent while the socket was open, `written` what went to the network. */
  datatype Socket = Socket(buffered: seq<string>, byteSize: nat, isClosed: bool, written: seq<string>, sent: seq<string>)

  const FRESH := Socket([], 0, false, [], [])

  /** `timeout`: outgoingBufferTimeout; `maxSize`: maxBufferByteSize. */
  datatype Config = Config(timeout: nat, maxSize: nat)

  function Flush(s: Socket): Socket {
    if s.byteSize != 0 then s.(written := s.written + s.buffered, byteSize := 0, buffered := []) else s
  }

  function Write(s: Socket, message: string): Socket {
    s.(written := s.written + [message])
  }

  function Push(s: Socket, message: string): Socket {
    s.(buffered := s.buffered + [message], byteSize := s.byteSize + |message|)
  }

  /** `sendBuiltMessage`, as far as the socket is concerned. */
  function SendTo(c: Config, s: Socket, message: string, buffer: bool): Socket {
    if s.isClosed then s
    else
      var t := s.(sent := s.sent + [message]);
      if c.timeout == 0 then Write(t, message)
      else if !buffer then Write(Flush(t), message)
      else if s.byteSize + |message| > c.maxSize then Flush(Push(t, message))
      else Push(t, message)
  }

  /** Whether the call asks the endpoint for a flush. */
  predicate Schedules(c: Config, s: Socket, message: string, buffer: bool) {
    !s.isClosed && c.timeout != 0 && buffer && s.byteSize + |message| <= c.maxSize
  }

  /** The endpoint: its sockets, those scheduled for a flush, and whether the flush timer is pending. */
  datatype Endpoint = Endpoint(sockets: map<nat, Socket>, scheduled: set<nat>, timer: bool)

  const IDLE := Endpoint(map[], {}, false)

  function FlushAll(sockets: map<nat, Socket>, order: seq<nat>): map<nat, Socket>
    decreases |order|
  {
    if order == [] then sockets
    else
      var x := order[|order| - 1];
      var before := FlushAll(sockets, order[..|order| - 1]);
      if x in before then before[x := Flush(before[x])] else before
  }

  datatype Event = Opens(x: nat) | Sends(x: nat, message: string, buffer: bool) | TimerFires(order: seq<nat>) | Closes(x: nat)

  predicate Possible(e: Endpoint, event: Event) {
    match event
    case Opens(x) => x !in e.sockets
    case Sends(x, _, _) => x in e.sockets
    case TimerFires(order) => e.timer && (set x | x in order) == e.scheduled
    case Closes(x) => x in e.sockets
  }

  function Step(c: Config, e: Endpoint, event: Event): Endpoint
    requires Possible(e, event)
  {
    match event
    case Opens(x) => e.(sockets := e.sockets[x := FRESH])
    case Sends(x, message, buffer) =>
      var t := e.(sockets := e.sockets[x := SendTo(c, e.sockets[x], message, buffer)]);
      if Schedules(c, e.sockets[x], message, buffer) then t.(scheduled := e.scheduled + {x}, timer := true) else t
    case TimerFires(order) => Endpoint(FlushAll(e.sockets, order), {}, false)
    case Closes(x) => e.(sockets := e.sockets[x := e.sockets[x].(isClosed := true)], scheduled := e.scheduled - {x})
  }

  function Run(c: Config, events: seq<Event>): Option<Endpoint>
    decreases |events|
  {
    if events == [] then Some(IDLE)
    else
      var before := Run(c, events[..|events| - 1]);
      var event := events[|events| - 1];
      if before.Some? && Possible(before.value, event) then Some(Step(c, before.value, event)) else None
  }

  // ---------- What every run keeps ----------

  /** The bytes of messages one after the other. */
  function Bytes(messages: seq<string>): string
    decreases |messages|
  {
    if messages == [] then "" else Bytes(messages[..|messages| - 1]) + messages[|messages| - 1]
  }

  lemma BytesSnoc(messages: seq<string>, m: string)
    ensures Bytes(messages + [m]) == Bytes(messages) + m
  {
    assert (messages + [m])[..|messages|] == messages;
  }

  lemma {:induction false} BytesConcat(a: seq<string>, b: seq<string>)
    ensures Bytes(a + b) == Bytes(a) + Bytes(b)
    decreases |b|
  {
    if b == [] {
      assert a + b == a;
    } else {
      BytesConcat(a, b[..|b| - 1]);
      assert (a + b)[..|a + b| - 1] == a + b[..|b| - 1];
    }
  }

  predicate NoneEmpty(messages: seq<string>) {
    forall i :: 0 <= i < |messages| ==> messages[i] != ""
  }

  /** No byte is lost, doubled or overtaken, and the counter is right; and with messages that are not
      empty the same is true message by message. */
  predicate Tracked(s: Socket) {
    && Bytes(s.written) + Bytes(s.buffered) == Bytes(s.sent)
    && s.byteSize == |Bytes(s.buffered)|
    && (NoneEmpty(s.sent) ==> s.written + s.buffered == s.sent && NoneEmpty(s.buffered))
  }

  /** What holds of each socket between calls. */
  predicate Orderly(c: Config, s: Socket) {
    Tracked(s) && s.byteSize <= c.maxSize && (c.timeout == 0 ==> s.buffered == [])
  }

  /** Bytes in the buffer of an open socket will be flushed. */
  predicate Expected(e: Endpoint, x: nat) {
    && (x in e.scheduled ==> x in e.sockets && !e.sockets[x].isClosed && e.timer)
    && (x in e.sockets && !e.sockets[x].isClosed && e.sockets[x].byteSize != 0 ==> x in e.scheduled)
  }

  predicate Sound(c: Config, e: Endpoint, x: nat) {
    Expected(e, x) && (x in e.sockets ==> Orderly(c, e.sockets[x]))
  }

  lemma EmptyBytes(messages: seq<string>)
    requires NoneEmpty(messages) && Bytes(messages) == ""
    ensures messages == []
  {
    AllEmpty(messages);
  }

  lemma FlushTracked(s: Socket)
    requires Tracked(s)
    ensures Tracked(Flush(s)) && Flush(s).byteSize == 0 && Flush(s) == s.(written := Flush(s).written, buffered := Flush(s).buffered, byteSize := 0)
    ensures NoneEmpty(s.sent) ==> Flush(s).buffered == []
    ensures s.buffered == [] ==> Flush(s).buffered == []
  {
    BytesConcat(s.written, s.buffered);
    if NoneEmpty(s.sent) && s.byteSize == 0 {
      EmptyBytes(s.buffered);
    }
  }

  lemma NoneEmptySnoc(messages: seq<string>, m: string)
    ensures NoneEmpty(messages + [m]) <==> NoneEmpty(messages) && m != ""
  {
    var all := messages + [m];
    assert all[|messages|] == m;
    assert forall i :: 0 <= i < |messages| ==> all[i] == messages[i];
  }

  /** A message written at once, when no bytes wait. */
  lemma WriteTracked(s: Socket, message: string)
    requires Tracked(s) && s.byteSize == 0 && (NoneEmpty(s.sent) ==> s.buffered == [])
    ensures Tracked(Write(s, message).(sent := s.sent + [message]))
  {
    BytesSnoc(s.sent, message);
    BytesSnoc(s.written, message);
    NoneEmptySnoc(s.sent, message);
    if s.buffered == [] {
      assert s.written + [] == s.written;
      assert s.written + [message] + [] == s.written + [message];
    }
  }

  lemma PushTracked(s: Socket, message: string)
    requires Tracked(s)
    ensures Tracked(Push(s, message).(sent := s.sent + [message]))
  {
    BytesSnoc(s.sent, message);
    BytesSnoc(s.buffered, message);
    assert Bytes(s.written) + (Bytes(s.buffered) + message) == Bytes(s.written) + Bytes(s.buffered) + message;
    NoneEmptySnoc(s.sent, message);
    NoneEmptySnoc(s.buffered, message);
    assert s.written + (s.buffered + [message]) == s.written + s.buffered + [message];
  }

  lemma BufferOrderly(c: Config, s: Socket, message: string)
    requires Orderly(c, s) && !s.isClosed && c.timeout != 0
    ensures Orderly(c, SendTo(c, s, message, true))
  {
    PushTracked(s, message);
    FlushTracked(Push(s, message).(sent := s.sent + [message]));
  }

  lemma SendOrderly(c: Config, s: Socket, message: string, buffer: bool)
    requires Orderly(c, s)
    ensures Orderly(c, SendTo(c, s, message, buffer))
  {
    FlushTracked(s);
    if s.isClosed {
    } else if c.timeout == 0 {
      WriteTracked(s, message);
    } else if !buffer {
      WriteTracked(Flush(s), message);
    } else {
      BufferOrderly(c, s, message);
    }
  }

  lemma {:induction false} FlushAllFlushes(sockets: map<nat, Socket>, order: seq<nat>, x: nat)
    ensures var after := FlushAll(sockets, order);
      (x in after <==> x in sockets) && (x in sockets ==> after[x] == if x in order then Flush(sockets[x]) else sockets[x])
    decreases |order|
  {
    if order != [] {
      var before, last := order[..|order| - 1], order[|order| - 1];
      FlushAllFlushes(sockets, before, x);
      assert order == before + [last];
      if x in sockets && x == last && x in before {
        assert Flush(Flush(sockets[x])) == Flush(sockets[x]);
      }
    }
  }

  lemma StepKeeps(c: Config, e: Endpoint, event: Event, x: nat)
    requires Possible(e, event) && Sound(c, e, x)
    ensures Sound(c, Step(c, e, event), x)
  {
    match event
    case Opens(y) =>
    case Sends(y, message, buffer) =>
      if y == x { SendOrderly(c, e.sockets[x], message, buffer); }
    case TimerFires(order) =>
      FlushAllFlushes(e.sockets, order, x);
      if x in e.sockets {
        FlushTracked(e.sockets[x]);
        assert x in order <==> x in (set z | z in order);
      }
    case Closes(y) =>
  }

  /** In every run, for every socket: what was written followed by what is buffered is what was sent,
      byte by byte, and message by message if no message is empty; the counter is the size of the
      buffer and within the limit; and an open socket with bytes in its buffer is scheduled, with the
      timer pending. */
  lemma {:induction false} BufferIsFifo(c: Config, events: seq<Event>, x: nat)
    requires Run(c, events).Some?
    ensures Sound(c, Run(c, events).value, x)
    decreases |events|
  {
    if events != [] {
      BufferIsFifo(c, events[..|events| - 1], x);
      StepKeeps(c, Run(c, events[..|events| - 1]).value, events[|events| - 1], x);
    }
  }

  /** When the timer has fired, every byte sent to a socket that is open has been written. */
  lemma TimerWritesAll(c: Config, events: seq<Event>, order: seq<nat>, x: nat)
    requires Run(c, events).Some? && Possible(Run(c, events).value, TimerFires(order))
    requires x in Run(c, events).value.sockets && !Run(c, events).value.sockets[x].isClosed
    ensures var after := Step(c, Run(c, events).value, TimerFires(order)).sockets;
      x in after && var s := after[x];
      Bytes(s.written) == Bytes(s.sent) && (NoneEmpty(s.sent) ==> s.written == s.sent)
  {
    BufferIsFifo(c, events, x);
    var e := Run(c, events).value;
    FlushAllFlushes(e.sockets, order, x);
    FlushTracked(e.sockets[x]);
    assert x in order <==> x in (set z | z in order);
    var s := Step(c, e, TimerFires(order)).sockets[x];
    assert s.byteSize == 0 && Bytes(s.buffered) == "";
    if NoneEmpty(s.sent) { assert s.written + [] == s.written; }
  }

  /** With empty messages the messages can change places: one that cannot wait overtakes a buffer of
      empty ones, which `flush` takes for no buffer. Otherwise a send keeps the order. */
  lemma OvertakesIff(c: Config, s: Socket, message: string, buffer: bool)
    requires Orderly(c, s) && !s.isClosed && s.written + s.buffered == s.sent
    ensures var t := SendTo(c, s, message, buffer);
      t.written + t.buffered == t.sent <==> !(c.timeout != 0 && !buffer && s.byteSize == 0 && s.buffered != [] && message != "")
  {
    if c.timeout != 0 && !buffer && s.byteSize == 0 {
      NothingFlushed(c, s, message);
    } else if c.timeout == 0 {
      assert s.written + [] == s.written;
    } else {
      assert s.written + (s.buffered + [message]) == s.sent + [message];
    }
  }

  /** The message goes out before a buffer of empty ones. */
  lemma NothingFlushed(c: Config, s: Socket, message: string)
    requires Orderly(c, s) && !s.isClosed && s.written + s.buffered == s.sent && c.timeout != 0 && s.byteSize == 0
    ensures var t := SendTo(c, s, message, false);
      t.written + t.buffered == t.sent <==> s.buffered == [] || message == ""
  {
    AllEmpty(s.buffered);
    var t := SendTo(c, s, message, false);
    assert t.written + t.buffered == s.written + ([message] + s.buffered);
    assert t.sent == s.written + (s.buffered + [message]);
    SamePrefix(s.written, [message] + s.buffered, s.buffered + [message]);
    ExchangedIff(s.buffered, message);
  }

  lemma SamePrefix(prefix: seq<string>, a: seq<string>, b: seq<string>)
    ensures prefix + a == prefix + b <==> a == b
  {
    assert (prefix + a)[|prefix|..] == a && (prefix + b)[|prefix|..] == b;
  }

  lemma ExchangedIff(messages: seq<string>, message: string)
    requires forall i :: 0 <= i < |messages| ==> messages[i] == ""
    ensures [message] + messages == messages + [message] <==> messages == [] || message == ""
  {
    var a, b := [message] + messages, messages + [message];
    if messages != [] { assert a[0] == message && b[0] == messages[0]; }
    if message == "" { Rotate(messages); }
  }

  lemma Rotate(messages: seq<string>)
    requires forall i :: 0 <= i < |messages| ==> messages[i] == ""
    ensures [""] + messages == messages + [""]
  {
  }

  lemma {:induction false} AllEmpty(messages: seq<string>)
    requires Bytes(messages) == ""
    ensures forall i :: 0 <= i < |messages| ==> messages[i] == ""
    decreases |messages|
  {
    if messages != [] {
      AllEmpty(messages[..|messages| - 1]);
    }
  }
}
