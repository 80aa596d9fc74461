/** The text protocol: the builder that prints messages as frames, and the parser that reads the
    concatenation of frames back. The events, record and RPC topics are modelled. */
module TextProtocol {
  import opened Common
  import opened Strings

  const MESSAGE_SEPARATOR := 30 as char
  const PART_SEPARATOR := 31 as char
  const WRITE_CONFIG := "{\"writeSuccess\":true}"

  datatype Topic = Event | Record | Rpc

  datatype Action =
    | Error | Emit | Subscribe | Unsubscribe | Listen | Unlisten | ListenAccept | ListenReject
    | PatternFound | PatternRemoved | NotSubscribed
    | Read | Head | CreateAndUpdate | CreateAndPatch | Update | Patch | Erase | WriteAcknowledgement | Delete
    | SubscribeCreateAndRead | HasProvider | HasNoProvider | CacheRetrievalTimeout | StorageRetrievalTimeout | VersionExists
    | Request | Accept | Response | Reject | RequestError | Provide | Unprovide | NotProvided

  datatype Version = Absent | NotANumber | Exactly(n: int)

  /** `None` is JavaScript's undefined. A parsed message's list of names holds its name alone. */
  datatype Message = Message(
    topic: Topic, action: Option<Action>, isAck: bool, isErr: bool, name: Option<string>, data: Option<string>,
    parsedData: Option<Json>, correlationId: Option<string>, subscription: Option<string>, path: Option<string>,
    version: Version, isWriteAck: bool)

  /** `Foreign`: a frame of a topic that is not modelled. */
  datatype Item = Parsed(message: Message) | Foreign(frame: string)

  /** Conversions that belong to JavaScript, and the source of unique ids: the n-th id drawn.
      `toNumber` is what `text * 1` gives for text that is no decimal integer. */
  datatype Codec = Codec(
    stringify: Json -> string, parse: string -> Option<Json>, showNumber: real -> string, parseFloat: string -> real,
    toNumber: string -> Version, uid: nat -> string)

  /** The module-level maps of the parser. `drawn` counts the ids drawn so far. */
  datatype Tables = Tables(versions: map<string, Version>, names: map<string, Option<string>>, drawn: nat)

  // ---------- Action and topic tables ----------

  function TopicText(topic: Topic): string {
    match topic case Event => "E" case Record => "R" case Rpc => "P"
  }

  /** `ACTIONS_TEXT_TO_BYTE`. A missing action reads like the text "undefined", the key under which the
      derived table keeps the last action that has no text. */
  function ActionOf(topic: Topic, text: string): Option<Action> {
    match topic
    case Event => (
      match text
      case "E" => Some(Error) case "EVT" => Some(Emit) case "S" => Some(Subscribe) case "US" => Some(Unsubscribe)
      case "L" => Some(Listen) case "UL" => Some(Unlisten) case "LA" => Some(ListenAccept) case "LR" => Some(ListenReject)
      case "SP" => Some(PatternFound) case "SR" => Some(PatternRemoved) case "undefined" => Some(NotSubscribed)
      case _ => None)
    case Record => (
      match text
      case "E" => Some(Error) case "CR" => Some(SubscribeCreateAndRead) case "R" => Some(Read) case "HD" => Some(Head)
      case "CU" => Some(CreateAndUpdate) case "U" => Some(Update) case "P" => Some(Patch) case "WA" => Some(WriteAcknowledgement)
      case "D" => Some(Delete) case "S" => Some(Subscribe) case "US" => Some(Unsubscribe) case "L" => Some(Listen)
      case "UL" => Some(Unlisten) case "LA" => Some(ListenAccept) case "LR" => Some(ListenReject) case "SH" => Some(HasProvider)
      case "SP" => Some(PatternFound) case "SR" => Some(PatternRemoved) case "SN" => Some(Read)
      case "undefined" => Some(NotSubscribed) case _ => None)
    case Rpc => (
      match text
      case "REQ" => Some(Request) case "RES" => Some(Response) case "REJ" => Some(Reject) case "E" => Some(RequestError)
      case "S" => Some(Provide) case "US" => Some(Unprovide) case "undefined" => Some(NotProvided) case _ => None)
  }

  /** Payloads that carry their type as a first letter; all others are JSON. */
  predicate IsTyped(topic: Topic, action: Option<Action>) {
    match topic
    case Event => action == Some(Emit)
    case Record => action == Some(Patch) || action == Some(CreateAndPatch) || action == Some(Erase)
    case Rpc => action == Some(Request) || action == Some(Response) || action == Some(RequestError)
  }

  // ---------- Typed values ----------

  function Typed(c: Codec, value: Json): string {
    match value
    case Text(s) => "S" + s
    case Null => "L"
    case Node(_, _) => "O" + c.stringify(value)
    case Number(n) => "N" + c.showNumber(n)
    case Bool(b) => if b then "T" else "F"
    case Undefined => "U"
  }

  /** `None`: an `Error`. */
  function ConvertTyped(c: Codec, text: string): Option<Json> {
    if text == "null" then Some(Null)
    else if text == "" then None
    else
      match text[0]
      case 'S' => Some(Text(text[1..]))
      case 'O' =>
        var result := c.parse(text[1..]);
        if result.None? then None else if Truthy(result.value) then result else Some(Undefined)
      case 'N' => Some(Number(c.parseFloat(text[1..])))
      case 'L' => Some(Null)
      case 'T' => Some(Bool(true))
      case 'F' => Some(Bool(false))
      case 'U' => Some(Undefined)
      case _ => None
  }

  // ---------- The builder ----------

  function Show(o: Option<string>): string {
    if o.Some? then o.value else "undefined"
  }

  function ShowVersion(v: Version): string {
    match v case Absent => "undefined" case NotANumber => "null" case Exactly(n) => Print(n)
  }

  predicate Blank(data: Option<string>) {
    data == None || data == Some("")
  }

  predicate HasValue(m: Message) {
    m.parsedData.Some? && Truthy(m.parsedData.value)
  }

  predicate NeedsData(topic: Topic, action: Option<Action>) {
    || (topic == Rpc && (action == Some(Response) || action == Some(Request)))
    || (topic == Record && (action == Some(Patch) || action == Some(Erase)))
  }

  /** What `getMessage` does to `message.data`; `None` when it throws. */
  function WithData(c: Codec, m: Message): Option<Message> {
    if !HasValue(m) && Blank(m.data) && NeedsData(m.topic, m.action) then Some(m.(data := Some("U")))
    else if HasValue(m) then
      Some(m.(data := Some(if IsTyped(m.topic, m.action) then Typed(c, m.parsedData.value) else c.stringify(m.parsedData.value))))
    else if !Blank(m.data) && IsTyped(m.topic, m.action) then
      var v := c.parse(m.data.value);
      if v.Some? then Some(m.(data := Some(Typed(c, v.value)))) else None
    else Some(m)
  }

  /** The parts that the builders for frames without an acknowledgement flag put together; `None`
      where there is no such builder. */
  function Parts(m: Message): Option<seq<string>>
    requires m.action.Some?
  {
    var topic, name, version, data, path := TopicText(m.topic), Show(m.name), ShowVersion(m.version), Show(m.data), Show(m.path);
    var subscription, id := Show(m.subscription), Show(m.correlationId);
    match (m.topic, m.action.value)
    case (Event, Subscribe) => Some(["E", "S", name])
    case (Event, Unsubscribe) => Some(["E", "US", name])
    case (Event, Emit) => Some(["E", "EVT", name, if Blank(m.data) then "U" else data])
    case (Record, Head) => Some(["R", "HD", name])
    case (Record, Read) => Some(["R", "R", name])
    case (Record, Update) => Some(if m.isWriteAck then ["R", "U", name, version, data, WRITE_CONFIG] else ["R", "U", name, version, data])
    case (Record, Patch) =>
      Some(if m.isWriteAck then ["R", "P", name, version, path, data, WRITE_CONFIG] else ["R", "P", name, version, path, data])
    case (Record, Erase) =>
      Some(if m.isWriteAck then ["R", "P", name, version, path, "U", WRITE_CONFIG] else ["R", "P", name, version, path, "U"])
    case (Record, CreateAndUpdate) => Some(["R", "CU", name, version, data, if m.isWriteAck then WRITE_CONFIG else "{}"])
    case (Record, CreateAndPatch) => Some(["R", "CU", name, version, path, data, if m.isWriteAck then WRITE_CONFIG else "{}"])
    case (Record, Delete) => Some(["R", "D", name])
    case (Record, SubscribeCreateAndRead) => Some(["R", "CR", name])
    case (Record, Unsubscribe) => Some(["R", "US", name])
    case (Record, HasProvider) => Some(["R", "SH", name, "T"])
    case (Record, HasNoProvider) => Some(["R", "SH", name, "F"])
    case (Record, VersionExists) =>
      Some(if m.isWriteAck then ["R", "E", "VERSION_EXISTS", name, version, data, WRITE_CONFIG]
           else ["R", "E", "VERSION_EXISTS", name, version, data])
    case (Rpc, Provide) => Some(["P", "S", name])
    case (Rpc, Unprovide) => Some(["P", "US", name])
    case (Rpc, Request) => Some(["P", "REQ", name, id, data])
    case (Rpc, Response) => Some(["P", "RES", name, id, data])
    case (Rpc, Reject) => Some(["P", "REJ", name, id])
    case (Rpc, Accept) => Some(["P", "A", "REQ", name, id])
    case (Rpc, _) => None
    case (_, Listen) => Some([topic, "L", name])
    case (_, Unlisten) => Some([topic, "UL", name])
    case (_, ListenAccept) => Some([topic, "LA", name, subscription])
    case (_, ListenReject) => Some([topic, "LR", name, subscription])
    case (_, PatternFound) => Some([topic, "SP", name, subscription])
    case (_, PatternRemoved) => Some([topic, "SR", name, subscription])
    case _ => None
  }

  /** `getMessage` for a frame without an acknowledgement flag, less the separator that ends it. */
  function Frame(c: Codec, m: Message): Option<string> {
    var built := WithData(c, m);
    if built.None? || built.value.action.None? then None
    else
      var parts := Parts(built.value);
      if parts == None || parts.value == [] then None else Some(Join(parts.value, PART_SEPARATOR))
  }

  /** The write acknowledgement of a record, and the acknowledgement of a subscription or provision:
      the parser's tables supply what the message does not carry. */
  function WriteAckParts(t: Tables, m: Message): Option<seq<string>> {
    if m.correlationId.Some? && m.correlationId.value in t.versions && t.versions[m.correlationId.value].Exactly? then
      Some(["R", "WA", Show(m.name), "[" + ShowVersion(t.versions[m.correlationId.value]) + "]", "L"])
    else None
  }

  function AckedName(t: Tables, m: Message): Option<string> {
    if m.correlationId.Some? && m.correlationId.value in t.names then t.names[m.correlationId.value] else None
  }

  // ---------- The parser ----------

  function Part(parts: seq<string>, i: nat): Option<string> {
    if i < |parts| then Some(parts[i]) else None
  }

  function ToVersion(c: Codec, text: Option<string>): Version {
    if text.None? then NotANumber else if IsInteger(text.value) then Exactly(Value(text.value)) else c.toNumber(text.value)
  }

  predicate IsSubscriptionAction(action: Option<Action>) {
    action == Some(ListenAccept) || action == Some(ListenReject) || action == Some(PatternFound) || action == Some(PatternRemoved)
  }

  predicate IsWrite(action: Option<Action>) {
    action == Some(CreateAndUpdate) || action == Some(Update) || action == Some(Patch)
  }

  function ReadRecord(c: Codec, parts: seq<string>, m: Message, rawAction: Option<string>, index: nat): Message
    requires parts != []
  {
    if m.isErr then
      var n := m.(isErr := false);
      if rawAction == Some("VERSION_EXISTS") then
        n.(action := Some(VersionExists), version := ToVersion(c, Part(parts, index)), data := Part(parts, index + 1),
           isWriteAck := |parts| - (index + 2) > 1)
      else if rawAction == Some("CACHE_RETRIEVAL_TIMEOUT") then n.(action := Some(CacheRetrievalTimeout))
      else if rawAction == Some("STORAGE_RETRIEVAL_TIMEOUT") then n.(action := Some(StorageRetrievalTimeout))
      else n
    else if IsWrite(m.action) then
      var n := m.(isWriteAck := parts[|parts| - 1] == WRITE_CONFIG, version := ToVersion(c, Part(parts, index)),
                  action := if m.action == Some(CreateAndUpdate) && |parts| == 7 then Some(CreateAndPatch) else m.action);
      var hasPath := n.action == Some(CreateAndPatch) || n.action == Some(Patch);
      var at := if hasPath then index + 2 else index + 1;
      n.(path := if hasPath then Part(parts, index + 1) else n.path,
         data := if |parts| == at + 2 then Some(parts[|parts| - 2]) else Part(parts, at))
    else if IsSubscriptionAction(m.action) then m.(subscription := Part(parts, index))
    else if m.action == Some(HasProvider) && Part(parts, index) == Some("F") then m.(action := Some(HasNoProvider))
    else m
  }

  function ReadEvent(parts: seq<string>, m: Message, index: nat): Message {
    if IsSubscriptionAction(m.action) then m.(subscription := Part(parts, index))
    else if m.action == Some(Emit) then m.(data := Part(parts, index))
    else m
  }

  function ReadRpc(c: Codec, parts: seq<string>, m: Message, rawAction: Option<string>, index: nat): Message {
    var accepted := if m.isAck && m.action == Some(Request) then m.(isAck := false, action := Some(Accept)) else m;
    var n := if m.isErr then
               accepted.(isErr := false, action := Some(RequestError), data := if rawAction.Some? then Some(c.stringify(Text(rawAction.value))) else None)
             else accepted;
    if n.action == Some(Provide) || n.action == Some(Unprovide) then n
    else if n.action == Some(Response) || n.action == Some(Request) then
      n.(correlationId := Part(parts, index), data := Part(parts, index + 1))
    else n.(correlationId := Part(parts, index))
  }

  /** A message without a correlation id is given the next unique one, under which its version or its
      name is kept for the acknowledgement. */
  function Register(c: Codec, t: Tables, m: Message): (Tables, Message) {
    if !Blank(m.correlationId) then (t, m)
    else
      var id := c.uid(t.drawn);
      var next := if m.version != Absent then t.(versions := t.versions[id := m.version]) else t.(names := t.names[id := m.name]);
      (next.(drawn := t.drawn + 1), m.(correlationId := Some(id)))
  }

  /** `parseData`, called on a message without a parsed payload; its errors go unnoticed here. */
  function ParseData(c: Codec, m: Message): Message {
    if Blank(m.data) then m
    else if IsTyped(m.topic, m.action) then
      var v := ConvertTyped(c, m.data.value);
      if v.None? then m
      else if v.value.Undefined? then m.(data := None)
      else m.(parsedData := v, data := Some(c.stringify(v.value)))
    else
      m.(parsedData := c.parse(m.data.value))
  }

  function Deliver(c: Codec, t: Tables, m: Option<Message>): (Tables, seq<Item>) {
    if m.None? then (t, [])
    else
      var registered := Register(c, t, m.value);
      (registered.0, [Parsed(ParseData(c, registered.1))])
  }

  function TopicOf(text: string): Option<Topic> {
    if text == "E" then Some(Event) else if text == "R" then Some(Record) else if text == "P" then Some(Rpc) else None
  }

  predicate IsForeign(topic: string) {
    topic == "C" || topic == "A" || topic == "U" || topic == "X"
  }

  function ReadBody(c: Codec, parts: seq<string>, topic: Topic): Option<Message>
    requires parts != []
  {
    var isAck := Part(parts, 1) == Some("A");
    var afterAck := if isAck then 2 else 1;
    var isErr := Part(parts, afterAck) == Some("E");
    var at := if isErr then afterAck + 1 else afterAck;
    var rawAction := Part(parts, at);
    var action := ActionOf(topic, Show(rawAction));
    if action.None? && (!isErr || topic == Event) then None
    else
      var m := Message(topic, action, isAck, isErr, Part(parts, at + 1), None, None, None, None, None, Absent, false);
      match topic
      case Record => Some(ReadRecord(c, parts, m, rawAction, at + 2))
      case Event => Some(ReadEvent(parts, m, at + 2))
      case Rpc => Some(ReadRpc(c, parts, m, rawAction, at + 2))
  }

  /** One frame: nothing if it is too short or not understood. */
  function ReadFrame(c: Codec, t: Tables, frame: string): (Tables, seq<Item>) {
    if |frame| < 3 then (t, [])
    else
      var parts := Split(frame, PART_SEPARATOR);
      var topic := TopicOf(parts[0]);
      if topic.None? then (t, if IsForeign(parts[0]) then [Foreign(frame)] else [])
      else
        Deliver(c, t, ReadBody(c, parts, topic.value))
  }

  function ReadFrames(c: Codec, t: Tables, frames: seq<string>): (Tables, seq<Item>)
    decreases |frames|
  {
    if frames == [] then (t, [])
    else
      var first := ReadFrame(c, t, frames[0]);
      var rest := ReadFrames(c, first.0, frames[1..]);
      (rest.0, first.1 + rest.1)
  }

  function Parse(c: Codec, t: Tables, raw: string): (Tables, seq<Item>) {
    ReadFrames(c, t, Split(raw, MESSAGE_SEPARATOR))
  }
}
