/** The action texts as they are declared, and what the parser makes of them. */
module TextActions {
  import opened Common
  import opened Strings
  import opened TextProtocol

  /** Every action text a client can send, with its action. An action declared without a text stands under
      "undefined", the last one of its topic. */
  function Declared(topic: Topic): map<string, Action> {
    match topic
    case Event => map[
      "E" := Error, "EVT" := Emit, "S" := Subscribe, "US" := Unsubscribe, "L" := Listen, "UL" := Unlisten,
      "LA" := ListenAccept, "LR" := ListenReject, "SP" := PatternFound, "SR" := PatternRemoved, "undefined" := NotSubscribed]
    case Record => map[
      "E" := Error, "CR" := SubscribeCreateAndRead, "R" := Read, "HD" := Head, "CU" := CreateAndUpdate, "U" := Update,
      "P" := Patch, "WA" := WriteAcknowledgement, "D" := Delete, "S" := Subscribe, "US" := Unsubscribe, "L" := Listen,
      "UL" := Unlisten, "LA" := ListenAccept, "LR" := ListenReject, "SH" := HasProvider, "SP" := PatternFound,
      "SR" := PatternRemoved, "SN" := Read, "undefined" := NotSubscribed]
    case Rpc => map[
      "REQ" := Request, "RES" := Response, "REJ" := Reject, "E" := RequestError, "S" := Provide, "US" := Unprovide,
      "undefined" := NotProvided]
  }

  lemma TableIsDeclared(topic: Topic, text: string)
    ensures ActionOf(topic, text) == if text in Declared(topic) then Some(Declared(topic)[text]) else None
  {
  }

  /** The version of a message whose frame has none: a write's is no number, which is no missing version. */
  function Unversioned(topic: Topic, action: Option<Action>): Version {
    if topic == Record && IsWrite(action) then NotANumber else Absent
  }

  lemma PlainBody(c: Codec, topic: Topic, text: string, name: string)
    requires text != "A" && text != "E"
    ensures var read := ReadBody(c, [TopicText(topic), text, name], topic);
      if text in Declared(topic) then
        && read.Some? && read.value.topic == topic && read.value.action == Some(Declared(topic)[text]) && read.value.name == Some(name)
        && read.value.version == Unversioned(topic, read.value.action)
      else read.None?
  {
    TableIsDeclared(topic, text);
  }

  /** A frame with the topic, an action text and a name, and no flags, is understood exactly if the text is
      declared for the topic, and then as the declared action on that name. */
  lemma FrameIsUnderstoodIff(c: Codec, t: Tables, topic: Topic, text: string, name: string)
    requires Clean(text, PART_SEPARATOR) && Clean(name, PART_SEPARATOR) && text != "A" && text != "E"
    ensures var read := ReadFrame(c, t, Join([TopicText(topic), text, name], PART_SEPARATOR));
      if text in Declared(topic) then
        && |read.1| == 1 && read.1[0].Parsed?
        && read.1[0].message.topic == topic && read.1[0].message.action == Some(Declared(topic)[text])
        && read.1[0].message.name == Some(name)
        && read.1[0].message.version == Unversioned(topic, read.1[0].message.action)
      else read == (t, [])
  {
    var parts := [TopicText(topic), text, name];
    var frame := Join(parts, PART_SEPARATOR);
    SplitOfJoin(parts, PART_SEPARATOR);
    FrameIsLong(topic, text, name);
    PlainBody(c, topic, text, name);
    FrameIsBody(c, t, parts, topic);
    if text in Declared(topic) { DeliverKeeps(c, t, ReadBody(c, parts, topic).value); }
  }

  lemma FrameIsBody(c: Codec, t: Tables, parts: seq<string>, topic: Topic)
    requires parts != [] && parts[0] == TopicText(topic)
    requires Split(Join(parts, PART_SEPARATOR), PART_SEPARATOR) == parts && |Join(parts, PART_SEPARATOR)| >= 3
    ensures ReadFrame(c, t, Join(parts, PART_SEPARATOR)) == Deliver(c, t, ReadBody(c, parts, topic))
  {
  }

  lemma DeliverKeeps(c: Codec, t: Tables, m: Message)
    ensures var read := Deliver(c, t, Some(m)).1;
      && |read| == 1 && read[0].Parsed?
      && read[0].message.topic == m.topic && read[0].message.action == m.action && read[0].message.name == m.name
      && read[0].message.version == m.version
  {
  }

  lemma FrameIsLong(topic: Topic, text: string, name: string)
    ensures |Join([TopicText(topic), text, name], PART_SEPARATOR)| >= 3
  {
    var parts := [TopicText(topic), text, name];
    assert parts[1..] == [text, name] && [text, name][1..] == [name];
  }

  /** The error texts that have an action of their own. */
  const RECORD_ERRORS := map[
    "VERSION_EXISTS" := VersionExists, "CACHE_RETRIEVAL_TIMEOUT" := CacheRetrievalTimeout,
    "STORAGE_RETRIEVAL_TIMEOUT" := StorageRetrievalTimeout]

  /** What an error text stands for: for records one of the three, else what it stands for without the error
      flag; for events that; for calls always a failed request. */
  function ErrorAction(topic: Topic, text: string): Option<Action> {
    if topic == Rpc then Some(RequestError)
    else if topic == Record && text in RECORD_ERRORS then Some(RECORD_ERRORS[text])
    else if text in Declared(topic) then Some(Declared(topic)[text])
    else None
  }

  lemma ErrorBody(c: Codec, topic: Topic, text: string, name: string, id: string)
    ensures var read := ReadBody(c, [TopicText(topic), "E", text, name, id], topic);
      && (read.None? <==> topic == Event && text !in Declared(Event))
      && (read.Some? ==>
            && read.value.action == ErrorAction(topic, text) && read.value.name == Some(name) && read.value.topic == topic
            && read.value.isErr == (topic == Event)
            && (topic == Rpc ==> read.value.correlationId == Some(id) && read.value.data == Some(c.stringify(Text(text)))))
  {
    TableIsDeclared(topic, text);
  }

  /** An error frame is understood unless it is an event's with a text that is not declared, and then as the action
      of its text; the error of a call keeps the correlation id. */
  lemma ErrorIsUnderstoodIff(c: Codec, t: Tables, topic: Topic, text: string, name: string, id: string)
    requires Clean(text, PART_SEPARATOR) && Clean(name, PART_SEPARATOR) && Clean(id, PART_SEPARATOR)
    ensures var read := ReadFrame(c, t, Join([TopicText(topic), "E", text, name, id], PART_SEPARATOR));
      if topic == Event && text !in Declared(Event) then read == (t, [])
      else
        && |read.1| == 1 && read.1[0].Parsed?
        && read.1[0].message.topic == topic && read.1[0].message.action == ErrorAction(topic, text)
        && read.1[0].message.name == Some(name)
  {
    var parts := [TopicText(topic), "E", text, name, id];
    SplitOfJoin(parts, PART_SEPARATOR);
    ErrorIsLong(topic, parts[2..]);
    assert parts == [TopicText(topic), "E"] + parts[2..];
    ErrorBody(c, topic, text, name, id);
    FrameIsBody(c, t, parts, topic);
    if ReadBody(c, parts, topic).Some? { DeliverKeeps(c, t, ReadBody(c, parts, topic).value); }
  }

  lemma ErrorIsLong(topic: Topic, rest: seq<string>)
    requires rest != []
    ensures |Join([TopicText(topic), "E"] + rest, PART_SEPARATOR)| >= 3
  {
    var parts := [TopicText(topic), "E"] + rest;
    assert parts[1..] == ["E"] + rest && parts[1..][1..] == rest;
  }

  const TYPE_LETTERS := {'S', 'O', 'N', 'L', 'T', 'F', 'U'}

  /** A typed payload is an error exactly if it is empty, begins with no type letter, or is an object whose text
      does not parse; the text null is the value null. */
  lemma TypedFailsIff(c: Codec, text: string)
    ensures ConvertTyped(c, text).None? <==>
            text != "null" && (text == "" || text[0] !in TYPE_LETTERS || (text[0] == 'O' && c.parse(text[1..]).None?))
    ensures text == "null" ==> ConvertTyped(c, text) == Some(Null)
  {
  }
}
