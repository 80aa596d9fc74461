/** The text parser with its module-level maps, as an object: `parse` is proved against the functions
    in `TextProtocol`. */
module TextParsing {
  import opened Common
  import opened Strings
  import P = TextProtocol

  class TextParser {
    const codec: P.Codec
    var correlationIdToVersion: map<string, P.Version>
    var bulkNameToCorrelationId: map<string, Option<string>>
    var drawn: nat

    constructor (codec: P.Codec)
      ensures this.codec == codec && Model() == P.Tables(map[], map[], 0)
    {
      this.codec, correlationIdToVersion, bulkNameToCorrelationId, drawn := codec, map[], map[], 0;
    }

    function Model(): P.Tables
      reads this
    {
      P.Tables(correlationIdToVersion, bulkNameToCorrelationId, drawn)
    }

    method Parse(rawMessage: string) returns (parsedMessages: seq<P.Item>)
      modifies this
      ensures (Model(), parsedMessages) == P.Parse(codec, old(Model()), rawMessage)
    {
      var rawMessages := Split(rawMessage, P.MESSAGE_SEPARATOR);
      parsedMessages := [];
      var i := 0;
      ghost var all := P.ReadFrames(codec, Model(), rawMessages);
      assert rawMessages[i..] == rawMessages && parsedMessages + all.1 == all.1;
      while i < |rawMessages|
        invariant 0 <= i <= |rawMessages|
        invariant P.ReadFrames(codec, Model(), rawMessages[i..]).0 == all.0
        invariant parsedMessages + P.ReadFrames(codec, Model(), rawMessages[i..]).1 == all.1
      {
        assert rawMessages[i..][1..] == rawMessages[i + 1..];
        ghost var before := Model();
        var more := ParseFrame(rawMessages[i]);
        ghost var rest := P.ReadFrames(codec, Model(), rawMessages[i + 1..]);
        assert P.ReadFrames(codec, before, rawMessages[i..]) == (rest.0, more + rest.1);
        Assoc(parsedMessages, more, rest.1);
        parsedMessages := parsedMessages + more;
        i := i + 1;
      }
      assert rawMessages[i..] == [] && parsedMessages + [] == parsedMessages;
    }

    lemma Assoc(a: seq<P.Item>, b: seq<P.Item>, c: seq<P.Item>)
      ensures a + (b + c) == a + b + c
    {
    }

    /** `index` moves over the parts of the frame. */
    method ParseFrame(frame: string) returns (items: seq<P.Item>)
      modifies this
      ensures (Model(), items) == P.ReadFrame(codec, old(Model()), frame)
    {
      if |frame| < 3 {
        return [];
      }
      var parts := Split(frame, P.PART_SEPARATOR);
      var topic := P.TopicOf(parts[0]);
      if topic.None? {
        return if P.IsForeign(parts[0]) then [P.Foreign(frame)] else [];
      }
      var message := ReadMessage(parts, topic.value);
      if message.None? {
        return [];
      }
      var registered := Register(message.value);
      return [P.Parsed(P.ParseData(codec, registered))];
    }

    method ReadMessage(parts: seq<string>, topic: P.Topic) returns (r: Option<P.Message>)
      requires parts != []
      ensures r == P.ReadBody(codec, parts, topic)
    {
      var index: nat := 1;
      var isAck, isErr := false, false;
      if P.Part(parts, index) == Some("A") {
        isAck := true;
        index := index + 1;
      }
      if P.Part(parts, index) == Some("E") {
        isErr := true;
        index := index + 1;
      }
      var rawAction := P.Part(parts, index);
      index := index + 1;
      var action := P.ActionOf(topic, P.Show(rawAction));
      if action.None? && !(isErr && topic == P.Rpc) && !(isErr && topic == P.Record) {
        return None;
      }
      var name := P.Part(parts, index);
      index := index + 1;
      var m := P.Message(topic, action, isAck, isErr, name, None, None, None, None, None, P.Absent, false);
      match topic {
        case Record =>
          m := ReadRecord(parts, m, rawAction, index);
          return Some(m);
        case Event => return Some(P.ReadEvent(parts, m, index));
        case Rpc => return Some(P.ReadRpc(codec, parts, m, rawAction, index));
      }
    }

    method ReadRecord(parts: seq<string>, m0: P.Message, rawAction: Option<string>, index0: nat) returns (m: P.Message)
      requires parts != []
      ensures m == P.ReadRecord(codec, parts, m0, rawAction, index0)
    {
      var index := index0;
      m := m0;
      if m.isErr {
        m := m.(isErr := false);
        if rawAction == Some("VERSION_EXISTS") {
          m := m.(action := Some(P.VersionExists), version := P.ToVersion(codec, P.Part(parts, index)));
          index := index + 1;
          m := m.(data := P.Part(parts, index));
          index := index + 1;
          m := m.(isWriteAck := |parts| - index > 1);
        } else if rawAction == Some("CACHE_RETRIEVAL_TIMEOUT") {
          m := m.(action := Some(P.CacheRetrievalTimeout));
        } else if rawAction == Some("STORAGE_RETRIEVAL_TIMEOUT") {
          m := m.(action := Some(P.StorageRetrievalTimeout));
        }
      } else if P.IsWrite(m.action) {
        m := m.(isWriteAck := parts[|parts| - 1] == P.WRITE_CONFIG, version := P.ToVersion(codec, P.Part(parts, index)));
        index := index + 1;
        if m.action == Some(P.CreateAndUpdate) && |parts| == 7 {
          m := m.(action := Some(P.CreateAndPatch));
        }
        if m.action == Some(P.CreateAndPatch) || m.action == Some(P.Patch) {
          m := m.(path := P.Part(parts, index));
          index := index + 1;
        }
        m := m.(data := if |parts| - index == 2 then Some(parts[|parts| - 2]) else P.Part(parts, index));
      } else if P.IsSubscriptionAction(m.action) {
        m := m.(subscription := P.Part(parts, index));
      } else if m.action == Some(P.HasProvider) && P.Part(parts, index) == Some("F") {
        m := m.(action := Some(P.HasNoProvider));
      }
    }

    method Register(m0: P.Message) returns (m: P.Message)
      modifies this
      ensures (Model(), m) == P.Register(codec, old(Model()), m0)
    {
      m := m0;
      if !P.Blank(m.correlationId) {
        return;
      }
      var id := codec.uid(drawn);
      drawn := drawn + 1;
      m := m.(correlationId := Some(id));
      if m.version != P.Absent {
        correlationIdToVersion := correlationIdToVersion[id := m.version];
      } else {
        bulkNameToCorrelationId := bulkNameToCorrelationId[id := m.name];
      }
    }
  }
}
