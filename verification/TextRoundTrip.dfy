/** The parser reads back what the builder printed. */
module TextRoundTrip {
  import opened Common
  import opened Strings
  import opened TextProtocol

  // ---------- Which messages ----------

  /** Contains neither separator. */
  predicate Fits(s: string) {
    Clean(s, MESSAGE_SEPARATOR) && Clean(s, PART_SEPARATOR)
  }

  predicate Given(o: Option<string>) {
    o.Some? && Fits(o.value)
  }

  predicate CarriesVersion(m: Message) {
    m.topic == Record && (IsWrite(m.action) || m.action == Some(Erase) || m.action == Some(CreateAndPatch) || m.action == Some(VersionExists))
  }

  predicate CarriesPath(m: Message) {
    m.topic == Record && (m.action == Some(Patch) || m.action == Some(Erase) || m.action == Some(CreateAndPatch))
  }

  predicate CarriesSubscription(m: Message) {
    m.topic != Rpc && IsSubscriptionAction(m.action)
  }

  predicate CarriesId(m: Message) {
    m.topic == Rpc && (m.action == Some(Request) || m.action == Some(Response) || m.action == Some(Accept) || m.action == Some(Reject))
  }

  predicate CarriesJson(m: Message) {
    m.topic == Record && (m.action == Some(Update) || m.action == Some(CreateAndUpdate) || m.action == Some(VersionExists))
  }

  predicate CarriesTyped(m: Message) {
    IsTyped(m.topic, m.action) && m.action != Some(Erase) && m.action != Some(RequestError)
  }

  /** The value a typed payload stands for: the parsed one, else what the text means, else none. */
  function Meaning(c: Codec, m: Message): Option<Json> {
    if HasValue(m) then m.parsedData else if Blank(m.data) then Some(Undefined) else c.parse(m.data.value)
  }

  function JsonText(c: Codec, m: Message): Option<string> {
    if HasValue(m) then Some(c.stringify(m.parsedData.value)) else m.data
  }

  /** JavaScript's conversions of this value are inverse to each other and print no separator. */
  predicate Survives(c: Codec, value: Json) {
    match value
    case Number(n) => c.parseFloat(c.showNumber(n)) == n && Fits(c.showNumber(n))
    case Node(_, _) => c.parse(c.stringify(value)) == Some(value) && Fits(c.stringify(value))
    case Text(s) => Fits(s)
    case _ => true
  }

  /** Text fields without separators, and the fields that the frame needs. */
  predicate Complete(c: Codec, m: Message) {
    && m.action.Some? && Parts(m).Some? && !m.isAck && !m.isErr && Given(m.name)
    && (CarriesVersion(m) ==> m.version.Exactly?)
    && (CarriesPath(m) ==> Given(m.path))
    && (CarriesSubscription(m) ==> Given(m.subscription))
    && (CarriesId(m) ==> Given(m.correlationId) && m.correlationId != Some(""))
    && (CarriesTyped(m) ==> Meaning(c, m).Some? && Survives(c, Meaning(c, m).value))
    && (CarriesJson(m) ==> Given(JsonText(c, m)))
    && (m.action == Some(Erase) ==> Blank(m.data) && !HasValue(m))
    && (m.action == Some(CreateAndPatch) ==> HasValue(m) || !Blank(m.data))
  }

  /** The two frames that say something else than was meant: an update without acknowledgement whose
      payload reads like the acknowledgement flag, and VERSION_EXISTS with the flag, which its reader
      does not see. */
  predicate Ambiguous(c: Codec, m: Message) {
    || (m.topic == Record && m.action == Some(Update) && !m.isWriteAck && JsonText(c, m) == Some(WRITE_CONFIG))
    || (m.topic == Record && m.action == Some(VersionExists) && m.isWriteAck)
  }

  /** The message as it arrives: the same fields as far as the frame carries them, an erase as a patch
      with nothing, and the payload as value and JSON text. */
  function Received(c: Codec, m: Message): Message {
    Message(
      m.topic, if m.action == Some(Erase) then Some(Patch) else m.action, false, false, m.name,
      if CarriesTyped(m) then TextOf(c, Meaning(c, m)) else if CarriesJson(m) then JsonText(c, m) else None,
      if CarriesTyped(m) then ValueOfPayload(Meaning(c, m))
      else if CarriesJson(m) && !Blank(JsonText(c, m)) then c.parse(JsonText(c, m).value) else None,
      if CarriesId(m) then m.correlationId else None,
      if CarriesSubscription(m) then m.subscription else None,
      if CarriesPath(m) then m.path else None,
      if CarriesVersion(m) then m.version else Absent,
      CarriesVersion(m) && m.isWriteAck)
  }

  function TextOf(c: Codec, value: Option<Json>): Option<string> {
    if value == None || value == Some(Undefined) then None else Some(c.stringify(value.value))
  }

  function ValueOfPayload(value: Option<Json>): Option<Json> {
    if value == Some(Undefined) then None else value
  }

  // ---------- One frame ----------

  lemma TypedConverts(c: Codec, value: Json)
    requires Survives(c, value)
    ensures ConvertTyped(c, Typed(c, value)) == Some(value)
    ensures Fits(Typed(c, value)) && Typed(c, value) != "" && Typed(c, value) != WRITE_CONFIG
  {
    var text := Typed(c, value);
    assert text[0] != 'n' && text[0] != '{';
    match value {
      case Text(s) => assert text[1..] == s;
      case Node(_, _) => assert text[1..] == c.stringify(value);
      case Number(n) => assert text[1..] == c.showNumber(n);
      case _ =>
    }
  }

  predicate AllFit(parts: seq<string>) {
    forall i :: 0 <= i < |parts| ==> Fits(parts[i])
  }

  /** What is between the separators comes out as the list that went in. */
  lemma FrameReads(c: Codec, t: Tables, parts: seq<string>, topic: Topic)
    requires |parts| >= 2 && AllFit(parts) && parts[0] == TopicText(topic) && |parts[1]| >= 1
    ensures var frame := Join(parts, PART_SEPARATOR);
      && Clean(frame, MESSAGE_SEPARATOR)
      && var m := ReadBody(c, parts, topic);
      && ReadFrame(c, t, frame) ==
         if m.None? then (t, [])
         else (Register(c, t, m.value).0, [Parsed(ParseData(c, Register(c, t, m.value).1))])
  {
    SplitOfJoin(parts, PART_SEPARATOR);
    CleanJoin(parts, PART_SEPARATOR, MESSAGE_SEPARATOR);
    assert |Join(parts, PART_SEPARATOR)| >= 3 by {
      assert |Join(parts[1..], PART_SEPARATOR)| >= 1;
    }
  }

  lemma VersionReads(c: Codec, v: Version)
    requires v.Exactly?
    ensures Fits(ShowVersion(v)) && ToVersion(c, Some(ShowVersion(v))) == v
  {
    ValueOfPrint(v.n);
    assert !IsDigit(MESSAGE_SEPARATOR) && !IsDigit(PART_SEPARATOR) && MESSAGE_SEPARATOR != '-' && PART_SEPARATOR != '-';
  }

  /** The message that goes to the builder's table, with its data written. */
  lemma DataReads(c: Codec, m: Message)
    requires Complete(c, m)
    ensures var built := WithData(c, m);
      && built.Some? && built.value == m.(data := built.value.data)
      && (CarriesTyped(m) && m.topic != Event ==> built.value.data == Some(Typed(c, Meaning(c, m).value)))
      && (CarriesTyped(m) && m.topic == Event ==>
            Typed(c, Meaning(c, m).value) == if Blank(built.value.data) then "U" else built.value.data.value)
      && (CarriesJson(m) ==> built.value.data == JsonText(c, m))
  {
  }

  /** What the parser has before it looks into the payload. */
  function Unparsed(c: Codec, m: Message): Message
    requires CarriesTyped(m) ==> Meaning(c, m).Some?
  {
    Received(c, m).(
      parsedData := None,
      data := if CarriesTyped(m) then Some(Typed(c, Meaning(c, m).value))
              else if CarriesJson(m) then JsonText(c, m)
              else if m.topic == Record && m.action == Some(Erase) then Some("U") else None)
  }

  lemma PayloadReads(c: Codec, m: Message)
    requires Complete(c, m)
    ensures ParseData(c, Unparsed(c, m)) == Received(c, m)
  {
    if CarriesTyped(m) {
      TypedConverts(c, Meaning(c, m).value);
    }
  }

  /** The parts of a frame read as the message. */
  predicate Printed(c: Codec, m: Message, parts: seq<string>)
    requires CarriesTyped(m) ==> Meaning(c, m).Some?
  {
    |parts| >= 2 && parts[0] == TopicText(m.topic) && |parts[1]| >= 1 && ReadBody(c, parts, m.topic) == Some(Unparsed(c, m))
  }

  lemma FixedTextFits()
    ensures Fits(WRITE_CONFIG) && Fits("VERSION_EXISTS")
  {
  }

  lemma WriteFits(b: Message)
    requires CarriesVersion(b) && Fits(ShowVersion(b.version)) && Fits(Show(b.name)) && Fits(Show(b.data))
    requires CarriesPath(b) ==> Fits(Show(b.path))
    ensures Parts(b).Some? && AllFit(Parts(b).value)
  {
    var name, version, data, path := Show(b.name), ShowVersion(b.version), Show(b.data), Show(b.path);
    FixedTextFits();
    match b.action.value {
      case Update => assert AllFit(["R", "U", name, version, data, WRITE_CONFIG]);
      case Patch => assert AllFit(["R", "P", name, version, path, data, WRITE_CONFIG]);
      case Erase => assert AllFit(["R", "P", name, version, path, "U", WRITE_CONFIG]);
      case _ =>
    }
  }

  lemma WritePartsFit(c: Codec, m: Message)
    requires Complete(c, m) && CarriesVersion(m)
    ensures AllFit(Parts(WithData(c, m).value).value)
  {
    DataReads(c, m);
    VersionReads(c, m.version);
    if CarriesTyped(m) { TypedConverts(c, Meaning(c, m).value); }
    var b := WithData(c, m).value;
    assert Fits(Show(b.data)) by {
      assert m.action == Some(Erase) ==> b.data == Some("U");
    }
    WriteFits(b);
  }

  lemma TypedPartsFit(c: Codec, m: Message)
    requires Complete(c, m) && CarriesTyped(m) && m.topic != Record
    ensures AllFit(Parts(WithData(c, m).value).value)
  {
    DataReads(c, m);
    TypedConverts(c, Meaning(c, m).value);
  }

  lemma RecordPartsFit(c: Codec, m: Message)
    requires Complete(c, m) && m.topic == Record && !CarriesVersion(m)
    ensures AllFit(Parts(WithData(c, m).value).value)
  {
    DataReads(c, m);
  }

  lemma OtherPartsFit(c: Codec, m: Message)
    requires Complete(c, m) && m.topic != Record && !CarriesTyped(m)
    ensures AllFit(Parts(WithData(c, m).value).value)
  {
    DataReads(c, m);
  }

  lemma PartsFit(c: Codec, m: Message)
    requires Complete(c, m)
    ensures AllFit(Parts(WithData(c, m).value).value)
  {
    if CarriesVersion(m) { WritePartsFit(c, m); }
    else if CarriesTyped(m) { TypedPartsFit(c, m); }
    else if m.topic == Record { RecordPartsFit(c, m); }
    else { OtherPartsFit(c, m); }
  }

  lemma EventReads(c: Codec, m: Message)
    requires Complete(c, m) && m.topic == Event
    ensures Printed(c, m, Parts(WithData(c, m).value).value)
  {
    DataReads(c, m);
    if CarriesTyped(m) { TypedConverts(c, Meaning(c, m).value); }
  }

  lemma RpcReads(c: Codec, m: Message)
    requires Complete(c, m) && m.topic == Rpc
    ensures Printed(c, m, Parts(WithData(c, m).value).value)
  {
    DataReads(c, m);
    if CarriesTyped(m) { TypedConverts(c, Meaning(c, m).value); }
  }

  lemma UpdateReads(c: Codec, m: Message)
    requires Complete(c, m) && !Ambiguous(c, m) && m.topic == Record && m.action == Some(Update)
    ensures Printed(c, m, Parts(WithData(c, m).value).value)
  {
    DataReads(c, m);
    VersionReads(c, m.version);
  }

  lemma PatchReads(c: Codec, m: Message)
    requires Complete(c, m) && m.topic == Record && m.action == Some(Patch)
    ensures Printed(c, m, Parts(WithData(c, m).value).value)
  {
    DataReads(c, m);
    TypedConverts(c, Meaning(c, m).value);
    VersionReads(c, m.version);
  }

  lemma EraseReads(c: Codec, m: Message)
    requires Complete(c, m) && m.topic == Record && m.action == Some(Erase)
    ensures Printed(c, m, Parts(WithData(c, m).value).value)
  {
    DataReads(c, m);
    VersionReads(c, m.version);
  }

  lemma CreateReads(c: Codec, m: Message)
    requires Complete(c, m) && m.topic == Record && (m.action == Some(CreateAndUpdate) || m.action == Some(CreateAndPatch))
    ensures Printed(c, m, Parts(WithData(c, m).value).value)
  {
    DataReads(c, m);
    if m.action == Some(CreateAndPatch) { TypedConverts(c, Meaning(c, m).value); }
    VersionReads(c, m.version);
  }

  lemma VersionExistsReads(c: Codec, m: Message)
    requires Complete(c, m) && !Ambiguous(c, m) && m.topic == Record && m.action == Some(VersionExists)
    ensures Printed(c, m, Parts(WithData(c, m).value).value)
  {
    DataReads(c, m);
    VersionReads(c, m.version);
  }

  lemma NoticeReads(c: Codec, m: Message)
    requires Complete(c, m) && m.topic == Record && CarriesSubscription(m)
    ensures Printed(c, m, Parts(WithData(c, m).value).value)
  {
    DataReads(c, m);
  }

  lemma ProviderReads(c: Codec, m: Message)
    requires Complete(c, m) && m.topic == Record && (m.action == Some(HasProvider) || m.action == Some(HasNoProvider))
    ensures Printed(c, m, Parts(WithData(c, m).value).value)
  {
    DataReads(c, m);
  }

  lemma NamedReads(c: Codec, m: Message)
    requires Complete(c, m) && m.topic == Record && !CarriesVersion(m) && !CarriesSubscription(m)
    requires m.action != Some(HasProvider) && m.action != Some(HasNoProvider)
    ensures Printed(c, m, Parts(WithData(c, m).value).value)
  {
    DataReads(c, m);
  }

  lemma AllPrinted(c: Codec, m: Message)
    requires Complete(c, m) && !Ambiguous(c, m)
    ensures Printed(c, m, Parts(WithData(c, m).value).value)
  {
    if m.topic == Event { EventReads(c, m); }
    else if m.topic == Rpc { RpcReads(c, m); }
    else if CarriesSubscription(m) { NoticeReads(c, m); }
    else if m.action == Some(HasProvider) || m.action == Some(HasNoProvider) { ProviderReads(c, m); }
    else if !CarriesVersion(m) { NamedReads(c, m); }
    else {
      match m.action.value {
        case Update => UpdateReads(c, m);
        case Patch => PatchReads(c, m);
        case Erase => EraseReads(c, m);
        case VersionExists => VersionExistsReads(c, m);
        case _ => CreateReads(c, m);
      }
    }
  }

  lemma FrameIs(c: Codec, m: Message)
    requires Complete(c, m)
    ensures WithData(c, m).Some? && WithData(c, m).value.action == m.action && Parts(WithData(c, m).value).Some?
    ensures Parts(WithData(c, m).value).value != []
    ensures Frame(c, m) == Some(Join(Parts(WithData(c, m).value).value, PART_SEPARATOR))
  {
    DataReads(c, m);
  }

  /** One frame of any kind. */
  lemma FrameRoundTrip(c: Codec, t: Tables, m: Message)
    requires Complete(c, m) && !Ambiguous(c, m)
    ensures Frame(c, m).Some? && Clean(Frame(c, m).value, MESSAGE_SEPARATOR)
    ensures ReadFrame(c, t, Frame(c, m).value) == (Register(c, t, Received(c, m)).0, [Parsed(Register(c, t, Received(c, m)).1)])
  {
    FrameIs(c, m);
    AllPrinted(c, m);
    PartsFit(c, m);
    PayloadReads(c, m);
    Delivered(c, t, m, Parts(WithData(c, m).value).value);
  }

  lemma Delivered(c: Codec, t: Tables, m: Message, parts: seq<string>)
    requires CarriesTyped(m) ==> Meaning(c, m).Some?
    requires Printed(c, m, parts) && AllFit(parts) && ParseData(c, Unparsed(c, m)) == Received(c, m)
    ensures var frame := Join(parts, PART_SEPARATOR);
      && Clean(frame, MESSAGE_SEPARATOR)
      && ReadFrame(c, t, frame) == (Register(c, t, Received(c, m)).0, [Parsed(Register(c, t, Received(c, m)).1)])
  {
    FrameReads(c, t, parts, m.topic);
    assert ParseData(c, Register(c, t, Unparsed(c, m)).1) == Register(c, t, ParseData(c, Unparsed(c, m))).1;
  }

  /** The parts of a frame read as the message, but with the acknowledgement flag turned over. */
  predicate Misread(c: Codec, m: Message, parts: seq<string>)
    requires CarriesTyped(m) ==> Meaning(c, m).Some?
  {
    && |parts| >= 2 && parts[0] == TopicText(m.topic) && |parts[1]| >= 1
    && ReadBody(c, parts, m.topic) == Some(Unparsed(c, m).(isWriteAck := !m.isWriteAck))
  }

  lemma AmbiguousUpdateReads(c: Codec, m: Message)
    requires Complete(c, m) && Ambiguous(c, m) && m.action == Some(Update)
    ensures Misread(c, m, Parts(WithData(c, m).value).value)
  {
    DataReads(c, m);
    VersionReads(c, m.version);
  }

  lemma AmbiguousVersionReads(c: Codec, m: Message)
    requires Complete(c, m) && Ambiguous(c, m) && m.action == Some(VersionExists)
    ensures Misread(c, m, Parts(WithData(c, m).value).value)
  {
    DataReads(c, m);
    VersionReads(c, m.version);
  }

  /** A complete message arrives as it was sent exactly if its frame is not ambiguous: an ambiguous one
      arrives with the acknowledgement flag turned over. */
  lemma FrameRoundTripIff(c: Codec, t: Tables, m: Message)
    requires Complete(c, m)
    ensures Frame(c, m).Some?
    ensures var read := ReadFrame(c, t, Frame(c, m).value); var arrives := Register(c, t, Received(c, m));
      && (read == (arrives.0, [Parsed(arrives.1)]) <==> !Ambiguous(c, m))
      && (Ambiguous(c, m) ==> read == (arrives.0, [Parsed(arrives.1.(isWriteAck := !m.isWriteAck))]))
  {
    if !Ambiguous(c, m) {
      FrameRoundTrip(c, t, m);
    } else {
      FrameIs(c, m);
      if m.action == Some(Update) { AmbiguousUpdateReads(c, m); } else { AmbiguousVersionReads(c, m); }
      PartsFit(c, m);
      PayloadReads(c, m);
      var parts := Parts(WithData(c, m).value).value;
      FrameReads(c, t, parts, m.topic);
      Flipped(c, t, m);
    }
  }

  lemma Flipped(c: Codec, t: Tables, m: Message)
    requires Complete(c, m) && Ambiguous(c, m)
    ensures var n := Unparsed(c, m).(isWriteAck := !m.isWriteAck);
      && Register(c, t, n).0 == Register(c, t, Received(c, m)).0
      && ParseData(c, Register(c, t, n).1) == Register(c, t, Received(c, m)).1.(isWriteAck := !m.isWriteAck)
      && Register(c, t, Received(c, m)).1.isWriteAck == m.isWriteAck
  {
    PayloadReads(c, m);
  }

  // ---------- Many frames ----------

  /** Messages printed one after the other, as they are sent. */
  function Print(c: Codec, ms: seq<Message>): string
    requires forall i :: 0 <= i < |ms| ==> Frame(c, ms[i]).Some?
  {
    Concat(seq(|ms|, i requires 0 <= i < |ms| => Frame(c, ms[i]).value), MESSAGE_SEPARATOR)
  }

  /** The messages as they arrive, each registered in its turn. */
  function Arrive(c: Codec, t: Tables, ms: seq<Message>): (Tables, seq<Item>)
    decreases |ms|
  {
    if ms == [] then (t, [])
    else
      var first := Register(c, t, Received(c, ms[0]));
      var rest := Arrive(c, first.0, ms[1..]);
      (rest.0, [Parsed(first.1)] + rest.1)
  }

  lemma NothingArrives(c: Codec, t: Tables)
    ensures ReadFrames(c, t, [""]) == (t, [])
  {
    var first := ReadFrame(c, t, "");
    var rest := ReadFrames(c, t, [""][1..]);
    assert first == (t, []) && rest == (t, []);
    assert first.1 + rest.1 == [];
  }

  lemma {:induction false} FramesArrive(c: Codec, t: Tables, ms: seq<Message>, frames: seq<string>)
    requires |frames| == |ms|
    requires forall i :: 0 <= i < |ms| ==> Complete(c, ms[i]) && !Ambiguous(c, ms[i]) && Frame(c, ms[i]) == Some(frames[i])
    ensures ReadFrames(c, t, frames + [""]) == Arrive(c, t, ms)
    decreases |ms|
  {
    if ms == [] {
      assert frames + [""] == [""];
      NothingArrives(c, t);
    } else {
      FrameRoundTrip(c, t, ms[0]);
      assert (frames + [""])[1..] == frames[1..] + [""];
      FramesArrive(c, Register(c, t, Received(c, ms[0])).0, ms[1..], frames[1..]);
    }
  }

  /** Parsing the concatenation of built frames gives the messages in order, with their fields. */
  lemma RoundTrip(c: Codec, t: Tables, ms: seq<Message>)
    requires forall i :: 0 <= i < |ms| ==> Complete(c, ms[i]) && !Ambiguous(c, ms[i])
    ensures forall i :: 0 <= i < |ms| ==> Frame(c, ms[i]).Some?
    ensures Parse(c, t, Print(c, ms)) == Arrive(c, t, ms)
  {
    forall i | 0 <= i < |ms| ensures Frame(c, ms[i]).Some? && Clean(Frame(c, ms[i]).value, MESSAGE_SEPARATOR) {
      FrameRoundTrip(c, t, ms[i]);
    }
    var frames := seq(|ms|, i requires 0 <= i < |ms| => Frame(c, ms[i]).value);
    SplitOfConcat(frames, MESSAGE_SEPARATOR);
    FramesArrive(c, t, ms, frames);
  }

  // ---------- Messages that do not change on the way ----------

  /** Only the fields that the frame carries, and text and value of the payload agree: what the parser
      itself produces. */
  predicate Settled(c: Codec, m: Message) {
    && m.action != Some(Erase)
    && (!CarriesId(m) ==> m.correlationId == None)
    && (!CarriesSubscription(m) ==> m.subscription == None)
    && (!CarriesPath(m) ==> m.path == None)
    && (!CarriesVersion(m) ==> m.version == Absent && !m.isWriteAck)
    && (CarriesTyped(m) ==> m.data == TextOf(c, Meaning(c, m)) && m.parsedData == ValueOfPayload(Meaning(c, m)))
    && (CarriesJson(m) ==> m.data == JsonText(c, m) && m.parsedData == if Blank(m.data) then None else c.parse(m.data.value))
    && (!CarriesTyped(m) && !CarriesJson(m) ==> m.data == None && m.parsedData == None)
  }

  /** The same messages in the same order: every field is the one that was sent, but for the unique id
      that stands in for a missing correlation id. */
  lemma {:induction false} SameMessages(c: Codec, t: Tables, ms: seq<Message>)
    requires forall i :: 0 <= i < |ms| ==> Complete(c, ms[i]) && Settled(c, ms[i])
    ensures var items := Arrive(c, t, ms).1;
      && |items| == |ms|
      && forall i :: 0 <= i < |ms| ==>
           && items[i].Parsed?
           && items[i].message.(correlationId := ms[i].correlationId) == ms[i]
           && (CarriesId(ms[i]) ==> items[i].message == ms[i])
    decreases |ms|
  {
    if ms != [] {
      var first := Register(c, t, Received(c, ms[0]));
      SettledArrives(c, ms[0]);
      SameMessages(c, first.0, ms[1..]);
      var items, rest := Arrive(c, t, ms).1, Arrive(c, first.0, ms[1..]).1;
      assert items == [Parsed(first.1)] + rest;
      forall i | 0 <= i < |ms|
        ensures items[i].Parsed? && items[i].message.(correlationId := ms[i].correlationId) == ms[i]
        ensures CarriesId(ms[i]) ==> items[i].message == ms[i]
      {
        if i > 0 {
          assert items[i] == rest[i - 1] && ms[i] == ms[1..][i - 1];
        }
      }
    }
  }

  lemma SettledArrives(c: Codec, m: Message)
    requires Complete(c, m) && Settled(c, m)
    ensures Received(c, m) == m
  {
  }

  // ---------- Acknowledgements ----------

  ghost predicate DistinctIds(c: Codec) {
    forall i: nat, j: nat :: i != j ==> c.uid(i) != c.uid(j)
  }

  /** What the tables know of the first `n` ids. */
  ghost predicate SameBelow(c: Codec, t: Tables, u: Tables, n: nat) {
    && t.drawn <= u.drawn
    && forall i: nat :: i < n ==>
         var id := c.uid(i);
         && (id in t.versions <==> id in u.versions) && (id in t.versions ==> u.versions[id] == t.versions[id])
         && (id in t.names <==> id in u.names) && (id in t.names ==> u.names[id] == t.names[id])
  }

  /** The tables hold the version, or the name, of a parsed message. */
  predicate Remembered(c: Codec, t: Tables, m: Message) {
    && (m.version.Exactly? ==> WriteAckParts(t, m) == Some(["R", "WA", Show(m.name), "[" + Strings.Print(m.version.n) + "]", "L"]))
    && (m.version == Absent ==> AckedName(t, m) == m.name)
  }

  /** Messages of the kinds that are acknowledged through the tables. */
  predicate Acknowledged(m: Message) {
    m.topic != Rpc || m.action == Some(Provide) || m.action == Some(Unprovide)
  }

  lemma RegisterRemembers(c: Codec, t: Tables, m: Message)
    requires DistinctIds(c)
    ensures var r := Register(c, t, m);
      && SameBelow(c, t, r.0, t.drawn)
      && (m.correlationId == None ==> Remembered(c, r.0, r.1) && t.drawn < r.0.drawn && r.1.correlationId == Some(c.uid(t.drawn)))
  {
  }

  lemma NoIdYet(c: Codec, parts: seq<string>, topic: Topic)
    requires parts != []
    ensures Unnumbered(ReadBody(c, parts, topic))
  {
  }

  predicate Unnumbered(m: Option<Message>) {
    m.Some? && Acknowledged(m.value) ==> m.value.correlationId == None
  }

  ghost predicate RemembersLast(c: Codec, t: Tables, read: (Tables, seq<Item>)) {
    && SameBelow(c, t, read.0, t.drawn)
    && |read.1| <= 1
    && (read.1 != [] && read.1[0].Parsed? && Acknowledged(read.1[0].message) ==>
          var m := read.1[0].message;
          && Remembered(c, read.0, m) && t.drawn < read.0.drawn && m.correlationId == Some(c.uid(t.drawn)))
  }

  lemma DeliverRemembers(c: Codec, t: Tables, m: Option<Message>)
    requires DistinctIds(c) && Unnumbered(m)
    ensures RemembersLast(c, t, Deliver(c, t, m))
  {
    if m.Some? { RegisterRemembers(c, t, m.value); }
  }

  lemma FrameRemembers(c: Codec, t: Tables, frame: string)
    requires DistinctIds(c)
    ensures RemembersLast(c, t, ReadFrame(c, t, frame))
  {
    if |frame| >= 3 {
      var parts := Split(frame, PART_SEPARATOR);
      var topic := TopicOf(parts[0]);
      if topic.Some? {
        NoIdYet(c, parts, topic.value);
        DeliverRemembers(c, t, ReadBody(c, parts, topic.value));
      }
    }
  }

  lemma RemembersOn(c: Codec, t: Tables, u: Tables, m: Message, n: nat)
    requires SameBelow(c, t, u, t.drawn) && n < t.drawn && m.correlationId == Some(c.uid(n)) && Remembered(c, t, m)
    ensures Remembered(c, u, m)
  {
  }

  /** However many frames were parsed together, the acknowledgement of a write names the version of
      that write, and the acknowledgement of a subscription the name that was subscribed to. */
  lemma {:induction false} AcknowledgementsMatch(c: Codec, t: Tables, frames: seq<string>)
    requires DistinctIds(c)
    ensures var read := ReadFrames(c, t, frames);
      && SameBelow(c, t, read.0, t.drawn)
      && forall i :: 0 <= i < |read.1| && read.1[i].Parsed? && Acknowledged(read.1[i].message) ==> Remembered(c, read.0, read.1[i].message)
    decreases |frames|
  {
    if frames != [] {
      var first := ReadFrame(c, t, frames[0]);
      var rest := ReadFrames(c, first.0, frames[1..]);
      FrameRemembers(c, t, frames[0]);
      AcknowledgementsMatch(c, first.0, frames[1..]);
      var items := first.1 + rest.1;
      assert ReadFrames(c, t, frames) == (rest.0, items);
      assert SameBelow(c, t, rest.0, t.drawn);
      forall i | 0 <= i < |items| && items[i].Parsed? && Acknowledged(items[i].message)
        ensures Remembered(c, rest.0, items[i].message)
      {
        if i < |first.1| {
          RemembersOn(c, first.0, rest.0, items[i].message, t.drawn);
        } else {
          assert items[i] == rest.1[i - |first.1|];
        }
      }
    }
  }
}
