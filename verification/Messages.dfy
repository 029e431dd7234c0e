/** CMS messages and the proton messages they wrap. */
module Messages {
  import opened Prelude
  import opened Strings
  import opened NumberText
  import opened HexDecoder
  import opened MessageIds
  import opened BytesStream

  datatype Body = NoBody | TextBody(text: string) | BinaryBody(bytes: seq<byte>)

  /** The contents of a proton message, as far as the client touches them. */
  datatype MessageData = MessageData(
    id: MessageId, correlationId: MessageId, durable: bool, priority: nat, destination: Option<string>,
    timeToLive: int, expiry: int, timestamp: int, body: Body)

  /** What `send` writes into the copy it takes. */
  datatype Stamp = Stamp(
    deliveryMode: int, priority: int, destination: Option<string>, defaultDestination: string,
    timeToLive: int, now: int, generated: seq<byte>, idDisabled: bool, timestampDisabled: bool)

  const PERSISTENT := 0

  predicate StampOk(stamp: Stamp) {
    |stamp.generated| == 16
  }

  /** The generated message id: a random UUID behind "ID:". */
  function GeneratedId(uuid: seq<byte>): string
    requires |uuid| == 16
  {
    "ID:" + UuidText(uuid)
  }

  function Magnitude(n: int): nat { if n < 0 then -n else n }

  function Stamped(data: MessageData, stamp: Stamp): MessageData
    requires StampOk(stamp)
  {
    data.(
      durable := stamp.deliveryMode == PERSISTENT,
      priority := if Magnitude(stamp.priority) < 9 then Magnitude(stamp.priority) else 9,
      destination :=
        if data.destination.Some? then data.destination
        else if stamp.destination.Some? then stamp.destination
        else Some(stamp.defaultDestination),
      timeToLive := if stamp.timeToLive > 0 then stamp.timeToLive else data.timeToLive,
      expiry := if stamp.timeToLive > 0 then stamp.now + stamp.timeToLive else data.expiry,
      id := if data.id == NoId && !stamp.idDisabled then StringId(GeneratedId(stamp.generated)) else data.id,
      timestamp := if stamp.timestampDisabled then data.timestamp else stamp.now)
  }

  /** What a caller sees of the stamp, field by field: `sent` is what goes out for `own`. */
  ghost predicate CarriesStamp(own: MessageData, stamp: Stamp, sent: MessageData)
    requires StampOk(stamp)
  {
    && (own.id != NoId || stamp.idDisabled ==> sent.id == own.id)
    && (own.id == NoId && !stamp.idDisabled ==>
          sent.id.StringId? && |sent.id.text| == 39 && sent.id.text[..3] == "ID:"
          && DecodeUuid(sent.id.text[3..]) == Ok(stamp.generated) && LowerHexOrDash(sent.id.text[3..]))
    && (own.destination.Some? ==> sent.destination == own.destination)
    && (own.destination.None? && stamp.destination.Some? ==> sent.destination == stamp.destination)
    && (own.destination.None? && stamp.destination.None? ==> sent.destination == Some(stamp.defaultDestination))
    && (stamp.timeToLive > 0 ==>
          sent.timeToLive == stamp.timeToLive && sent.expiry == stamp.now + stamp.timeToLive)
    && (stamp.timeToLive <= 0 ==> sent.timeToLive == own.timeToLive && sent.expiry == own.expiry)
    && sent.timestamp == (if stamp.timestampDisabled then own.timestamp else stamp.now)
    && (sent.durable <==> stamp.deliveryMode == 0)
    && 0 <= sent.priority <= 9
    && (-9 <= stamp.priority <= 9 ==> sent.priority == stamp.priority || sent.priority == -stamp.priority)
    && (stamp.priority < -9 || stamp.priority > 9 ==> sent.priority == 9)
    && sent.correlationId == own.correlationId && sent.body == own.body
  }

  lemma StampedCarriesStamp(data: MessageData, stamp: Stamp)
    requires StampOk(stamp)
    ensures CarriesStamp(data, stamp, Stamped(data, stamp))
  {
    hide UuidText, DecodeUuid, LowerHexOrDash;
    UuidRoundTrips(stamp.generated);
    UuidTextIsLower(stamp.generated);
    assert GeneratedId(stamp.generated)[3..] == UuidText(stamp.generated);
  }

  lemma HexTextStarts(bs: seq<byte>)
    requires bs != []
    ensures HexText(bs, false) != "" && HexText(bs, false)[0] != 'A'
  {
    FirstHexDigit(bs, false);
    if |bs| == 1 {
      assert HexText(bs[..0], false) == "";
    } else {
      HexTextStarts(bs[..|bs| - 1]);
    }
  }

  /** A generated id is a plain string id: setting it stores it as it is, and reading it gives it back. */
  lemma GeneratedIdIsPlain(uuid: seq<byte>, ulongMax: nat)
    requires |uuid| == 16
    ensures SetMessageId(GeneratedId(uuid), NoId, ulongMax) == Ok(StringId(GeneratedId(uuid)))
    ensures GetMessageId(StringId(GeneratedId(uuid))) == GeneratedId(uuid)
  {
    hide HexText;
    var s := GeneratedId(uuid);
    HexTextStarts(uuid[..4]);
    assert s[3] == HexText(uuid[..4], false)[0];
    assert BINARY_TAG[3] == UUID_TAG[3] == ULONG_TAG[3] == STRING_TAG[3] == 'A';
    assert NO_PREFIX_STEM[3] == NO_PREFIX_TAG[3] == 'A';
    FourthLetter(s, BINARY_TAG);
    FourthLetter(s, UUID_TAG);
    FourthLetter(s, ULONG_TAG);
    FourthLetter(s, STRING_TAG);
    FourthLetter(s, NO_PREFIX_STEM);
    FourthLetter(s, NO_PREFIX_TAG);
    UntaggedIsString(s, NoId, ulongMax);
    assert s[..3] == "ID:";
  }

  lemma FourthLetter(s: string, t: string)
    requires |s| > 3 && |t| > 3 && s[3] != t[3]
    ensures !StartsWith(s, t)
  {
    assert |t| <= |s| ==> s[..|t|][3] == s[3];
  }

  class ProtonMessage {
    var data: MessageData

    constructor (data: MessageData)
      ensures this.data == data
    {
      this.data := data;
    }
  }

  /** A text message owns its proton message; its copy constructor makes a new one. */
  class TextMessage {
    const mMessage: ProtonMessage

    constructor (text: string)
      ensures fresh(mMessage)
      ensures mMessage.data == MessageData(NoId, NoId, true, 4, None, 0, 0, 0, TextBody(text))
    {
      mMessage := new ProtonMessage(MessageData(NoId, NoId, true, 4, None, 0, 0, 0, TextBody(text)));
    }

    constructor Copy(other: TextMessage)
      ensures fresh(mMessage) && mMessage.data == other.mMessage.data
    {
      mMessage := new ProtonMessage(other.mMessage.data);
    }

    method Clone() returns (copy: TextMessage)
      ensures fresh(copy) && fresh(copy.mMessage) && copy.mMessage.data == mMessage.data
    {
      copy := new TextMessage.Copy(this);
    }
  }

  /** The bytes stand for the value; every byte but zero stands for true. */
  ghost predicate HeldBy(v: Value, bs: seq<byte>) {
    if v.Bool? then |bs| == 1 && v.flag == (bs[0] != 0) else LaidOut(v, bs)
  }

  /** A bytes message keeps its body outside the proton message until it is sent. */
  class BytesMessage {
    const mMessage: ProtonMessage
    var mMessageBody: seq<byte>
    var mReadPosition: nat

    function View(): Stream
      reads this
    {
      Stream(mMessageBody, mReadPosition)
    }

    constructor (bytes: seq<byte>)
      ensures fresh(mMessage) && View() == Stream(bytes, 0)
      ensures mMessage.data == MessageData(NoId, NoId, true, 4, None, 0, 0, 0, NoBody)
    {
      mMessage := new ProtonMessage(MessageData(NoId, NoId, true, 4, None, 0, 0, 0, NoBody));
      mMessageBody, mReadPosition := bytes, 0;
    }

    constructor Copy(other: BytesMessage)
      ensures fresh(mMessage) && mMessage.data == other.mMessage.data && View() == Cloned(other.View())
      ensures mMessageBody == other.mMessageBody && mReadPosition == 0
    {
      mMessage := new ProtonMessage(other.mMessage.data);
      mMessageBody, mReadPosition := other.mMessageBody, 0;
    }

    /** The constructor for a message that has arrived. */
    constructor Receive(message: ProtonMessage)
      requires message.data.body.BinaryBody?
      ensures fresh(mMessage) && mMessage.data == message.data && View() == Received(message.data.body.bytes)
      ensures mMessageBody == message.data.body.bytes && mReadPosition == 0
    {
      mMessage := new ProtonMessage(message.data);
      mMessageBody, mReadPosition := message.data.body.bytes, 0;
    }

    method Clone() returns (copy: BytesMessage)
      ensures fresh(copy) && fresh(copy.mMessage) && copy.mMessage.data == mMessage.data
          && copy.View() == Cloned(View())
      ensures copy.mMessageBody == mMessageBody && copy.mReadPosition == 0
    {
      copy := new BytesMessage.Copy(this);
    }

    /** The proton message with the body put into it. */
    method Message() returns (message: ProtonMessage)
      modifies mMessage
      ensures message == mMessage && mMessage.data == old(mMessage.data).(body := BinaryBody(mMessageBody))
    {
      mMessage.data := mMessage.data.(body := BinaryBody(mMessageBody));
      message := mMessage;
    }

    method SetBodyBytes(bytes: seq<byte>)
      modifies this
      ensures View() == Stream(bytes, 0)
    {
      mMessageBody, mReadPosition := bytes, 0;
    }

    method Reset()
      modifies this
      ensures View() == old(View()).(position := 0)
    {
      mReadPosition := 0;
    }

    /** `set<T>` and the one-byte writers: append the bytes of the value one after another. */
    method Set(v: Value)
      requires InRange(v)
      modifies this
      ensures View() == WriteTo(old(View()), v)
      ensures old(mMessageBody) <= mMessageBody && mReadPosition == old(mReadPosition)
      ensures LaidOut(v, mMessageBody[|old(mMessageBody)|..])
    {
      hide LaidOut;
      EncodeIsLaidOut(v);
      var bytes := Encode(v);
      for k := 0 to |bytes|
        invariant mMessageBody == old(mMessageBody) + bytes[..k] && mReadPosition == old(mReadPosition)
      {
        mMessageBody := mMessageBody + [bytes[k]];
      }
      assert bytes[..|bytes|] == bytes;
    }

    /** `get<T>` and the one-byte readers: an exception at the end of the body, and otherwise the cursor
        moves by the width of the type, even past the end; then the value holds whatever lies there. */
    method Get(kind: Kind) returns (r: Option<Value>)
      modifies this
      ensures View() == ReadFrom(old(View()), kind).1
      ensures match ReadFrom(old(View()), kind).0
              case Got(v) => r == Some(v)
              case Garbage => r.Some? && KindOf(r.value) == kind
              case EndOfFile => r == None
      ensures mMessageBody == old(mMessageBody) && (r.None? <==> old(mReadPosition) >= |mMessageBody|)
      ensures r.None? ==> mReadPosition == old(mReadPosition)
      ensures r.Some? ==> KindOf(r.value) == kind && mReadPosition == old(mReadPosition) + Width(kind)
      ensures r.Some? && mReadPosition <= |mMessageBody| ==>
                InRange(r.value) && HeldBy(r.value, mMessageBody[old(mReadPosition)..mReadPosition])
    {
      hide Decode, LaidOut;
      var size := Width(kind);
      if mReadPosition >= |mMessageBody| {
        return None;
      }
      var missing := mReadPosition + size - |mMessageBody|;
      var behind: seq<byte> := [];
      while |behind| < missing
        invariant missing <= 0 ==> behind == []
      {
        var b: byte := *;
        behind := behind + [b];
      }
      var memory := mMessageBody + behind;
      assert missing <= 0 ==> memory == mMessageBody;
      r := Some(Decode(kind, memory[mReadPosition..mReadPosition + size]));
      DecodeIsLaidOut(kind, memory[mReadPosition..mReadPosition + size]);
      mReadPosition := mReadPosition + size;
    }
  }

  /** The plain message's copy constructor shares the proton message. */
  class PlainMessage {
    const mMessage: ProtonMessage

    constructor (message: ProtonMessage)
      ensures mMessage == message
    {
      mMessage := message;
    }

    method Clone() returns (copy: PlainMessage)
      ensures fresh(copy) && copy.mMessage == mMessage
    {
      copy := new PlainMessage(mMessage);
    }
  }

  datatype AnyMessage = Text(text: TextMessage) | Bytes(bytes: BytesMessage) | Plain(plain: PlainMessage)

  function ProtonOf(m: AnyMessage): ProtonMessage {
    match m
    case Text(t) => t.mMessage
    case Bytes(b) => b.mMessage
    case Plain(p) => p.mMessage
  }

  /** What a clone of the message shares with it. */
  function SharedWith(m: AnyMessage): set<ProtonMessage> {
    if m.Plain? then {m.plain.mMessage} else {}
  }

  /** What is sent for a message: its data, with the body of a bytes message put in. */
  function Sendable(m: AnyMessage): MessageData
    reads ProtonOf(m), if m.Bytes? then {m.bytes} else {}
  {
    if m.Bytes? then m.bytes.mMessage.data.(body := BinaryBody(m.bytes.mMessageBody)) else ProtonOf(m).data
  }

  method CloneOf(m: AnyMessage) returns (copy: AnyMessage)
    ensures !m.Plain? ==> fresh(ProtonOf(copy))
    ensures m.Plain? ==> ProtonOf(copy) == ProtonOf(m)
    ensures copy.Text? == m.Text? && copy.Bytes? == m.Bytes? && copy.Plain? == m.Plain?
    ensures copy.Bytes? ==> fresh(copy.bytes) && copy.bytes.mMessageBody == m.bytes.mMessageBody
    ensures ProtonOf(copy).data == ProtonOf(m).data && Sendable(copy) == Sendable(m)
  {
    match m {
      case Text(t) => var c := t.Clone(); copy := Text(c);
      case Bytes(b) => var c := b.Clone(); copy := Bytes(c);
      case Plain(p) => var c := p.Clone(); copy := Plain(c);
    }
  }

  /** `from_cms_message`. */
  method FromCmsMessage(m: AnyMessage) returns (message: ProtonMessage)
    modifies ProtonOf(m)
    ensures message == ProtonOf(m) && message.data == old(Sendable(m))
  {
    match m {
      case Text(t) => message := t.mMessage;
      case Bytes(b) => message := b.Message();
      case Plain(p) => message := p.mMessage;
    }
  }

  /** The first half of `send`: clone, stamp the clone, and convert it. */
  method Prepare(m: AnyMessage, stamp: Stamp) returns (message: ProtonMessage)
    requires StampOk(stamp)
    modifies SharedWith(m)
    ensures !m.Plain? ==> fresh(message)
    ensures m.Plain? ==> message == ProtonOf(m)
    ensures message.data == Stamped(old(Sendable(m)), stamp)
    ensures CarriesStamp(old(Sendable(m)), stamp, message.data)
  {
    hide CarriesStamp;
    StampedCarriesStamp(Sendable(m), stamp);
    var copy := CloneOf(m);
    var inner := ProtonOf(copy);
    inner.data := Stamped(inner.data, stamp);
    message := FromCmsMessage(copy);
  }

  /** From one client to another: write values, send the message, receive it, and read the same types. */
  method EndToEnd(m: BytesMessage, ghost f: Fifo, kinds: seq<Kind>, stamp: Stamp) returns (values: seq<Value>)
    requires Represents(m.View(), f) && StampOk(stamp)
    requires |kinds| == |f.values| && forall k :: 0 <= k < |kinds| ==> kinds[k] == KindOf(f.values[k])
    ensures values == f.values
  {
    hide Represents, ReadFrom, Encode, Decode, Stamped, CarriesStamp, LaidOut, HeldBy;
    var message := Prepare(Bytes(m), stamp);
    StampKeepsBody(m.View(), f, m.mMessage.data, stamp);
    var received := new BytesMessage.Receive(message);
    values := [];
    for i := 0 to |kinds|
      invariant Represents(received.View(), f.(next := i)) && values == f.values[..i]
    {
      ReadNext(received.View(), f.(next := i), kinds[i]);
      var v := received.Get(kinds[i]);
      values := values + [v.value];
    }
  }

  lemma StampKeepsBody(s: Stream, f: Fifo, data: MessageData, stamp: Stamp)
    requires Represents(s, f) && StampOk(stamp)
    ensures Stamped(data.(body := BinaryBody(s.body)), stamp).body == BinaryBody(s.body)
    ensures Represents(Received(s.body), f.(next := 0))
  {
    assert f.values[..0] == [];
  }

  lemma ReadNext(s: Stream, f: Fifo, kind: Kind)
    requires Represents(s, f) && f.next < |f.values| && kind == KindOf(f.values[f.next])
    ensures ReadFrom(s, kind).0 == Got(f.values[f.next])
    ensures Represents(ReadFrom(s, kind).1, f.(next := f.next + 1))
  {
    hide Represents, ReadFrom;
    ReadRefinesFifo(s, f, kind);
    assert Apply(s, Read(kind)) == (ReadFrom(s, kind).1, [ReadFrom(s, kind).0]);
  }
}
