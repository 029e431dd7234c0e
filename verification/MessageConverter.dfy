/** Reading and writing the ids of a proton message as CMS text. */
module MessageConverters {
  import opened Prelude
  import opened NumberText
  import opened HexDecoder
  import opened MessageIds
  import opened Messages

  /** The typed part of a parsed id; `None` leaves the message as it is. */
  method ParsePayload(kind: IdType, payload: string, text: string, ulongMax: nat)
      returns (r: Result<Option<MessageId>, Fault>)
    ensures forall current :: ParseTyped(kind, payload, text, current, ulongMax) ==
              if r.Err? then Err(r.error) else Ok(if r.value.None? then current else r.value.value)
  {
    match kind {
      case NullType => r := Ok(None);
      case StringType => r := Ok(Some(StringId(text)));
      case UuidType =>
        var bytes := HexStringToArray(payload);
        r := if bytes.Ok? then Ok(Some(UuidId(bytes.value))) else Err(bytes.error);
      case BinaryType =>
        var bytes := HexStringToBinaryArray(payload);
        r := if bytes.Ok? then Ok(Some(BinaryId(bytes.value))) else Err(bytes.error);
      case UlongType =>
        var n := Stoul10(payload, ulongMax);
        r := if n.Ok? then Ok(Some(UlongId(n.value))) else Err(n.error);
    }
  }

  method SetAMQPMessageID(id: string, message: ProtonMessage, ulongMax: nat) returns (r: Result<(), Fault>)
    modifies message
    ensures SetMessageId(id, old(message.data.id), ulongMax).Ok? ==>
              && r == Ok(())
              && message.data == old(message.data).(id := SetMessageId(id, old(message.data.id), ulongMax).value)
    ensures SetMessageId(id, old(message.data.id), ulongMax).Err? ==>
              r == Err(SetMessageId(id, old(message.data.id), ulongMax).error) && message.data == old(message.data)
  {
    hide PrefixToType, ParseTyped, StripStringTag;
    var (kind, start) := PrefixToType(id);
    if start < 0 || start > |id| {
      return Err(OutOfRange);
    }
    var parsed := ParsePayload(kind, id[start..], StripStringTag(id), ulongMax);
    if parsed.Err? {
      return Err(parsed.error);
    }
    if parsed.value.Some? {
      message.data := message.data.(id := parsed.value.value);
    }
    r := Ok(());
  }

  method SetAMQPCorrelationID(id: string, message: ProtonMessage, ulongMax: nat) returns (r: Result<(), Fault>)
    modifies message
    ensures SetCorrelationId(id, old(message.data.correlationId), ulongMax).Ok? ==>
              && r == Ok(())
              && message.data == old(message.data).(
                   correlationId := SetCorrelationId(id, old(message.data.correlationId), ulongMax).value)
    ensures SetCorrelationId(id, old(message.data.correlationId), ulongMax).Err? ==>
              && r == Err(SetCorrelationId(id, old(message.data.correlationId), ulongMax).error)
              && message.data == old(message.data)
  {
    hide PrefixToType, ParseTyped;
    var (kind, start) := PrefixToType(id);
    if start < 0 || start > |id| {
      return Err(OutOfRange);
    }
    var parsed := ParsePayload(kind, id[start..], id, ulongMax);
    if parsed.Err? {
      return Err(parsed.error);
    }
    if parsed.value.Some? {
      message.data := message.data.(correlationId := parsed.value.value);
    }
    r := Ok(());
  }
}
