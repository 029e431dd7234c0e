/** Message ids and correlation ids: the four AMQP id types and the CMS strings they are printed as. */
module MessageIds {
  import opened Prelude
  import opened Strings
  import opened NumberText
  import opened HexDecoder

  /** An id as it is on the wire (OASIS AMQP 1.0, sections 3.2.4 and 3.2.11 to 3.2.14). */
  datatype MessageId =
    | NoId | StringId(text: string) | UuidId(bytes: seq<byte>) | BinaryId(bytes: seq<byte>) | UlongId(value: nat)

  predicate OnWire(id: MessageId) {
    && (id.UuidId? ==> |id.bytes| == 16)
    && (id.UlongId? ==> id.value < 0x1_0000_0000_0000_0000)
  }

  const BINARY_TAG := "ID:AMQP_BINARY:"
  const UUID_TAG := "ID:AMQP_UUID:"
  const ULONG_TAG := "ID:AMQP_ULONG:"
  const STRING_TAG := "ID:AMQP_STRING:"
  const NO_PREFIX_TAG := "ID:AMQP_NO_PREFIX:"
  const NO_PREFIX_STEM := "ID:AMQP_NO_PREFIX"
  const DOUBLE_TAG := "ID:AMQP_AMQP_STRING:"

  /** The regular expression that the printers use: every tag ends in a colon. */
  predicate PrintTagged(s: string) {
    StartsWith(s, BINARY_TAG) || StartsWith(s, UUID_TAG) || StartsWith(s, ULONG_TAG)
    || StartsWith(s, NO_PREFIX_TAG) || StartsWith(s, STRING_TAG)
  }

  /** The regular expression that the parser uses: one tag lacks its colon. */
  predicate ParseTagged(s: string) {
    StartsWith(s, BINARY_TAG) || StartsWith(s, UUID_TAG) || StartsWith(s, ULONG_TAG)
    || StartsWith(s, NO_PREFIX_STEM) || StartsWith(s, STRING_TAG)
  }

  /** The position of the first `c` from `from` on, or -1. */
  function Find(s: string, c: char, from: nat): (r: int)
    requires from <= |s|
    ensures r == -1 || (from <= r < |s| && s[r] == c)
    ensures forall k :: from <= k < (if r == -1 then |s| else r) ==> s[k] != c
  {
    var n := IndexOf(s[from..], c);
    assert forall k :: from <= k < from + n ==> s[k] == s[from..][..n][k - from];
    if from + n == |s| then -1 else from + n
  }

  datatype IdType = NullType | StringType | UuidType | BinaryType | UlongType

  /** The type that a CMS string asks for, and where its payload starts; -1 stands for `npos`. */
  function PrefixToType(s: string): (IdType, int) {
    if !ParseTagged(s) then (StringType, 0)
    else
      var colon := Find(s, ':', 3);
      var name := if colon == -1 then s[3..] else s[3..colon];
      var kind :=
        if name == "AMQP_BINARY" then BinaryType
        else if name == "AMQP_UUID" then UuidType
        else if name == "AMQP_ULONG" then UlongType
        else if name == "AMQP_STRING" || name == "AMQP_NO_PREFIX" then StringType
        else NullType;
      (kind, if colon > 0 then colon + 1 else colon)
  }

  /** Removes one of the two string tags. */
  function StripStringTag(s: string): string {
    if StartsWith(s, NO_PREFIX_TAG) then s[|NO_PREFIX_TAG|..]
    else if StartsWith(s, STRING_TAG) then s[|STRING_TAG|..]
    else s
  }

  function ParseTyped(kind: IdType, payload: string, text: string, current: MessageId,
      ulongMax: nat): Result<MessageId, Fault> {
    match kind
    case NullType => Ok(current)
    case StringType => Ok(StringId(text))
    case UuidType => (match DecodeUuid(payload) case Ok(bs) => Ok(UuidId(bs)) case Err(fault) => Err(fault))
    case BinaryType => (match DecodeBinary(payload) case Ok(bs) => Ok(BinaryId(bs)) case Err(fault) => Err(fault))
    case UlongType => (match Stoul10(payload, ulongMax) case Ok(n) => Ok(UlongId(n)) case Err(fault) => Err(fault))
  }

  /** The id a message has after `setAMQPMessageID(s)`, when it had `current` before. */
  function SetMessageId(s: string, current: MessageId, ulongMax: nat): Result<MessageId, Fault> {
    var (kind, start) := PrefixToType(s);
    if start < 0 then Err(OutOfRange)
    else if start > |s| then Err(OutOfRange)
    else ParseTyped(kind, s[start..], StripStringTag(s), current, ulongMax)
  }

  function GetMessageId(id: MessageId): string
    requires OnWire(id)
  {
    match id
    case NoId => ""
    case StringId(s) =>
      if PrintTagged(s) then STRING_TAG + s
      else if !StartsWith(s, "ID:") then NO_PREFIX_TAG + s
      else s
    case UuidId(bs) => UUID_TAG + UuidText(bs)
    case BinaryId(bs) => BINARY_TAG + HexText(bs, true)
    case UlongId(n) => ULONG_TAG + DecimalText(n)
  }

  /** A correlation id keeps its whole text, tag included. */
  function SetCorrelationId(s: string, current: MessageId, ulongMax: nat): Result<MessageId, Fault> {
    var (kind, start) := PrefixToType(s);
    if start < 0 then Err(OutOfRange)
    else if start > |s| then Err(OutOfRange)
    else ParseTyped(kind, s[start..], s, current, ulongMax)
  }

  function GetCorrelationId(id: MessageId): string
    requires OnWire(id)
  {
    match id
    case NoId => ""
    case StringId(s) => if PrintTagged(s) then DOUBLE_TAG + s else s
    case UuidId(bs) => UUID_TAG + UuidText(bs)
    case BinaryId(bs) => BINARY_TAG + HexText(bs, true)
    case UlongId(n) => ULONG_TAG + DecimalText(n)
  }

  // ---------------------------------------------------------------- tags

  lemma AppendStartsWith(t: string, rest: string)
    ensures StartsWith(t + rest, t) && (t + rest)[|t|..] == rest
  {}

  /** What tells the tags apart is in the ninth to eleventh characters. */
  lemma TagLetters(s: string)
    ensures StartsWith(s, BINARY_TAG) ==> s[8] == 'B'
    ensures StartsWith(s, UUID_TAG) ==> s[8] == 'U' && s[9] == 'U'
    ensures StartsWith(s, ULONG_TAG) ==> s[8] == 'U' && s[9] == 'L'
    ensures StartsWith(s, STRING_TAG) ==> s[8] == 'S'
    ensures StartsWith(s, NO_PREFIX_STEM) ==> s[8] == 'N'
    ensures StartsWith(s, DOUBLE_TAG) ==> s[8] == 'A'
    ensures StartsWith(s, NO_PREFIX_TAG) ==> StartsWith(s, NO_PREFIX_STEM) && s[17] == ':'
    ensures StartsWith(s, NO_PREFIX_STEM) && |s| > 17 && s[17] == ':' ==> StartsWith(s, NO_PREFIX_TAG)
  {
    assert BINARY_TAG[8] == 'B' && UUID_TAG[8] == 'U' && UUID_TAG[9] == 'U' && ULONG_TAG[8] == 'U'
        && ULONG_TAG[9] == 'L';
    assert STRING_TAG[8] == 'S' && NO_PREFIX_STEM[8] == 'N' && DOUBLE_TAG[8] == 'A' && NO_PREFIX_TAG[17] == ':';
    assert NO_PREFIX_TAG == NO_PREFIX_STEM + ":";
    if StartsWith(s, NO_PREFIX_TAG) { assert s[..17] == s[..18][..17] == NO_PREFIX_STEM; assert s[17] == s[..18][17]; }
    if StartsWith(s, NO_PREFIX_STEM) && |s| > 17 { assert s[..18] == s[..17] + [s[17]]; }
    if StartsWith(s, BINARY_TAG) { assert s[8] == s[..15][8]; }
    if StartsWith(s, UUID_TAG) { assert s[8] == s[..13][8] && s[9] == s[..13][9]; }
    if StartsWith(s, ULONG_TAG) { assert s[8] == s[..14][8] && s[9] == s[..14][9]; }
    if StartsWith(s, STRING_TAG) { assert s[8] == s[..15][8]; }
    if StartsWith(s, NO_PREFIX_STEM) { assert s[8] == s[..17][8]; }
    if StartsWith(s, DOUBLE_TAG) { assert s[8] == s[..20][8]; }
  }

  lemma FirstColon(s: string, end: nat)
    requires 3 <= end < |s| && s[end] == ':'
    requires forall k :: 3 <= k < end ==> s[k] != ':'
    ensures Find(s, ':', 3) == end
  {}

  /** A tag that ends in its only colon behind the third character. */
  predicate ColonEnded(t: string) {
    && |t| > 4 && t[|t| - 1] == ':'
    && forall k :: 3 <= k < |t| - 1 ==> t[k] != ':'
  }

  lemma TagsAreColonEnded()
    ensures ColonEnded(BINARY_TAG) && ColonEnded(UUID_TAG) && ColonEnded(ULONG_TAG)
    ensures ColonEnded(STRING_TAG) && ColonEnded(NO_PREFIX_TAG)
  {}

  lemma ColonBehindTag(t: string, rest: string)
    requires ColonEnded(t)
    ensures Find(t + rest, ':', 3) == |t| - 1 && (t + rest)[3..|t| - 1] == t[3..|t| - 1]
  {
    var s := t + rest;
    assert s[|t| - 1] == t[|t| - 1];
    assert forall k :: 3 <= k < |t| - 1 ==> s[k] == t[k];
    FirstColon(s, |t| - 1);
  }

  /** What the parser makes of a well-formed tag. */
  lemma ParseOfBinaryTag(rest: string)
    ensures PrefixToType(BINARY_TAG + rest) == (BinaryType, |BINARY_TAG|)
  {
    TagsAreColonEnded();
    AppendStartsWith(BINARY_TAG, rest);
    ColonBehindTag(BINARY_TAG, rest);
    assert BINARY_TAG[3..14] == "AMQP_BINARY";
  }

  lemma ParseOfUuidTag(rest: string)
    ensures PrefixToType(UUID_TAG + rest) == (UuidType, |UUID_TAG|)
  {
    TagsAreColonEnded();
    AppendStartsWith(UUID_TAG, rest);
    ColonBehindTag(UUID_TAG, rest);
    assert UUID_TAG[3..12] == "AMQP_UUID";
  }

  lemma ParseOfUlongTag(rest: string)
    ensures PrefixToType(ULONG_TAG + rest) == (UlongType, |ULONG_TAG|)
  {
    TagsAreColonEnded();
    AppendStartsWith(ULONG_TAG, rest);
    ColonBehindTag(ULONG_TAG, rest);
    assert ULONG_TAG[3..13] == "AMQP_ULONG";
  }

  lemma ParseOfStringTag(rest: string)
    ensures PrefixToType(STRING_TAG + rest) == (StringType, |STRING_TAG|)
  {
    TagsAreColonEnded();
    AppendStartsWith(STRING_TAG, rest);
    ColonBehindTag(STRING_TAG, rest);
    assert STRING_TAG[3..14] == "AMQP_STRING";
  }

  lemma ParseOfNoPrefixTag(rest: string)
    ensures PrefixToType(NO_PREFIX_TAG + rest) == (StringType, |NO_PREFIX_TAG|)
  {
    TagsAreColonEnded();
    AppendStartsWith(NO_PREFIX_TAG, rest);
    ColonBehindTag(NO_PREFIX_TAG, rest);
    assert NO_PREFIX_TAG[3..17] == "AMQP_NO_PREFIX";
    TagLetters(NO_PREFIX_TAG + rest);
  }

  lemma ParseOfTag(rest: string)
    ensures PrefixToType(BINARY_TAG + rest) == (BinaryType, |BINARY_TAG|)
    ensures PrefixToType(UUID_TAG + rest) == (UuidType, |UUID_TAG|)
    ensures PrefixToType(ULONG_TAG + rest) == (UlongType, |ULONG_TAG|)
    ensures PrefixToType(STRING_TAG + rest) == (StringType, |STRING_TAG|)
    ensures PrefixToType(NO_PREFIX_TAG + rest) == (StringType, |NO_PREFIX_TAG|)
  {
    hide PrefixToType;
    ParseOfBinaryTag(rest);
    ParseOfUuidTag(rest);
    ParseOfUlongTag(rest);
    ParseOfStringTag(rest);
    ParseOfNoPrefixTag(rest);
  }

  /** The stem without its colon parses to no type, or to a string whose payload position is `npos`. */
  lemma ParseOfBareStem(s: string)
    requires StartsWith(s, NO_PREFIX_STEM) && !StartsWith(s, NO_PREFIX_TAG)
    ensures var (kind, start) := PrefixToType(s); start < 0 || (kind == NullType && start <= |s|)
  {
    TagLetters(s);
    var colon := Find(s, ':', 3);
    if colon != -1 {
      assert forall k :: 3 <= k < 17 ==> s[k] == NO_PREFIX_STEM[k] && s[k] != ':' by {
        assert forall k :: 3 <= k < 17 ==> s[k] == s[..17][k];
      }
      assert colon > 17;
      var name := s[3..colon];
      assert |name| > 14 && name[5] == s[8] == 'N';
    }
  }

  /** A string without a tag is taken as it is, by both setters. */
  lemma UntaggedIsString(s: string, current: MessageId, ulongMax: nat)
    requires !ParseTagged(s)
    ensures SetMessageId(s, current, ulongMax) == Ok(StringId(s))
    ensures SetCorrelationId(s, current, ulongMax) == Ok(StringId(s))
  {
    TagLetters(s);
    assert s[0..] == s;
  }

  // ---------------------------------------------------------------- letter for letter

  /** The texts that ids are printed as. */
  lemma PrintedIds(id: MessageId)
    requires OnWire(id)
    ensures match id
            case NoId => GetMessageId(id) == GetCorrelationId(id) == ""
            case UuidId(bs) => GetMessageId(id) == GetCorrelationId(id) == "ID:AMQP_UUID:" + UuidText(bs)
            case BinaryId(bs) => GetMessageId(id) == GetCorrelationId(id) == "ID:AMQP_BINARY:" + HexText(bs, true)
            case UlongId(n) => GetMessageId(id) == GetCorrelationId(id) == "ID:AMQP_ULONG:" + DecimalText(n)
            case StringId(s) =>
              if exists tag :: tag in ["ID:AMQP_BINARY:", "ID:AMQP_UUID:", "ID:AMQP_ULONG:", "ID:AMQP_NO_PREFIX:",
                                       "ID:AMQP_STRING:"] && StartsWith(s, tag)
              then GetMessageId(id) == "ID:AMQP_STRING:" + s && GetCorrelationId(id) == "ID:AMQP_AMQP_STRING:" + s
              else GetCorrelationId(id) == s
                   && GetMessageId(id) == if StartsWith(s, "ID:") then s else "ID:AMQP_NO_PREFIX:" + s
  {
    hide StartsWith, UuidText, HexText, DecimalText;
    if id.StringId? {
      var tags := [BINARY_TAG, UUID_TAG, ULONG_TAG, NO_PREFIX_TAG, STRING_TAG];
      assert tags[0] in tags && tags[1] in tags && tags[2] in tags && tags[3] in tags && tags[4] in tags;
    }
  }

  /** What setting a tagged text does, whatever the message held before. */
  lemma SetTaggedText(rest: string, current: MessageId, ulongMax: nat)
    ensures SetMessageId("ID:AMQP_STRING:" + rest, current, ulongMax) == Ok(StringId(rest))
    ensures SetMessageId("ID:AMQP_NO_PREFIX:" + rest, current, ulongMax) == Ok(StringId(rest))
    ensures SetCorrelationId("ID:AMQP_STRING:" + rest, current, ulongMax) == Ok(StringId("ID:AMQP_STRING:" + rest))
    ensures SetCorrelationId("ID:AMQP_NO_PREFIX:" + rest, current, ulongMax)
         == Ok(StringId("ID:AMQP_NO_PREFIX:" + rest))
  {
    hide PrefixToType, DecodeUuid, DecodeBinary, Stoul10;
    ParseOfTag(rest);
    AppendStartsWith(STRING_TAG, rest);
    AppendStartsWith(NO_PREFIX_TAG, rest);
    TagLetters(STRING_TAG + rest);
  }

  lemma SetTypedText(rest: string, current: MessageId, ulongMax: nat)
    ensures var (m, c) := (SetMessageId("ID:AMQP_UUID:" + rest, current, ulongMax),
                           SetCorrelationId("ID:AMQP_UUID:" + rest, current, ulongMax));
            m == c && match DecodeUuid(rest) case Ok(bs) => m == Ok(UuidId(bs)) case Err(fault) => m == Err(fault)
    ensures var (m, c) := (SetMessageId("ID:AMQP_BINARY:" + rest, current, ulongMax),
                           SetCorrelationId("ID:AMQP_BINARY:" + rest, current, ulongMax));
            m == c && match DecodeBinary(rest) case Ok(bs) => m == Ok(BinaryId(bs)) case Err(fault) => m == Err(fault)
    ensures var (m, c) := (SetMessageId("ID:AMQP_ULONG:" + rest, current, ulongMax),
                           SetCorrelationId("ID:AMQP_ULONG:" + rest, current, ulongMax));
            m == c && match Stoul10(rest, ulongMax) case Ok(n) => m == Ok(UlongId(n)) case Err(fault) => m == Err(fault)
  {
    hide PrefixToType, DecodeUuid, DecodeBinary, Stoul10, StripStringTag;
    ParseOfTag(rest);
    AppendStartsWith(UUID_TAG, rest);
    AppendStartsWith(BINARY_TAG, rest);
    AppendStartsWith(ULONG_TAG, rest);
  }

  /** The stem without its colon: with a colon further on nothing is set, otherwise the setter throws. */
  lemma SetBareStem(rest: string, current: MessageId, ulongMax: nat)
    requires rest == "" || rest[0] != ':'
    ensures var s := "ID:AMQP_NO_PREFIX" + rest;
            SetMessageId(s, current, ulongMax) == SetCorrelationId(s, current, ulongMax)
         == if ':' in rest then Ok(current) else Err(OutOfRange)
  {
    var s := NO_PREFIX_STEM + rest;
    AppendStartsWith(NO_PREFIX_STEM, rest);
    TagLetters(s);
    assert |s| > 17 ==> s[17] == rest[0];
    ParseOfBareStem(s);
    ColonInStem(rest);
    hide PrefixToType, StartsWith, DecodeUuid, DecodeBinary, Stoul10, StripStringTag;
  }

  lemma ColonInStem(rest: string)
    requires rest == "" || rest[0] != ':'
    ensures var (kind, start) := PrefixToType("ID:AMQP_NO_PREFIX" + rest);
            (':' in rest <==> start >= 0) && (start >= 0 ==> kind == NullType && start <= 17 + |rest|)
  {
    var s := NO_PREFIX_STEM + rest;
    AppendStartsWith(NO_PREFIX_STEM, rest);
    assert forall k :: 3 <= k < 17 ==> s[k] == NO_PREFIX_STEM[k] && s[k] != ':';
    assert forall k :: 17 <= k < |s| ==> s[k] == rest[k - 17];
    var colon := Find(s, ':', 3);
    if ':' in rest {
      var j :| 0 <= j < |rest| && rest[j] == ':';
      assert s[17 + j] == ':';
      var name := s[3..colon];
      assert colon > 17 && |name| > 14 && name[5] == 'N';
    }
  }

  // ---------------------------------------------------------------- round trips

  /** The strings that survive: all but those that start with the stem and no colon behind it. */
  predicate ParsesBack(s: string) {
    StartsWith(s, NO_PREFIX_STEM) ==> StartsWith(s, NO_PREFIX_TAG)
  }

  /** The ids that survive printing and parsing. */
  predicate MessageIdSurvives(id: MessageId, ulongMax: nat) {
    match id
    case NoId => false
    case StringId(s) => ParsesBack(s)
    case UuidId(_) => true
    case BinaryId(bs) => FitsLongLong(bs)
    case UlongId(n) => n <= ulongMax
  }

  /** A string that carries a tag is printed with a second one, which is taken off again. */
  lemma TaggedStringSurvives(s: string, current: MessageId, ulongMax: nat)
    requires PrintTagged(s)
    ensures ParsesBack(s) && SetMessageId(GetMessageId(StringId(s)), current, ulongMax) == Ok(StringId(s))
  {
    hide DecodeUuid, DecodeBinary, Stoul10, PrefixToType;
    var t := STRING_TAG + s;
    TagLetters(s);
    ParseOfTag(s);
    AppendStartsWith(STRING_TAG, s);
    TagLetters(t);
  }

  lemma PlainStringSurvives(s: string, current: MessageId, ulongMax: nat)
    requires !PrintTagged(s) && !StartsWith(s, "ID:")
    ensures ParsesBack(s) && SetMessageId(GetMessageId(StringId(s)), current, ulongMax) == Ok(StringId(s))
  {
    hide DecodeUuid, DecodeBinary, Stoul10, PrefixToType;
    NotIdNotStem(s);
    ParseOfTag(s);
    AppendStartsWith(NO_PREFIX_TAG, s);
  }

  lemma UntaggedStringSurvives(s: string, current: MessageId, ulongMax: nat)
    requires !PrintTagged(s) && StartsWith(s, "ID:") && ParsesBack(s)
    ensures SetMessageId(GetMessageId(StringId(s)), current, ulongMax) == Ok(StringId(s))
  {
    hide SetMessageId, StartsWith;
    UntaggedIsString(s, current, ulongMax);
  }

  lemma BareStemIsLost(s: string, ulongMax: nat)
    requires !PrintTagged(s) && StartsWith(s, "ID:") && !ParsesBack(s)
    ensures SetMessageId(GetMessageId(StringId(s)), NoId, ulongMax) != Ok(StringId(s))
  {
    hide DecodeUuid, DecodeBinary, Stoul10, PrefixToType;
    ParseOfBareStem(s);
  }

  lemma StringSurvivesIff(s: string, ulongMax: nat)
    ensures (forall current :: SetMessageId(GetMessageId(StringId(s)), current, ulongMax) == Ok(StringId(s))) <==>
        ParsesBack(s)
  {
    hide SetMessageId, GetMessageId, PrintTagged, ParsesBack, StartsWith;
    if PrintTagged(s) {
      forall current { TaggedStringSurvives(s, current, ulongMax); }
      TaggedStringSurvives(s, NoId, ulongMax);
    } else if !StartsWith(s, "ID:") {
      forall current { PlainStringSurvives(s, current, ulongMax); }
      PlainStringSurvives(s, NoId, ulongMax);
    } else if ParsesBack(s) {
      forall current { UntaggedStringSurvives(s, current, ulongMax); }
    } else {
      BareStemIsLost(s, ulongMax);
    }
  }

  lemma NotIdNotStem(s: string)
    requires !StartsWith(s, "ID:")
    ensures !StartsWith(s, NO_PREFIX_STEM)
  {
    assert NO_PREFIX_STEM[..3] == "ID:";
    assert |s| >= 17 ==> s[..3] == s[..17][..3];
  }

  /** Message ids, exactly: printing an id and setting the result on any message restores the id, with
      its type, if and only if it is a UUID, a ulong up to ULONG_MAX, a binary of at most eight bytes
      below 2^63, or a string that does not start with the bare stem. */
  lemma MessageIdRoundTripsIff(id: MessageId, ulongMax: nat)
    requires OnWire(id)
    ensures (forall current :: SetMessageId(GetMessageId(id), current, ulongMax) == Ok(id)) <==>
        MessageIdSurvives(id, ulongMax)
  {
    hide DecodeUuid, DecodeBinary, Stoul10, HexText, UuidText, DecimalText, StartsWith, PrefixToType;
    match id {
      case NoId =>
        EmptyIsUntagged();
        UntaggedIsString("", NoId, ulongMax);
        assert SetMessageId(GetMessageId(id), NoId, ulongMax) != Ok(NoId);
      case StringId(s) =>
        StringSurvivesIff(s, ulongMax);
      case UuidId(bs) =>
        ParseOfTag(UuidText(bs));
        AppendStartsWith(UUID_TAG, UuidText(bs));
        UuidRoundTrips(bs);
      case BinaryId(bs) =>
        ParseOfTag(HexText(bs, true));
        AppendStartsWith(BINARY_TAG, HexText(bs, true));
        BinaryRoundTripsIffFits(bs);
        assert SetMessageId(GetMessageId(id), NoId, ulongMax) == Ok(id) <==> FitsLongLong(bs);
      case UlongId(n) =>
        ParseOfTag(DecimalText(n));
        AppendStartsWith(ULONG_TAG, DecimalText(n));
        StoulReadsDecimalText(n, ulongMax);
        assert SetMessageId(GetMessageId(id), NoId, ulongMax) == Ok(id) <==> n <= ulongMax;
    }
  }

  /** The correlation ids that survive: a string only when it carries no tag at all. */
  predicate CorrelationIdSurvives(id: MessageId, ulongMax: nat) {
    match id
    case NoId => false
    case StringId(s) => !ParseTagged(s)
    case UuidId(_) => true
    case BinaryId(bs) => FitsLongLong(bs)
    case UlongId(n) => n <= ulongMax
  }

  lemma DoubleTagIsUntagged(s: string)
    ensures !ParseTagged(DOUBLE_TAG + s)
  {
    AppendStartsWith(DOUBLE_TAG, s);
    TagLetters(DOUBLE_TAG + s);
  }

  lemma EmptyIsUntagged()
    ensures !ParseTagged("")
  {}

  lemma CorrelationStringSurvivesIff(s: string, ulongMax: nat)
    ensures (forall current :: SetCorrelationId(GetCorrelationId(StringId(s)), current, ulongMax) == Ok(StringId(s)))
            <==> !ParseTagged(s)
  {
    hide DecodeUuid, DecodeBinary, Stoul10;
    var t := GetCorrelationId(StringId(s));
    if PrintTagged(s) {
      TagLetters(s);
      DoubleTagIsUntagged(s);
      UntaggedIsString(t, NoId, ulongMax);
      assert |t| > |s|;
    } else if ParseTagged(s) {
      ParseOfBareStem(s);
      assert SetCorrelationId(t, NoId, ulongMax) != Ok(StringId(s));
    } else {
      forall current ensures SetCorrelationId(t, current, ulongMax) == Ok(StringId(s)) {
        UntaggedIsString(s, current, ulongMax);
      }
    }
  }

  /** Correlation ids from the wire through CMS and back, exactly. */
  lemma CorrelationIdRoundTripsIff(id: MessageId, ulongMax: nat)
    requires OnWire(id)
    ensures (forall current :: SetCorrelationId(GetCorrelationId(id), current, ulongMax) == Ok(id))
            <==> CorrelationIdSurvives(id, ulongMax)
  {
    hide DecodeUuid, DecodeBinary, Stoul10, HexText, UuidText, DecimalText, StartsWith, PrefixToType;
    match id {
      case NoId =>
        EmptyIsUntagged();
        UntaggedIsString("", NoId, ulongMax);
        assert SetCorrelationId(GetCorrelationId(id), NoId, ulongMax) != Ok(NoId);
      case StringId(s) =>
        CorrelationStringSurvivesIff(s, ulongMax);
      case UuidId(bs) =>
        ParseOfTag(UuidText(bs));
        AppendStartsWith(UUID_TAG, UuidText(bs));
        UuidRoundTrips(bs);
      case BinaryId(bs) =>
        ParseOfTag(HexText(bs, true));
        AppendStartsWith(BINARY_TAG, HexText(bs, true));
        BinaryRoundTripsIffFits(bs);
        assert SetCorrelationId(GetCorrelationId(id), NoId, ulongMax) == Ok(id) <==> FitsLongLong(bs);
      case UlongId(n) =>
        ParseOfTag(DecimalText(n));
        AppendStartsWith(ULONG_TAG, DecimalText(n));
        StoulReadsDecimalText(n, ulongMax);
        assert SetCorrelationId(GetCorrelationId(id), NoId, ulongMax) == Ok(id) <==> n <= ulongMax;
    }
  }

  lemma UntaggedPrintsPlain(s: string)
    ensures !ParseTagged(s) ==> !PrintTagged(s)
  {
    if StartsWith(s, NO_PREFIX_TAG) {
      assert NO_PREFIX_TAG[..|NO_PREFIX_STEM|] == NO_PREFIX_STEM;
      assert s[..|NO_PREFIX_STEM|] == s[..|NO_PREFIX_TAG|][..|NO_PREFIX_STEM|];
    }
  }

  /** A CMS correlation string comes back unchanged when it carries no tag. */
  lemma CorrelationTextRoundTrip(s: string, current: MessageId, ulongMax: nat)
    requires OnWire(current)
    ensures !ParseTagged(s) ==>
              var r := SetCorrelationId(s, current, ulongMax);
              r == Ok(StringId(s)) && GetCorrelationId(r.value) == s
  {
    hide SetCorrelationId, StartsWith, ParseTagged, PrintTagged;
    UntaggedPrintsPlain(s);
    if !ParseTagged(s) { UntaggedIsString(s, current, ulongMax); }
  }

  /** A text with one of the two string tags keeps it, and is printed with a second one in front. */
  lemma TaggedTextGainsATag(s: string, current: MessageId, ulongMax: nat)
    requires OnWire(current) && (StartsWith(s, STRING_TAG) || StartsWith(s, NO_PREFIX_TAG))
    ensures SetCorrelationId(s, current, ulongMax) == Ok(StringId(s))
    ensures GetCorrelationId(StringId(s)) == DOUBLE_TAG + s != s
  {
    hide DecodeUuid, DecodeBinary, Stoul10, PrefixToType;
    TagLetters(s);
    if StartsWith(s, STRING_TAG) {
      StartsWithSplit(s, STRING_TAG);
      ParseOfTag(s[|STRING_TAG|..]);
    } else {
      StartsWithSplit(s, NO_PREFIX_TAG);
      ParseOfTag(s[|NO_PREFIX_TAG|..]);
    }
  }

  /** The text comes back as it was, whatever the message held before. */
  ghost predicate TextComesBack(s: string, ulongMax: nat) {
    forall current :: OnWire(current) ==> ComesBackFrom(s, current, ulongMax)
  }

  predicate ComesBackFrom(s: string, current: MessageId, ulongMax: nat) {
    var r := SetCorrelationId(s, current, ulongMax);
    r.Ok? && OnWire(r.value) && GetCorrelationId(r.value) == s
  }

  predicate IsPrintOf(s: string, id: MessageId, ulongMax: nat) {
    match id
    case BinaryId(bs) => FitsLongLong(bs) && s == BINARY_TAG + HexText(bs, true)
    case UuidId(bs) => |bs| == 16 && s == UUID_TAG + UuidText(bs)
    case UlongId(n) => n <= ulongMax && OnWire(id) && s == ULONG_TAG + DecimalText(n)
    case _ => false
  }

  /** It carries no tag, or it is the canonical text of a uuid, of a binary that fits (in upper case), or of
      a ulong in range. */
  ghost predicate CanonicalText(s: string, ulongMax: nat) {
    !ParseTagged(s) || exists id :: IsPrintOf(s, id, ulongMax)
  }

  lemma BinaryTextComesBackOnly(s: string, ulongMax: nat)
    requires StartsWith(s, BINARY_TAG) && ComesBackFrom(s, NoId, ulongMax)
    ensures CanonicalText(s, ulongMax)
  {
    hide DecodeUuid, DecodeBinary, Stoul10, HexText, PrefixToType, StartsWith, FitsLongLong;
    StartsWithSplit(s, BINARY_TAG);
    var rest := s[|BINARY_TAG|..];
    ParseOfTag(rest);
    var id := SetCorrelationId(s, NoId, ulongMax).value;
    AppendStartsWith(BINARY_TAG, HexText(id.bytes, true));
    assert rest == HexText(id.bytes, true);
    BinaryRoundTripsIffFits(id.bytes);
    assert IsPrintOf(s, id, ulongMax);
  }

  lemma UuidTextComesBackOnly(s: string, ulongMax: nat)
    requires StartsWith(s, UUID_TAG) && ComesBackFrom(s, NoId, ulongMax)
    ensures CanonicalText(s, ulongMax)
  {
    hide DecodeUuid, DecodeBinary, Stoul10, UuidText, PrefixToType, StartsWith;
    StartsWithSplit(s, UUID_TAG);
    ParseOfTag(s[|UUID_TAG|..]);
    assert IsPrintOf(s, SetCorrelationId(s, NoId, ulongMax).value, ulongMax);
  }

  lemma UlongTextComesBackOnly(s: string, ulongMax: nat)
    requires StartsWith(s, ULONG_TAG) && ComesBackFrom(s, NoId, ulongMax)
    ensures CanonicalText(s, ulongMax)
  {
    hide DecodeUuid, DecodeBinary, Stoul10, DecimalText, PrefixToType, StartsWith;
    StartsWithSplit(s, ULONG_TAG);
    ParseOfTag(s[|ULONG_TAG|..]);
    assert IsPrintOf(s, SetCorrelationId(s, NoId, ulongMax).value, ulongMax);
  }

  lemma StemTextIsLost(s: string, ulongMax: nat)
    requires StartsWith(s, NO_PREFIX_STEM) && !StartsWith(s, NO_PREFIX_TAG)
    ensures !ComesBackFrom(s, NoId, ulongMax)
  {
    hide DecodeUuid, DecodeBinary, Stoul10, PrefixToType;
    ParseOfBareStem(s);
  }

  lemma CanonicalTextComesBack(s: string, current: MessageId, ulongMax: nat)
    requires OnWire(current) && CanonicalText(s, ulongMax)
    ensures ComesBackFrom(s, current, ulongMax)
  {
    hide SetCorrelationId, ParseTagged, PrintTagged, HexText, UuidText, DecimalText, FitsLongLong;
    if !ParseTagged(s) {
      CorrelationTextRoundTrip(s, current, ulongMax);
    } else {
      var id :| IsPrintOf(s, id, ulongMax);
      CorrelationIdRoundTripsIff(id, ulongMax);
      assert SetCorrelationId(GetCorrelationId(id), current, ulongMax) == Ok(id);
    }
  }

  /** Correlation texts, exactly: a text set on any message is printed as it was if and only if it carries
      no tag or is the canonical text of an id that survives. */
  lemma CorrelationTextRoundTripsIff(s: string, ulongMax: nat)
    ensures TextComesBack(s, ulongMax) <==> CanonicalText(s, ulongMax)
  {
    hide ComesBackFrom, StartsWith, SetCorrelationId, GetCorrelationId;
    if CanonicalText(s, ulongMax) {
      forall current | OnWire(current) ensures ComesBackFrom(s, current, ulongMax) {
        CanonicalTextComesBack(s, current, ulongMax);
      }
    } else if ComesBackFrom(s, NoId, ulongMax) {
      OnlyCanonicalTextComesBack(s, ulongMax);
    } else {
      assert OnWire(NoId);
    }
  }

  lemma OnlyCanonicalTextComesBack(s: string, ulongMax: nat)
    requires ComesBackFrom(s, NoId, ulongMax)
    ensures CanonicalText(s, ulongMax)
  {
    hide ComesBackFrom, CanonicalText, StartsWith, PrintTagged, SetCorrelationId, GetCorrelationId;
    if StartsWith(s, BINARY_TAG) {
      BinaryTextComesBackOnly(s, ulongMax);
    } else if StartsWith(s, UUID_TAG) {
      UuidTextComesBackOnly(s, ulongMax);
    } else if StartsWith(s, ULONG_TAG) {
      UlongTextComesBackOnly(s, ulongMax);
    } else if StartsWith(s, STRING_TAG) || StartsWith(s, NO_PREFIX_TAG) {
      StringTaggedTextIsChanged(s, ulongMax);
    } else if StartsWith(s, NO_PREFIX_STEM) {
      StemTextIsLost(s, ulongMax);
    } else {
      UntaggedIsCanonical(s, ulongMax);
    }
  }

  lemma StringTaggedTextIsChanged(s: string, ulongMax: nat)
    requires StartsWith(s, STRING_TAG) || StartsWith(s, NO_PREFIX_TAG)
    ensures !ComesBackFrom(s, NoId, ulongMax)
  {
    hide SetCorrelationId, GetCorrelationId;
    TaggedTextGainsATag(s, NoId, ulongMax);
  }

  lemma UntaggedIsCanonical(s: string, ulongMax: nat)
    requires !ParseTagged(s)
    ensures CanonicalText(s, ulongMax)
  {}

  // ---------------------------------------------------------------- printing is injective

  lemma HexTextInjective(a: seq<byte>, b: seq<byte>)
    requires HexText(a, true) == HexText(b, true)
    ensures a == b
  {
    HexBytesInvertsHexText(a, true);
    HexBytesInvertsHexText(b, true);
  }

  lemma UuidTextInjective(a: seq<byte>, b: seq<byte>)
    requires |a| == |b| == 16 && UuidText(a) == UuidText(b)
    ensures a == b
  {
    UuidRoundTrips(a);
    UuidRoundTrips(b);
  }

  lemma DecimalTextInjective(m: nat, n: nat)
    requires DecimalText(m) == DecimalText(n)
    ensures m == n
  {
    DecimalValueInvertsText(m);
    DecimalValueInvertsText(n);
  }

  datatype Shape = Nothing | TaggedString | PlainString | IdString | UuidShape | BinaryShape | UlongShape

  /** Which shape of CMS string an id prints to. */
  function ShapeOf(id: MessageId): Shape {
    match id
    case NoId => Nothing
    case StringId(s) =>
      if PrintTagged(s) then TaggedString else if !StartsWith(s, "ID:") then PlainString else IdString
    case UuidId(_) => UuidShape
    case BinaryId(_) => BinaryShape
    case UlongId(_) => UlongShape
  }

  /** The shape can be read off the printed string. */
  function ShapeOfText(t: string): Shape {
    if t == "" then Nothing
    else if StartsWith(t, STRING_TAG) then TaggedString
    else if StartsWith(t, NO_PREFIX_TAG) then PlainString
    else if StartsWith(t, UUID_TAG) then UuidShape
    else if StartsWith(t, BINARY_TAG) then BinaryShape
    else if StartsWith(t, ULONG_TAG) then UlongShape
    else IdString
  }

  lemma PrintedShape(id: MessageId)
    requires OnWire(id)
    ensures ShapeOfText(GetMessageId(id)) == ShapeOf(id)
  {
    TagLetters(GetMessageId(id));
    match id {
      case NoId =>
      case StringId(s) =>
        AppendStartsWith(STRING_TAG, s);
        AppendStartsWith(NO_PREFIX_TAG, s);
      case UuidId(bs) => AppendStartsWith(UUID_TAG, UuidText(bs));
      case BinaryId(bs) => AppendStartsWith(BINARY_TAG, HexText(bs, true));
      case UlongId(n) => AppendStartsWith(ULONG_TAG, DecimalText(n));
    }
  }

  /** Two different ids never print to the same CMS string, whatever their types and sizes. */
  lemma PrintingIsInjective(a: MessageId, b: MessageId)
    requires OnWire(a) && OnWire(b) && GetMessageId(a) == GetMessageId(b)
    ensures a == b
  {
    hide HexText, UuidText, DecimalText;
    PrintedShape(a);
    PrintedShape(b);
    match (a, b) {
      case (StringId(s), StringId(t)) =>
        AppendStartsWith(STRING_TAG, s);
        AppendStartsWith(STRING_TAG, t);
        AppendStartsWith(NO_PREFIX_TAG, s);
        AppendStartsWith(NO_PREFIX_TAG, t);
      case (UuidId(x), UuidId(y)) =>
        AppendStartsWith(UUID_TAG, UuidText(x));
        AppendStartsWith(UUID_TAG, UuidText(y));
        UuidTextInjective(x, y);
      case (BinaryId(x), BinaryId(y)) =>
        AppendStartsWith(BINARY_TAG, HexText(x, true));
        AppendStartsWith(BINARY_TAG, HexText(y, true));
        HexTextInjective(x, y);
      case (UlongId(m), UlongId(n)) =>
        AppendStartsWith(ULONG_TAG, DecimalText(m));
        AppendStartsWith(ULONG_TAG, DecimalText(n));
        DecimalTextInjective(m, n);
      case (NoId, NoId) =>
      case _ =>
        assert false;
    }
  }
}
