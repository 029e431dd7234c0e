/** The two hand-written hexadecimal decoders.  Each repeatedly calls `stoll` on what is left of the
    text, consumes what it read, and stores half as many bytes by shifting the parsed number. */
module HexDecoder {
  import opened Prelude
  import opened NumberText

  /** The decoding loop on what is left of the text, when `room` bytes of the buffer are left.  With
      `dashes` a dash at the front is stepped over, as the UUID decoder does. */
  function DecodePieces(s: string, room: nat, dashes: bool): (r: Result<seq<byte>, Fault>)
    ensures r.Ok? ==> |r.value| <= room
    decreases |s|
  {
    if s == "" then Ok([])
    else if dashes && s[0] == '-' then DecodePieces(s[1..], room, dashes)
    else
      match Stoll16(s)
      case Err(fault) => Err(fault)
      case Ok(scan) =>
        var size := scan.used / 2;
        if size > 8 || size > room then Err(Undefined)
        else
          match DecodePieces(s[scan.used..], room - size, dashes)
          case Err(fault) => Err(fault)
          case Ok(bs) => Ok(BigEndian(scan.value, size) + bs)
  }

  function Zeros(n: nat): (bs: seq<byte>)
    ensures |bs| == n
  {
    seq(n, _ => 0)
  }

  /** The buffer starts out zeroed. */
  function Padded(r: Result<seq<byte>, Fault>, n: nat): (p: Result<seq<byte>, Fault>)
    requires r.Ok? ==> |r.value| <= n
    ensures p.Ok? ==> |p.value| == n
  {
    match r
    case Err(_) => r
    case Ok(bs) => Ok(bs + Zeros(n - |bs|))
  }

  function DecodeBinary(s: string): (r: Result<seq<byte>, Fault>)
    ensures r.Ok? ==> |r.value| == |s| / 2
  {
    if |s| % 2 == 1 then Err(OddLength) else Padded(DecodePieces(s, |s| / 2, false), |s| / 2)
  }

  predicate UuidChar(c: char) {
    IsHexDigit(c) || c == ' '
  }

  /** The pattern's character class lists a space as well as the hex digits. */
  predicate UuidPattern(s: string) {
    && |s| == 36
    && forall k :: 0 <= k < 36 ==>
         if k == 8 || k == 13 || k == 18 || k == 23 then s[k] == '-' else UuidChar(s[k])
  }

  function DecodeUuid(s: string): (r: Result<seq<byte>, Fault>)
    ensures r.Ok? ==> |r.value| == 16
  {
    if !UuidPattern(s) then Err(NotUuid) else Padded(DecodePieces(s, 16, true), 16)
  }

  // ---------------------------------------------------------------- the loops

  /** The inner loop: store `size` bytes of `value` from index `at` on, most significant first. */
  method StoreBytes(buffer: array<byte>, at: nat, value: int, size: nat)
    requires at + size <= buffer.Length && size <= 8
    modifies buffer
    ensures buffer[..at] == old(buffer[..at]) && buffer[at..at + size] == BigEndian(value, size)
    ensures buffer[at + size..] == old(buffer[at + size..])
  {
    hide BigEndian, ShiftRight, Pow;
    var left: nat := size;
    while left > 0
      invariant left <= size
      invariant forall k :: 0 <= k < at || at + size <= k < buffer.Length ==> buffer[k] == old(buffer[k])
      invariant forall k :: 0 <= k < size - left ==> buffer[at + k] == BigEndian(value, size)[k]
    {
      ShiftedByte(value, size, left);
      buffer[at + (size - left)] := ShiftRight(value, 8 * left - 8) % 256;
      left := left - 1;
    }
  }

  /** `value >> bits`, an arithmetic shift, for a whole number of bytes below the width of the type. */
  function ShiftRight(value: int, bits: nat): (r: int)
    requires bits % 8 == 0 && bits < 64
    ensures Pow(256, bits / 8) > 0 && r == value / Pow(256, bits / 8)
  {
    PowMonotone(256, 0, bits / 8);
    value / Pow(256, bits / 8)
  }

  lemma ShiftedByte(value: int, size: nat, left: nat)
    requires 0 < left <= size <= 8
    ensures ShiftRight(value, 8 * left - 8) % 256 == BigEndian(value, size)[size - left]
  {
    BigEndianAt(value, size, size - left);
    assert (8 * left - 8) / 8 == left - 1;
  }

  /** What the rest of a decoding contributes once `done` is in the buffer. */
  function Joined(done: seq<byte>, rest: Result<seq<byte>, Fault>): Result<seq<byte>, Fault> {
    match rest
    case Err(fault) => Err(fault)
    case Ok(bs) => Ok(done + bs)
  }

  lemma JoinedTwice(a: seq<byte>, b: seq<byte>, rest: Result<seq<byte>, Fault>)
    ensures Joined(a + b, rest) == Joined(a, Joined(b, rest))
  {
    if rest.Ok? { assert (a + b) + rest.value == a + (b + rest.value); }
  }

  lemma JoinedNothing(rest: Result<seq<byte>, Fault>)
    ensures Joined([], rest) == rest
  {
    if rest.Ok? { assert [] + rest.value == rest.value; }
  }

  /** The text up to `ptr` has been decoded into `done`. */
  ghost predicate Decoded(s: string, room: nat, dashes: bool, ptr: nat, done: seq<byte>) {
    && ptr <= |s| && |done| <= room
    && DecodePieces(s, room, dashes) == Joined(done, DecodePieces(s[ptr..], room - |done|, dashes))
  }

  lemma DecodedNothing(s: string, room: nat, dashes: bool)
    ensures Decoded(s, room, dashes, 0, [])
  {
    assert s[0..] == s;
    JoinedNothing(DecodePieces(s, room, dashes));
  }

  lemma DecodedDash(s: string, room: nat, ptr: nat, done: seq<byte>)
    requires Decoded(s, room, true, ptr, done) && ptr < |s| && s[ptr] == '-'
    ensures Decoded(s, room, true, ptr + 1, done)
  {
    assert s[ptr..][1..] == s[ptr + 1..];
  }

  lemma FirstPiece(s: string, room: nat, dashes: bool)
    requires s != "" && !(dashes && s[0] == '-')
    ensures DecodePieces(s, room, dashes) ==
              match Stoll16(s)
              case Err(fault) => Err(fault)
              case Ok(scan) =>
                var size := scan.used / 2;
                if size > 8 || size > room then Err(Undefined)
                else Joined(BigEndian(scan.value, size), DecodePieces(s[scan.used..], room - size, dashes))
  {
    hide Stoll16, BigEndian;
  }

  lemma DecodedPiece(s: string, room: nat, dashes: bool, ptr: nat, done: seq<byte>)
    requires Decoded(s, room, dashes, ptr, done) && ptr < |s| && !(dashes && s[ptr] == '-')
    ensures match Stoll16(s[ptr..])
            case Err(fault) => DecodePieces(s, room, dashes) == Err(fault)
            case Ok(scan) =>
              var size := scan.used / 2;
              if size > 8 || |done| + size > room then DecodePieces(s, room, dashes) == Err(Undefined)
              else Decoded(s, room, dashes, ptr + scan.used, done + BigEndian(scan.value, size))
  {
    hide Stoll16, DecodePieces, BigEndian;
    FirstPiece(s[ptr..], room - |done|, dashes);
    match Stoll16(s[ptr..]) {
      case Err(_) =>
      case Ok(scan) =>
        var size := scan.used / 2;
        assert s[ptr..][scan.used..] == s[ptr + scan.used..];
        if size <= 8 && |done| + size <= room {
          JoinedTwice(done, BigEndian(scan.value, size),
                      DecodePieces(s[ptr + scan.used..], room - |done| - size, dashes));
        }
    }
  }

  lemma DecodedAll(s: string, room: nat, dashes: bool, done: seq<byte>)
    requires Decoded(s, room, dashes, |s|, done)
    ensures DecodePieces(s, room, dashes) == Ok(done)
  {
    assert s[|s|..] == "" && done + [] == done;
  }

  /** A piece has been stored behind what was there. */
  lemma PieceStored(before: seq<byte>, after: seq<byte>, out: nat, piece: seq<byte>)
    requires |after| == |before| && out + |piece| <= |before| && before[out..] == Zeros(|before| - out)
    requires after[..out] == before[..out] && after[out..out + |piece|] == piece
    requires after[out + |piece|..] == before[out + |piece|..]
    ensures after[..out + |piece|] == before[..out] + piece
    ensures after[out + |piece|..] == Zeros(|before| - out - |piece|)
  {
    assert before[out + |piece|..] == before[out..][|piece|..];
  }

  method DecodeInto(s: string, buffer: array<byte>, dashes: bool) returns (r: Result<seq<byte>, Fault>)
    requires buffer[..] == Zeros(buffer.Length)
    modifies buffer
    ensures r == Padded(DecodePieces(s, buffer.Length, dashes), buffer.Length)
  {
    hide Stoll16, DecodePieces, Decoded, BigEndian, Zeros;
    var n := buffer.Length;
    var ptr: nat, out: nat := 0, 0;
    DecodedNothing(s, n, dashes);
    assert buffer[..0] == [];
    while ptr < |s|
      invariant ptr <= |s| && out <= n && buffer[out..] == Zeros(n - out)
      invariant Decoded(s, n, dashes, ptr, buffer[..out])
      decreases |s| - ptr
    {
      if dashes && s[ptr] == '-' {
        DecodedDash(s, n, ptr, buffer[..out]);
        ptr := ptr + 1;
      } else {
        DecodedPiece(s, n, dashes, ptr, buffer[..out]);
        var scanned := Stoll16(s[ptr..]);
        if scanned.Err? {
          return Err(scanned.error);
        }
        var value, size := scanned.value.value, scanned.value.used / 2;
        if size > 8 || out + size > n {
          return Err(Undefined);
        }
        ghost var before := buffer[..];
        StoreBytes(buffer, out, value, size);
        PieceStored(before, buffer[..], out, BigEndian(value, size));
        ptr, out := ptr + scanned.value.used, out + size;
      }
    }
    DecodedAll(s, n, dashes, buffer[..out]);
    assert buffer[..] == buffer[..out] + Zeros(n - out);
    r := Ok(buffer[..]);
  }

  method HexStringToBinaryArray(s: string) returns (r: Result<seq<byte>, Fault>)
    ensures r == DecodeBinary(s)
  {
    if |s| % 2 == 1 {
      return Err(OddLength);
    }
    var buffer := new byte[|s| / 2](_ => 0);
    assert buffer[..] == Zeros(|s| / 2);
    r := DecodeInto(s, buffer, false);
  }

  method HexStringToArray(s: string) returns (r: Result<seq<byte>, Fault>)
    ensures r == DecodeUuid(s)
  {
    if !UuidPattern(s) {
      return Err(NotUuid);
    }
    var buffer := new byte[16](_ => 0);
    assert buffer[..] == Zeros(16);
    r := DecodeInto(s, buffer, true);
  }

  method BinaryArrayToHexString(bs: seq<byte>) returns (s: string)
    ensures s == HexText(bs, true)
    ensures |s| == 2 * |bs|
    ensures forall k :: 0 <= k < |bs| ==>
              s[2 * k] == UPPER_DIGITS[bs[k] / 16] && s[2 * k + 1] == UPPER_DIGITS[bs[k] % 16]
  {
    s := "";
    for k := 0 to |bs|
      invariant s == HexText(bs[..k], true)
    {
      assert bs[..k + 1][..k] == bs[..k];
      s := s + [HexDigit(bs[k] / 16, true), HexDigit(bs[k] % 16, true)];
    }
    assert bs[..|bs|] == bs;
    forall k | 0 <= k < |bs|
      ensures s[2 * k] == UPPER_DIGITS[bs[k] / 16] && s[2 * k + 1] == UPPER_DIGITS[bs[k] % 16]
    {
      HexTextAt(bs, true, k);
    }
  }

  // ---------------------------------------------------------------- what they decode

  /** One `stoll` call on a run of digits. */
  lemma PieceOfDigits(s: string, rest: string, room: nat, dashes: bool)
    requires AllHex(s) && s != "" && |s| % 2 == 0 && (rest == "" || rest[0] == '-')
    requires |s| / 2 <= room
    ensures DecodePieces(s + rest, room, dashes) ==
              if HexValue(s) >= INT64_LIMIT then Err(OutOfRange)
              else if |s| > 16 then Err(Undefined)
              else Joined(HexBytes(s), DecodePieces(rest, room - |s| / 2, dashes))
  {
    hide Stoll16, HexBytes, HexValue;
    StollReadsDigits(s, rest);
    StoredBytesAreTheDigitPairs(s);
    assert (s + rest)[0] == s[0] && (s + rest)[|s|..] == rest;
  }

  /** The binary decoder on hex digits, exactly. */
  lemma BinaryDecodesExactly(s: string)
    requires AllHex(s) && |s| % 2 == 0
    ensures DecodeBinary(s) ==
              if HexValue(s) >= INT64_LIMIT then Err(OutOfRange)
              else if |s| > 16 then Err(Undefined)
              else Ok(HexBytes(s))
  {
    if s == "" {
      assert [] + Zeros(0) == [];
    } else {
      PieceOfDigits(s, "", |s| / 2, false);
      assert s + "" == s;
      assert HexBytes(s) + [] == HexBytes(s) && HexBytes(s) + Zeros(0) == HexBytes(s);
    }
  }

  /** Bytes that fit: at most eight of them, and as a number below 2^63. */
  predicate FitsLongLong(bs: seq<byte>) {
    |bs| <= 8 && (|bs| == 8 ==> bs[0] < 128)
  }

  lemma {:induction false} FirstHexDigit(bs: seq<byte>, upper: bool)
    requires bs != []
    ensures HexDigitValue(HexText(bs, upper)[0]) == bs[0] / 16
  {
    var t := HexText(bs[..|bs| - 1], upper);
    if |bs| > 1 {
      FirstHexDigit(bs[..|bs| - 1], upper);
      assert HexText(bs, upper)[0] == t[0];
    }
  }

  /** The binary decoder inverts the hex printer exactly on the bytes that fit. */
  lemma BinaryRoundTripsIffFits(bs: seq<byte>)
    ensures DecodeBinary(HexText(bs, true)) == Ok(bs) <==> FitsLongLong(bs)
    ensures DecodeBinary(HexText(bs, true)).Ok? ==> FitsLongLong(bs)
  {
    var s := HexText(bs, true);
    BinaryDecodesExactly(s);
    HexBytesInvertsHexText(bs, true);
    if |bs| <= 8 {
      FitsInt64(s);
      if |bs| == 8 { FirstHexDigit(bs, true); }
    }
  }

  // ---------------------------------------------------------------- UUID text

  /** The canonical text of section 3 of RFC 4122: five groups of lower-case digits. */
  function UuidText(bs: seq<byte>): (s: string)
    requires |bs| == 16
    ensures |s| == 36
  {
    HexText(bs[..4], false) + "-" + HexText(bs[4..6], false) + "-" + HexText(bs[6..8], false) + "-"
    + HexText(bs[8..10], false) + "-" + HexText(bs[10..], false)
  }

  predicate LowerHexOrDash(s: string) {
    forall k :: 0 <= k < |s| ==> '0' <= s[k] <= '9' || 'a' <= s[k] <= 'f' || s[k] == '-'
  }

  lemma HexTextIsLower(bs: seq<byte>)
    ensures LowerHexOrDash(HexText(bs, false)) && '-' !in HexText(bs, false)
  {
    hide HexText;
    HexTextCase(bs, false);
    var s := HexText(bs, false);
    assert forall k :: 0 <= k < |s| ==> s[k] in s;
  }

  /** Lower-case digits, with dashes behind eight, twelve, sixteen and twenty of them. */
  lemma UuidTextIsLower(bs: seq<byte>)
    requires |bs| == 16
    ensures LowerHexOrDash(UuidText(bs))
    ensures forall k :: 0 <= k < 36 ==> (UuidText(bs)[k] == '-' <==> k == 8 || k == 13 || k == 18 || k == 23)
  {
    hide HexText;
    HexTextIsLower(bs[..4]);
    HexTextIsLower(bs[4..6]);
    HexTextIsLower(bs[6..8]);
    HexTextIsLower(bs[8..10]);
    HexTextIsLower(bs[10..]);
  }

  /** Five groups of hex digits, in either case, joined by dashes. */
  predicate IsUuidText(g: seq<string>) {
    && |g| == 5 && |g[0]| == 8 && |g[1]| == 4 && |g[2]| == 4 && |g[3]| == 4 && |g[4]| == 12
    && forall k :: 0 <= k < 5 ==> AllHex(g[k])
  }

  function JoinGroups(g: seq<string>): string
    requires |g| == 5
  {
    g[0] + ("-" + (g[1] + ("-" + (g[2] + ("-" + (g[3] + ("-" + g[4])))))))
  }

  function GroupBytes(g: seq<string>): seq<byte>
    requires IsUuidText(g)
  {
    HexBytes(g[0]) + (HexBytes(g[1]) + (HexBytes(g[2]) + (HexBytes(g[3]) + HexBytes(g[4]))))
  }

  lemma GroupThenDash(s: string, rest: string, room: nat)
    requires AllHex(s) && s != "" && |s| % 2 == 0 && |s| < 16 && |s| / 2 <= room
    ensures DecodePieces(s + ("-" + rest), room, true)
         == Joined(HexBytes(s), DecodePieces(rest, room - |s| / 2, true))
  {
    FitsInt64(s);
    PieceOfDigits(s, "-" + rest, room, true);
    assert ("-" + rest)[1..] == rest;
  }

  lemma JoinedMatchesPattern(g: seq<string>)
    requires IsUuidText(g)
    ensures UuidPattern(JoinGroups(g))
  {}

  /** Every 8-4-4-4-12 text of hex digits decodes to the sixteen bytes it spells, with no store outside
      the array. */
  lemma UuidDecodes(g: seq<string>)
    requires IsUuidText(g)
    ensures DecodeUuid(JoinGroups(g)) == Ok(GroupBytes(g))
  {
    JoinedMatchesPattern(g);
    GroupsDecode(g);
    hide DecodePieces, UuidPattern, JoinGroups, HexBytes;
    assert GroupBytes(g) + Zeros(0) == GroupBytes(g);
  }

  lemma LastGroup(s: string)
    requires AllHex(s) && |s| == 12
    ensures DecodePieces(s, 6, true) == Ok(HexBytes(s))
  {
    hide AllHex, HexBytes, HexValue, DecodePieces;
    FitsInt64(s);
    PieceOfDigits(s, "", 6, true);
    assert s + "" == s;
    NothingLeft(HexBytes(s));
  }

  lemma NothingLeft(bs: seq<byte>)
    ensures Joined(bs, DecodePieces("", 0, true)) == Ok(bs)
  {
    assert bs + [] == bs;
  }

  lemma GroupsDecode(g: seq<string>)
    requires IsUuidText(g)
    ensures DecodePieces(JoinGroups(g), 16, true) == Ok(GroupBytes(g)) && |GroupBytes(g)| == 16
  {
    hide AllHex, HexBytes, DecodePieces;
    var t4 := g[4];
    var t3 := g[3] + ("-" + t4);
    var t2 := g[2] + ("-" + t3);
    var t1 := g[1] + ("-" + t2);
    GroupThenDash(g[0], t1, 16);
    GroupThenDash(g[1], t2, 12);
    GroupThenDash(g[2], t3, 10);
    GroupThenDash(g[3], t4, 8);
    LastGroup(t4);
  }

  /** What the pattern lets through: that shape, and blanks in place of digits. */
  lemma UuidShapes(s: string)
    ensures DecodeUuid(s) != Err(NotUuid) <==>
              && |s| == 36 && s[8] == s[13] == s[18] == s[23] == '-'
              && forall k :: 0 <= k < 36 && k != 8 && k != 13 && k != 18 && k != 23 ==> IsHexDigit(s[k]) || s[k] == ' '
  {
    hide DecodePieces, IsHexDigit;
    NoOtherOddLength(s, 16, true);
  }

  /** An odd number of characters never decodes. */
  lemma OddTextIsRefused(s: string)
    ensures |s| % 2 == 1 <==> DecodeBinary(s) == Err(OddLength)
  {
    if |s| % 2 == 0 { NoOtherOddLength(s, |s| / 2, false); }
  }

  lemma {:induction false} NoOtherOddLength(s: string, room: nat, dashes: bool)
    ensures DecodePieces(s, room, dashes) != Err(OddLength) && DecodePieces(s, room, dashes) != Err(NotUuid)
    decreases |s|
  {
    hide Stoll16, BigEndian;
    StollFaults(s);
    if s != "" && dashes && s[0] == '-' {
      NoOtherOddLength(s[1..], room, dashes);
    } else if s != "" && Stoll16(s).Ok? {
      var scan := Stoll16(s).value;
      if scan.used / 2 <= room { NoOtherOddLength(s[scan.used..], room - scan.used / 2, dashes); }
    }
  }

  lemma StollFaults(s: string)
    ensures Stoll16(s) != Err(OddLength) && Stoll16(s) != Err(NotUuid)
  {
    hide SpaceRun, SignRun, RadixMark, HexRun, HexValue;
  }

  function UuidGroups(bs: seq<byte>): (g: seq<string>)
    requires |bs| == 16
    ensures IsUuidText(g)
  {
    [HexText(bs[..4], false), HexText(bs[4..6], false), HexText(bs[6..8], false),
     HexText(bs[8..10], false), HexText(bs[10..], false)]
  }

  lemma FiveParts(bs: seq<byte>)
    requires |bs| == 16
    ensures bs[..4] + (bs[4..6] + (bs[6..8] + (bs[8..10] + bs[10..]))) == bs
  {
    assert bs[8..10] + bs[10..] == bs[8..];
    assert bs[6..8] + bs[8..] == bs[6..];
    assert bs[4..6] + bs[6..] == bs[4..];
    assert bs[..4] + bs[4..] == bs;
  }

  lemma UuidGroupsSpellTheBytes(bs: seq<byte>)
    requires |bs| == 16
    ensures GroupBytes(UuidGroups(bs)) == bs
  {
    hide HexBytes, HexText;
    HexBytesInvertsHexText(bs[..4], false);
    HexBytesInvertsHexText(bs[4..6], false);
    HexBytesInvertsHexText(bs[6..8], false);
    HexBytesInvertsHexText(bs[8..10], false);
    HexBytesInvertsHexText(bs[10..], false);
    FiveParts(bs);
  }

  /** The decoder inverts the canonical printer on all sixteen-byte values. */
  lemma UuidRoundTrips(bs: seq<byte>)
    requires |bs| == 16
    ensures DecodeUuid(UuidText(bs)) == Ok(bs)
  {
    var g := UuidGroups(bs);
    assert UuidText(bs) == JoinGroups(g);
    UuidDecodes(g);
    UuidGroupsSpellTheBytes(bs);
  }

  /** And the canonical text of what was decoded is the text that was given, in lower case. */
  lemma UuidTextOfDecoded(g: seq<string>)
    requires IsUuidText(g)
    ensures |GroupBytes(g)| == 16
    ensures UuidText(GroupBytes(g)) == JoinGroups(seq(5, k requires 0 <= k < 5 => Recase(g[k], false)))
  {
    hide HexBytes, HexText;
    var bs := GroupBytes(g);
    GroupSlices(g);
    HexTextInvertsHexBytes(g[0], false);
    HexTextInvertsHexBytes(g[1], false);
    HexTextInvertsHexBytes(g[2], false);
    HexTextInvertsHexBytes(g[3], false);
    HexTextInvertsHexBytes(g[4], false);
    assert UuidText(bs) == JoinGroups(UuidGroups(bs));
  }

  lemma GroupSlices(g: seq<string>)
    requires IsUuidText(g)
    ensures var bs := GroupBytes(g);
            && |bs| == 16
            && bs[..4] == HexBytes(g[0]) && bs[4..6] == HexBytes(g[1]) && bs[6..8] == HexBytes(g[2])
            && bs[8..10] == HexBytes(g[3]) && bs[10..] == HexBytes(g[4])
  {
    var b4 := HexBytes(g[4]);
    var b3 := HexBytes(g[3]) + b4;
    var b2 := HexBytes(g[2]) + b3;
    var b1 := HexBytes(g[1]) + b2;
    var bs := HexBytes(g[0]) + b1;
    assert bs[4..] == b1;
    assert bs[6..] == b1[2..] == b2;
    assert bs[8..] == b2[2..] == b3;
    assert bs[10..] == b3[2..] == b4;
    assert bs[4..6] == b1[..2] && bs[6..8] == b2[..2] && bs[8..10] == b3[..2];
  }
}
