/** Digits, hexadecimal text, and the C conversions `stoll` and `stoul`. */
module NumberText {
  import opened Prelude

  type byte = b: int | 0 <= b < 256

  /** What a conversion throws.  `Undefined` stands for an operation the language leaves undefined: a
      shift by the width of the type or more, or a store past the end of a buffer. */
  datatype Fault = InvalidArgument | OutOfRange | OddLength | NotUuid | Undefined

  const INT64_LIMIT := 0x8000_0000_0000_0000

  function Pow(b: nat, e: nat): nat {
    if e == 0 then 1 else b * Pow(b, e - 1)
  }

  // ---------------------------------------------------------------- base 256

  /** The low `k` bytes of `n`, most significant first. */
  function BigEndian(n: int, k: nat): (bs: seq<byte>)
    ensures |bs| == k
    decreases k
  {
    if k == 0 then [] else BigEndian(n / 256, k - 1) + [n % 256]
  }

  lemma MultipleBelow(d: nat, x: int, r: int)
    requires d > 0 && d * x == r && -(d as int) < r < d
    ensures x == 0
  {
    assert x >= 1 ==> d * x >= d;
    assert x <= -1 ==> d * x <= -(d as int);
  }

  lemma QuotientIsUnique(n: int, d: nat, q: int, r: nat)
    requires d > 0 && n == d * q + r && r < d
    ensures n / d == q && n % d == r
  {
    var q', r' := n / d, n % d;
    assert n == d * q' + r' && 0 <= r' < d;
    assert d * (q' - q) == d * q' - d * q == r - r';
    MultipleBelow(d, q' - q, r - r');
  }

  lemma DivideTwice(n: int, b: nat)
    requires b > 0
    ensures (n / 256) / b == n / (256 * b)
  {
    var q, r := n / 256, n % 256;
    var s, t := q / b, q % b;
    var bs := b * s;
    assert q == bs + t && n == 256 * bs + (256 * t + r);
    assert 256 * bs == (256 * b) * s;
    QuotientIsUnique(n, 256 * b, s, 256 * t + r);
  }

  lemma DivideTwiceBy10(n: int, b: nat)
    requires b > 0
    ensures (n / 10) / b == n / (10 * b)
  {
    var q, r := n / 10, n % 10;
    var s, t := q / b, q % b;
    var bs := b * s;
    assert q == bs + t && n == 10 * bs + (10 * t + r);
    assert 10 * bs == (10 * b) * s;
    QuotientIsUnique(n, 10 * b, s, 10 * t + r);
  }

  /** The byte that the store loop writes at index `i`: the value shifted right by the bytes behind it. */
  lemma {:induction false} BigEndianAt(n: int, k: nat, i: nat)
    requires i < k
    ensures Pow(256, k - 1 - i) > 0 && BigEndian(n, k)[i] == n / Pow(256, k - 1 - i) % 256
    decreases k
  {
    if i < k - 1 {
      BigEndianAt(n / 256, k - 1, i);
      DivideTwice(n, Pow(256, k - 2 - i));
    }
  }

  // ---------------------------------------------------------------- hexadecimal

  predicate IsHexDigit(c: char) {
    '0' <= c <= '9' || 'a' <= c <= 'f' || 'A' <= c <= 'F'
  }

  predicate AllHex(s: string) {
    forall k :: 0 <= k < |s| ==> IsHexDigit(s[k])
  }

  function HexDigitValue(c: char): (v: nat)
    requires IsHexDigit(c)
    ensures v < 16
  {
    if c <= '9' then c as int - '0' as int
    else if c <= 'F' then c as int - 'A' as int + 10
    else c as int - 'a' as int + 10
  }

  function HexDigit(v: nat, upper: bool): (c: char)
    requires v < 16
    ensures IsHexDigit(c) && HexDigitValue(c) == v
  {
    if v < 10 then ('0' as int + v) as char
    else if upper then ('A' as int + v - 10) as char
    else ('a' as int + v - 10) as char
  }

  const UPPER_DIGITS := "0123456789ABCDEF"
  const LOWER_DIGITS := "0123456789abcdef"

  /** The digit of a value, and the value of a digit, character by character. */
  lemma HexDigitIs(v: nat)
    requires v < 16
    ensures HexDigit(v, true) == UPPER_DIGITS[v] && HexDigit(v, false) == LOWER_DIGITS[v]
    ensures IsHexDigit(UPPER_DIGITS[v]) && HexDigitValue(UPPER_DIGITS[v]) == v
    ensures IsHexDigit(LOWER_DIGITS[v]) && HexDigitValue(LOWER_DIGITS[v]) == v
  {}

  function HexValue(s: string): nat
    requires AllHex(s)
  {
    if s == "" then 0 else 16 * HexValue(s[..|s| - 1]) + HexDigitValue(s[|s| - 1])
  }

  /** Two digits a byte, as `setw(2) << setfill('0') << hex` prints them. */
  function HexText(bs: seq<byte>, upper: bool): (s: string)
    ensures |s| == 2 * |bs| && AllHex(s)
  {
    if bs == [] then ""
    else
      var b := bs[|bs| - 1];
      HexText(bs[..|bs| - 1], upper) + [HexDigit(b / 16, upper), HexDigit(b % 16, upper)]
  }

  /** Byte `k` is printed as its high and its low digit, in the case that was asked for. */
  lemma {:induction false} HexTextAt(bs: seq<byte>, upper: bool, k: nat)
    requires k < |bs|
    ensures var digits := if upper then UPPER_DIGITS else LOWER_DIGITS;
            HexText(bs, upper)[2 * k] == digits[bs[k] / 16] && HexText(bs, upper)[2 * k + 1] == digits[bs[k] % 16]
    decreases |bs|
  {
    hide HexDigit;
    var n := |bs| - 1;
    if k < n {
      HexTextAt(bs[..n], upper, k);
    } else {
      HexDigitIs(bs[k] / 16);
      HexDigitIs(bs[k] % 16);
    }
  }

  /** No letter of the other case is ever printed. */
  lemma HexTextCase(bs: seq<byte>, upper: bool)
    ensures forall c :: c in HexText(bs, upper) ==>
              '0' <= c <= '9' || (if upper then 'A' <= c <= 'F' else 'a' <= c <= 'f')
  {
    hide HexText;
    var s := HexText(bs, upper);
    forall i | 0 <= i < |s|
      ensures '0' <= s[i] <= '9' || (if upper then 'A' <= s[i] <= 'F' else 'a' <= s[i] <= 'f')
    {
      HexTextAt(bs, upper, i / 2);
      assert i == 2 * (i / 2) || i == 2 * (i / 2) + 1;
    }
  }

  /** The bytes that an even number of hex digits spells, pair by pair. */
  function HexBytes(s: string): (bs: seq<byte>)
    requires AllHex(s) && |s| % 2 == 0
    ensures |bs| == |s| / 2
  {
    if s == "" then []
    else
      HexBytes(s[..|s| - 2]) + [16 * HexDigitValue(s[|s| - 2]) + HexDigitValue(s[|s| - 1])]
  }

  lemma HexBytesOfNothing()
    ensures HexBytes("") == []
  {}

  lemma HexBytesOfLonger(s: string, t: string)
    requires AllHex(s) && AllHex(t) && |s| == |t| + 2 && |t| % 2 == 0 && s[..|t|] == t
    ensures HexBytes(s) == HexBytes(t) + [16 * HexDigitValue(s[|t|]) + HexDigitValue(s[|t| + 1])]
  {}

  lemma HexTextSnoc(bs: seq<byte>, b: byte, upper: bool)
    ensures HexText(bs + [b], upper) == HexText(bs, upper) + [HexDigit(b / 16, upper), HexDigit(b % 16, upper)]
  {
    assert (bs + [b])[..|bs|] == bs;
  }

  lemma {:induction false} HexBytesInvertsHexText(bs: seq<byte>, upper: bool)
    ensures HexBytes(HexText(bs, upper)) == bs
  {
    hide HexDigitValue, IsHexDigit, HexDigit, HexBytes;
    if bs == [] {
      HexBytesOfNothing();
    } else {
      var n := |bs| - 1;
      HexBytesInvertsHexText(bs[..n], upper);
      HexBytesOfLonger(HexText(bs, upper), HexText(bs[..n], upper));
      assert bs == bs[..n] + [bs[n]];
    }
  }

  /** The digit with its case normalised. */
  function Recase(s: string, upper: bool): (t: string)
    requires AllHex(s)
    ensures |t| == |s| && AllHex(t)
  {
    seq(|s|, k requires 0 <= k < |s| => HexDigit(HexDigitValue(s[k]), upper))
  }

  lemma {:induction false} HexTextInvertsHexBytes(s: string, upper: bool)
    requires AllHex(s) && |s| % 2 == 0
    ensures HexText(HexBytes(s), upper) == Recase(s, upper)
  {
    hide HexDigitValue, IsHexDigit, HexDigit, HexText;
    if s != "" {
      var t := s[..|s| - 2];
      HexTextInvertsHexBytes(t, upper);
      var high, low := HexDigitValue(s[|s| - 2]), HexDigitValue(s[|s| - 1]);
      HexTextSnoc(HexBytes(t), 16 * high + low, upper);
      assert (16 * high + low) / 16 == high && (16 * high + low) % 16 == low;
      assert Recase(s, upper) == Recase(t, upper) + [HexDigit(high, upper), HexDigit(low, upper)];
    }
  }

  /** The shift-and-store loop applied to the parsed number spells the digit pairs again, for any
      number of digits. */
  lemma {:induction false} StoredBytesAreTheDigitPairs(s: string)
    requires AllHex(s) && |s| % 2 == 0
    ensures BigEndian(HexValue(s), |s| / 2) == HexBytes(s)
  {
    if s != "" {
      var t := s[..|s| - 2];
      StoredBytesAreTheDigitPairs(t);
      var high, low := HexDigitValue(s[|s| - 2]), HexDigitValue(s[|s| - 1]);
      assert s[..|s| - 1][..|s| - 2] == t;
      assert HexValue(s) == 256 * HexValue(t) + (16 * high + low);
      QuotientIsUnique(HexValue(s), 256, HexValue(t), 16 * high + low);
    }
  }

  lemma {:induction false} HexValueBound(s: string)
    requires AllHex(s)
    ensures HexValue(s) < Pow(16, |s|)
  {
    if s != "" { HexValueBound(s[..|s| - 1]); }
  }

  lemma {:induction false} HexValueCons(c: char, t: string)
    requires IsHexDigit(c) && AllHex(t)
    ensures HexValue([c] + t) == HexDigitValue(c) * Pow(16, |t|) + HexValue(t)
    decreases |t|
  {
    var n := |t|;
    var s := [c] + t;
    if n == 0 {
      assert s[..0] == "";
    } else {
      var u := t[..n - 1];
      assert s[..n] == [c] + u;
      HexValueCons(c, u);
      ScaleBy16(HexDigitValue(c), Pow(16, n - 1));
    }
  }

  lemma ScaleBy16(d: nat, p: nat)
    ensures 16 * (d * p) == d * (16 * p)
  {}

  lemma Pow16Of16()
    ensures Pow(16, 15) == 0x1000_0000_0000_0000 && Pow(16, 14) == 0x100_0000_0000_0000
  {
    assert Pow(16, 4) == 0x1_0000;
    assert Pow(16, 8) == 0x1_0000_0000;
    assert Pow(16, 12) == 0x1_0000_0000_0000;
  }

  lemma {:induction false} PowMonotone(b: nat, e: nat, f: nat)
    requires b >= 1 && e <= f
    ensures 1 <= Pow(b, e) <= Pow(b, f)
    decreases f
  {
    if f > 0 {
      if e == f { PowMonotone(b, e - 1, f - 1); } else { PowMonotone(b, e, f - 1); }
      if e > 0 { PowMonotone(b, e - 1, f - 1); }
    }
  }

  /** Up to sixteen digits, a value fits a signed 64-bit integer exactly when there are fewer than
      sixteen of them or the leading one is below eight. */
  lemma FitsInt64(s: string)
    requires AllHex(s) && |s| <= 16
    ensures HexValue(s) < INT64_LIMIT <==> (|s| < 16 || HexDigitValue(s[0]) < 8)
  {
    Pow16Of16();
    if |s| < 16 {
      HexValueBound(s);
      PowMonotone(16, |s|, 15);
    } else {
      assert s == [s[0]] + s[1..];
      HexValueCons(s[0], s[1..]);
      HexValueBound(s[1..]);
    }
  }

  // ---------------------------------------------------------------- stoll(text, &used, 16)

  datatype Scan = Scan(value: int, used: nat)

  predicate IsSpace(c: char) {
    c == ' ' || 9 <= c as int <= 13
  }

  function SpaceRun(s: string): (n: nat)
    ensures n <= |s|
  {
    if s != "" && IsSpace(s[0]) then 1 + SpaceRun(s[1..]) else 0
  }

  /** The length of the leading run of hex digits. */
  function HexRun(s: string): (n: nat)
    ensures n <= |s| && AllHex(s[..n]) && (n < |s| ==> !IsHexDigit(s[n]))
  {
    if s != "" && IsHexDigit(s[0]) then
      assert forall k :: 0 < k < 1 + HexRun(s[1..]) ==> s[k] == s[1..][..HexRun(s[1..])][k - 1];
      1 + HexRun(s[1..])
    else 0
  }

  function SignRun(s: string): (n: nat)
    ensures n <= |s| && n <= 1
  {
    if s != "" && (s[0] == '+' || s[0] == '-') then 1 else 0
  }

  function RadixMark(s: string): (n: nat)
    ensures n <= |s|
  {
    if |s| >= 3 && s[0] == '0' && (s[1] == 'x' || s[1] == 'X') && IsHexDigit(s[2]) then 2 else 0
  }

  /** The number must fit a signed 64-bit integer. */
  function StollValue(digits: string, negative: bool, used: nat): (r: Result<Scan, Fault>)
    requires AllHex(digits)
    ensures r.Ok? ==> digits != "" && r.value.used == used
  {
    if digits == "" then Err(InvalidArgument)
    else
      var m: int := HexValue(digits);
      var v := if negative then -m else m;
      if -INT64_LIMIT <= v < INT64_LIMIT then Ok(Scan(v, used)) else Err(OutOfRange)
  }

  /** What is behind the sign, `skipped` characters having been passed: a radix mark, and the digits. */
  function StollBody(t: string, negative: bool, skipped: nat): (r: Result<Scan, Fault>)
    ensures r.Ok? ==> skipped < r.value.used <= skipped + |t|
  {
    var x := RadixMark(t);
    var n := HexRun(t[x..]);
    StollValue(t[x..][..n], negative, skipped + x + n)
  }

  /** White space and a sign are skipped. */
  function Stoll16(s: string): (r: Result<Scan, Fault>)
    ensures r.Ok? ==> 0 < r.value.used <= |s|
  {
    var w := SpaceRun(s);
    var g := w + SignRun(s[w..]);
    StollBody(s[g..], g > w && s[w] == '-', g)
  }

  // ---------------------------------------------------------------- what the conversions skip

  /** Blanks, tabs, line breaks, and the vertical tab and the form feed. */
  predicate AllSpaces(s: string) {
    forall k :: 0 <= k < |s| ==> s[k] in {' ', '\t', '\n', '\U{B}', '\U{C}', '\r'}
  }

  /** At most a plus or a minus sign. */
  predicate IsSign(s: string) {
    |s| == 0 || (|s| == 1 && (s[0] == '+' || s[0] == '-'))
  }

  predicate IsMinus(s: string) {
    |s| == 1 && s[0] == '-'
  }

  /** The mark of a hexadecimal number, or nothing. */
  predicate IsMark(s: string) {
    |s| == 0 || (|s| == 2 && s[0] == '0' && (s[1] == 'x' || s[1] == 'X'))
  }

  /** Neither a digit nor part of a mark follows. */
  predicate EndsHex(rest: string) {
    |rest| == 0 || (!IsHexDigit(rest[0]) && rest[0] != 'x' && rest[0] != 'X')
  }

  /** What can follow the part that is skipped. */
  predicate StopsSkipping(t: string) {
    t == "" || (t[0] !in {' ', '\t', '\n', '\U{B}', '\U{C}', '\r'} && t[0] != '+' && t[0] != '-')
  }

  lemma {:induction false} SpacesSkipped(spaces: string, t: string)
    requires AllSpaces(spaces) && (t == "" || !IsSpace(t[0]))
    ensures SpaceRun(spaces + t) == |spaces| && (spaces + t)[|spaces|..] == t
    decreases |spaces|
  {
    if spaces == "" {
      assert spaces + t == t;
    } else {
      assert (spaces + t)[0] == spaces[0] && IsSpace(spaces[0]) && (spaces + t)[1..] == spaces[1..] + t;
      SpacesSkipped(spaces[1..], t);
    }
  }

  /** White space is skipped, then a sign. */
  lemma Skipped(spaces: string, sign: string, t: string)
    requires AllSpaces(spaces) && IsSign(sign) && StopsSkipping(t)
    ensures var s := spaces + (sign + t);
            && SpaceRun(s) == |spaces| && s[|spaces|..] == sign + t
            && SignRun(sign + t) == |sign| && s[|spaces| + |sign|..] == t
            && (IsMinus(sign) <==> |sign| > 0 && s[|spaces|] == '-')
  {
    SpacesSkipped(spaces, sign + t);
    assert (sign + t)[|sign|..] == t;
    assert |sign| > 0 ==> (spaces + (sign + t))[|spaces|] == sign[0];
  }

  lemma StollSkips(spaces: string, sign: string, t: string)
    requires AllSpaces(spaces) && IsSign(sign) && StopsSkipping(t)
    ensures Stoll16(spaces + (sign + t)) == StollBody(t, IsMinus(sign), |spaces| + |sign|)
  {
    Skipped(spaces, sign, t);
    hide AllSpaces, IsSign, IsMinus, StopsSkipping, SpaceRun, SignRun, StollBody, Stoll16;
    StollParts(spaces + (sign + t), |spaces|, |spaces| + |sign|, t, IsMinus(sign));
  }

  lemma StollParts(whole: string, w: nat, g: nat, t: string, negative: bool)
    requires SpaceRun(whole) == w <= g <= |whole| && SignRun(whole[w..]) == g - w && whole[g..] == t
    requires negative <==> g > w && whole[w] == '-'
    ensures Stoll16(whole) == StollBody(t, negative, g)
  {
    hide SpaceRun, SignRun, StollBody;
  }

  lemma StollBodyIs(mark: string, s: string, rest: string, negative: bool, skipped: nat)
    requires IsMark(mark) && |s| > 0 && AllHex(s) && EndsHex(rest)
    ensures StollBody(mark + (s + rest), negative, skipped) == StollValue(s, negative, skipped + |mark| + |s|)
  {
    MarkSkipped(mark, s, rest);
    HexRunStops(s, rest);
    hide AllHex, IsHexDigit, IsMark, EndsHex, RadixMark, HexRun, StollBody, StollValue, HexValue;
    BodyParts(mark + (s + rest), |mark|, s + rest, s, negative, skipped);
  }

  lemma BodyParts(t: string, x: nat, u: string, s: string, negative: bool, skipped: nat)
    requires RadixMark(t) == x <= |t| && t[x..] == u && HexRun(u) == |s| <= |u| && u[..|s|] == s && AllHex(s)
    ensures StollBody(t, negative, skipped) == StollValue(s, negative, skipped + x + |s|)
  {
    hide AllHex, RadixMark, HexRun, StollValue;
  }

  lemma StollValueOf(s: string, negative: bool, used: nat)
    requires |s| > 0 && AllHex(s)
    ensures var v: int := if negative then -(HexValue(s) as int) else HexValue(s);
            StollValue(s, negative, used) ==
              if -0x8000_0000_0000_0000 <= v < 0x8000_0000_0000_0000 then Ok(Scan(v, used)) else Err(OutOfRange)
  {
    hide HexValue, AllHex;
  }

  lemma MarkedStops(mark: string, s: string, rest: string)
    requires IsMark(mark) && |s| > 0 && AllHex(s)
    ensures StopsSkipping(mark + (s + rest))
  {
    assert (mark + (s + rest))[0] == if |mark| == 0 then s[0] else '0';
    assert IsHexDigit(s[0]);
  }

  lemma MarkSkipped(mark: string, s: string, rest: string)
    requires IsMark(mark) && |s| > 0 && AllHex(s) && EndsHex(rest)
    ensures RadixMark(mark + (s + rest)) == |mark| && (mark + (s + rest))[|mark|..] == s + rest
  {
    var t := mark + (s + rest);
    if |mark| == 0 {
      assert t == s + rest;
      if |t| >= 2 { assert t[1] == if |s| >= 2 then s[1] else rest[0]; assert |s| >= 2 ==> IsHexDigit(s[1]); }
    } else {
      assert t[0] == '0' && t[1] == mark[1] && t[2] == s[0];
    }
  }

  lemma NothingInFront(t: string)
    ensures "" + ("" + ("" + t)) == t
  {}

  /** Hex digits that are not continued: all of them are read, behind white space, a sign, and `0x`. */
  lemma StollReads(spaces: string, sign: string, mark: string, s: string, rest: string)
    requires AllSpaces(spaces) && IsSign(sign) && IsMark(mark) && |s| > 0 && AllHex(s) && EndsHex(rest)
    ensures Stoll16(spaces + (sign + (mark + (s + rest)))) ==
              StollValue(s, IsMinus(sign), |spaces| + |sign| + |mark| + |s|)
  {
    hide AllSpaces, IsSign, IsMinus, IsMark, EndsHex, AllHex, IsHexDigit, StopsSkipping, StollBody, Stoll16, StollValue;
    MarkedStops(mark, s, rest);
    StollSkips(spaces, sign, mark + (s + rest));
    StollBodyIs(mark, s, rest, IsMinus(sign), |spaces| + |sign|);
  }

  /** Where no digit follows, `stoll` throws. */
  lemma StollNeedsDigits(spaces: string, sign: string, rest: string)
    requires AllSpaces(spaces) && IsSign(sign) && StopsSkipping(rest) && (|rest| == 0 || !IsHexDigit(rest[0]))
    ensures Stoll16(spaces + (sign + rest)) == Err(InvalidArgument)
  {
    StollSkips(spaces, sign, rest);
    assert rest[0..] == rest;
    hide AllSpaces, Stoll16;
  }

  /** On a run of digits that is not continued, `stoll` reads all of it. */
  lemma StollReadsDigits(s: string, rest: string)
    requires s != "" && AllHex(s) && (rest == "" || rest[0] == '-')
    ensures Stoll16(s + rest) == if HexValue(s) < INT64_LIMIT then Ok(Scan(HexValue(s), |s|)) else Err(OutOfRange)
  {
    hide AllHex, HexValue, Stoll16, StollValue;
    StollReads("", "", "", s, rest);
    NothingInFront(s + rest);
    StollValueOf(s, false, |s|);
  }

  lemma HexRunStops(s: string, rest: string)
    requires AllHex(s) && (rest == "" || !IsHexDigit(rest[0]))
    ensures HexRun(s + rest) == |s| && (s + rest)[..|s|] == s
  {
    var t := s + rest;
    var n := HexRun(t);
    assert t[..|s|] == s;
    assert forall k :: 0 <= k < n ==> IsHexDigit(t[..n][k]);
  }

  // ---------------------------------------------------------------- decimal

  predicate IsDigit(c: char) { '0' <= c <= '9' }

  predicate AllDigits(s: string) {
    forall k :: 0 <= k < |s| ==> IsDigit(s[k])
  }

  function DecimalValue(s: string): nat
    requires AllDigits(s)
  {
    if s == "" then 0 else 10 * DecimalValue(s[..|s| - 1]) + (s[|s| - 1] as int - '0' as int)
  }

  function DecimalText(n: nat): (s: string)
    ensures s != "" && AllDigits(s)
  {
    (if n < 10 then "" else DecimalText(n / 10)) + [('0' as int + n % 10) as char]
  }

  lemma {:induction false} DecimalValueInvertsText(n: nat)
    ensures DecimalValue(DecimalText(n)) == n
  {
    var s := DecimalText(n);
    if n >= 10 {
      DecimalValueInvertsText(n / 10);
      assert s[..|s| - 1] == DecimalText(n / 10);
    } else {
      assert s[..0] == "";
    }
  }

  /** Digit `i` from the right, and no leading zero. */
  lemma {:induction false} DecimalTextAt(n: nat, i: nat)
    requires i < |DecimalText(n)|
    ensures var s := DecimalText(n);
            && Pow(10, i) > 0 && s[|s| - 1 - i] as int - '0' as int == n / Pow(10, i) % 10
            && (|s| > 1 ==> s[0] != '0')
    decreases n
  {
    if n >= 10 {
      DecimalTextAt(n / 10, if i == 0 then 0 else i - 1);
      if i > 0 { DivideTwiceBy10(n, Pow(10, i - 1)); }
    }
  }

  function DigitRun(s: string): (n: nat)
    ensures n <= |s| && AllDigits(s[..n]) && (n < |s| ==> !IsDigit(s[n]))
  {
    if s != "" && IsDigit(s[0]) then
      assert forall k :: 0 < k < 1 + DigitRun(s[1..]) ==> s[k] == s[1..][..DigitRun(s[1..])][k - 1];
      1 + DigitRun(s[1..])
    else 0
  }

  lemma {:induction false} DigitRunStops(s: string, rest: string)
    requires AllDigits(s) && (rest == "" || !IsDigit(rest[0]))
    ensures DigitRun(s + rest) == |s| && (s + rest)[..|s|] == s
    decreases |s|
  {
    if s == "" {
      assert s + rest == rest;
    } else {
      assert (s + rest)[0] == s[0] && (s + rest)[1..] == s[1..] + rest;
      DigitRunStops(s[1..], rest);
      assert (s + rest)[..|s|] == s;
    }
  }

  /** The sign and the decimal digits that `stoi` and `stoul` find. */
  lemma DecimalFound(spaces: string, sign: string, s: string, rest: string)
    requires AllSpaces(spaces) && IsSign(sign) && AllDigits(s) && (rest == "" || !IsDigit(rest[0]))
    requires s == "" ==> StopsSkipping(rest)
    ensures var t := spaces + (sign + (s + rest));
            && SpaceRun(t) == |spaces| && t[|spaces|..] == sign + (s + rest)
            && SignRun(sign + (s + rest)) == |sign| && t[|spaces| + |sign|..] == s + rest
            && (IsMinus(sign) <==> |sign| > 0 && t[|spaces|] == '-')
            && DigitRun(s + rest) == |s| && (s + rest)[..|s|] == s
  {
    DigitRunStops(s, rest);
    if s != "" { assert (s + rest)[0] == s[0] && IsDigit(s[0]); } else { assert s + rest == rest; }
    Skipped(spaces, sign, s + rest);
  }

  lemma NumberAlone(s: string)
    ensures "" + ("" + (s + "")) == s
  {}

  function StoulValue(digits: string, negative: bool, max: nat): (r: Result<nat, Fault>)
    requires AllDigits(digits)
    ensures r.Ok? ==> r.value <= max
  {
    if digits == "" then Err(InvalidArgument)
    else
      var m := DecimalValue(digits);
      if m > max then Err(OutOfRange) else if negative then Ok((max + 1 - m) % (max + 1)) else Ok(m)
  }

  /** `stoul` in base ten, where `max` is ULONG_MAX; a minus sign negates in unsigned arithmetic. */
  function Stoul10(s: string, max: nat): (r: Result<nat, Fault>)
    ensures r.Ok? ==> r.value <= max
  {
    var w := SpaceRun(s);
    var g := w + SignRun(s[w..]);
    StoulValue(s[g..][..DigitRun(s[g..])], g > w && s[w] == '-', max)
  }

  /** `stoul` on a number: its value, negated in unsigned arithmetic behind a minus sign; without digits it
      throws. */
  lemma StoulReads(spaces: string, sign: string, s: string, rest: string, max: nat)
    requires AllSpaces(spaces) && IsSign(sign) && AllDigits(s) && (rest == "" || !IsDigit(rest[0]))
    requires s == "" ==> StopsSkipping(rest)
    ensures Stoul10(spaces + (sign + (s + rest)), max) ==
              if s == "" then Err(InvalidArgument)
              else if DecimalValue(s) > max then Err(OutOfRange)
              else if IsMinus(sign) && DecimalValue(s) > 0 then Ok(max + 1 - DecimalValue(s))
              else Ok(DecimalValue(s))
  {
    DecimalFound(spaces, sign, s, rest);
    hide AllSpaces, IsSign, IsMinus, AllDigits, StopsSkipping, SpaceRun, SignRun, DigitRun, DecimalValue;
    hide StoulValue;
    assert Stoul10(spaces + (sign + (s + rest)), max) == StoulValue(s, IsMinus(sign), max);
    StoulValueOf(s, IsMinus(sign), max);
  }

  lemma StoulValueOf(s: string, negative: bool, max: nat)
    requires AllDigits(s)
    ensures StoulValue(s, negative, max) ==
              if s == "" then Err(InvalidArgument)
              else if DecimalValue(s) > max then Err(OutOfRange)
              else if negative && DecimalValue(s) > 0 then Ok(max + 1 - DecimalValue(s))
              else Ok(DecimalValue(s))
  {
    hide AllDigits, DecimalValue;
    if DecimalValue(s) <= max { NegatedBelow(DecimalValue(s), max + 1); }
  }

  lemma NegatedBelow(m: nat, n: nat)
    requires m < n
    ensures (n - m) % n == if m == 0 then 0 else n - m
  {}

  lemma StoulReadsDecimalText(n: nat, max: nat)
    ensures Stoul10(DecimalText(n), max) == if n <= max then Ok(n) else Err(OutOfRange)
  {
    hide Stoul10, DecimalText;
    StoulReads("", "", DecimalText(n), "", max);
    NumberAlone(DecimalText(n));
    DecimalValueInvertsText(n);
  }
}
