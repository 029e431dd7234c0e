/** The typed stream of a bytes message: an append buffer and a read cursor. */
module BytesStream {
  import opened Prelude
  import opened NumberText

  datatype Kind =
    | BoolKind | ByteKind | CharKind | ShortKind | UnsignedShortKind | IntKind | LongKind | FloatKind | DoubleKind

  /** Floating-point values are opaque bit patterns. */
  datatype Value =
    | Bool(flag: bool) | Byte(n: int) | Char(n: int)
    | Short(n: int) | UnsignedShort(n: int) | Int(n: int) | Long(n: int)
    | Float(bits: seq<byte>) | Double(bits: seq<byte>)

  function KindOf(v: Value): Kind {
    match v
    case Bool(_) => BoolKind
    case Byte(_) => ByteKind
    case Char(_) => CharKind
    case Short(_) => ShortKind
    case UnsignedShort(_) => UnsignedShortKind
    case Int(_) => IntKind
    case Long(_) => LongKind
    case Float(_) => FloatKind
    case Double(_) => DoubleKind
  }

  function Width(kind: Kind): nat {
    match kind
    case BoolKind => 1
    case ByteKind => 1
    case CharKind => 1
    case ShortKind => 2
    case UnsignedShortKind => 2
    case IntKind => 4
    case LongKind => 8
    case FloatKind => 4
    case DoubleKind => 8
  }

  /** The value is one that its C++ type can hold. */
  predicate InRange(v: Value) {
    match v
    case Bool(_) => true
    case Byte(n) => 0 <= n < 0x100
    case Char(n) => -0x80 <= n < 0x80
    case Short(n) => -0x8000 <= n < 0x8000
    case UnsignedShort(n) => 0 <= n < 0x1_0000
    case Int(n) => -0x8000_0000 <= n < 0x8000_0000
    case Long(n) => -0x8000_0000_0000_0000 <= n < 0x8000_0000_0000_0000
    case Float(bits) => |bits| == 4
    case Double(bits) => |bits| == 8
  }

  // ---------------------------------------------------------------- bytes of a value in memory

  /** The low `k` bytes of `n`, least significant first; negative numbers in two's complement. */
  function LittleEndian(n: int, k: nat): (bs: seq<byte>)
    ensures |bs| == k
    decreases k
  {
    if k == 0 then [] else [n % 256] + LittleEndian(n / 256, k - 1)
  }

  function FromLittleEndian(bs: seq<byte>): nat {
    if bs == [] then 0 else bs[0] + 256 * FromLittleEndian(bs[1..])
  }

  lemma {:induction false} LittleEndianRoundTrip(n: int, k: nat)
    requires -(Pow(256, k) as int) <= n < Pow(256, k)
    ensures FromLittleEndian(LittleEndian(n, k)) == if n >= 0 then n else n + Pow(256, k)
    decreases k
  {
    if k > 0 {
      LittleEndianRoundTrip(n / 256, k - 1);
      assert LittleEndian(n, k)[1..] == LittleEndian(n / 256, k - 1);
    }
  }

  function Signed(n: nat, width: nat): int
    requires width > 0
  {
    if n < 128 * Pow(256, width - 1) then n else n - Pow(256, width)
  }

  /** What `memcpy` appends for a value. */
  function Encode(v: Value): (bs: seq<byte>)
    requires InRange(v)
    ensures |bs| == Width(KindOf(v))
  {
    match v
    case Bool(flag) => [if flag then 1 else 0]
    case Float(bits) => bits
    case Double(bits) => bits
    case _ => LittleEndian(v.n, Width(KindOf(v)))
  }

  /** What `memcpy` makes of the bytes at the cursor. */
  function Decode(kind: Kind, bs: seq<byte>): Value
    requires |bs| == Width(kind)
  {
    var n := FromLittleEndian(bs);
    match kind
    case BoolKind => Bool(bs[0] != 0)
    case ByteKind => Byte(n)
    case CharKind => Char(Signed(n, 1))
    case ShortKind => Short(Signed(n, 2))
    case UnsignedShortKind => UnsignedShort(n)
    case IntKind => Int(Signed(n, 4))
    case LongKind => Long(Signed(n, 8))
    case FloatKind => Float(bs)
    case DoubleKind => Double(bs)
  }

  lemma PowersOf256()
    ensures Pow(256, 0) == 1 && Pow(256, 1) == 0x100 && Pow(256, 2) == 0x1_0000 && Pow(256, 3) == 0x100_0000
    ensures Pow(256, 4) == 0x1_0000_0000 && Pow(256, 7) == 0x100_0000_0000_0000
    ensures Pow(256, 8) == 0x1_0000_0000_0000_0000
  {
    assert Pow(256, 6) == 0x1_0000_0000_0000;
  }

  lemma DecodeInvertsEncode(v: Value)
    requires InRange(v)
    ensures Decode(KindOf(v), Encode(v)) == v
  {
    PowersOf256();
    match v {
      case Bool(_) =>
      case Float(_) =>
      case Double(_) =>
      case _ => LittleEndianRoundTrip(v.n, Width(KindOf(v)));
    }
  }

  // ---------------------------------------------------------------- the layout

  /** The sizes of the C++ types. */
  lemma Widths(kind: Kind)
    ensures kind.BoolKind? || kind.ByteKind? || kind.CharKind? ==> Width(kind) == 1
    ensures kind.ShortKind? || kind.UnsignedShortKind? ==> Width(kind) == 2
    ensures kind.IntKind? || kind.FloatKind? ==> Width(kind) == 4
    ensures kind.LongKind? || kind.DoubleKind? ==> Width(kind) == 8
  {}

  predicate IsInteger(v: Value) {
    !v.Bool? && !v.Float? && !v.Double?
  }

  /** What the bytes of a value must be: for an integer, byte `i` is the value shifted right by `i` bytes,
      least significant first; a flag is 1 or 0; a floating-point value is its own bits. */
  ghost predicate LaidOut(v: Value, bs: seq<byte>) {
    && |bs| == Width(KindOf(v))
    && (IsInteger(v) ==> forall i :: 0 <= i < |bs| ==> Pow(256, i) > 0 && bs[i] == v.n / Pow(256, i) % 256)
    && (v.Bool? ==> bs[0] == if v.flag then 1 else 0)
    && (v.Float? || v.Double? ==> bs == v.bits)
  }

  lemma {:induction false} LittleEndianAt(n: int, k: nat, i: nat)
    requires i < k
    ensures Pow(256, i) > 0 && LittleEndian(n, k)[i] == n / Pow(256, i) % 256
    decreases k
  {
    if i > 0 {
      LittleEndianAt(n / 256, k - 1, i - 1);
      DivideTwice(n, Pow(256, i - 1));
    }
  }

  lemma EncodeIsLaidOut(v: Value)
    requires InRange(v)
    ensures LaidOut(v, Encode(v))
  {
    if IsInteger(v) {
      forall i | 0 <= i < |Encode(v)|
        ensures Pow(256, i) > 0 && Encode(v)[i] == v.n / Pow(256, i) % 256
      {
        LittleEndianAt(v.n, Width(KindOf(v)), i);
      }
    }
  }

  /** Two's complement: a multiple of the range makes no difference to the bytes. */
  lemma {:induction false} LittleEndianOfFrom(bs: seq<byte>, m: int)
    ensures LittleEndian(FromLittleEndian(bs) + m * Pow(256, |bs|), |bs|) == bs
    decreases |bs|
  {
    if bs != [] {
      var rest := bs[1..];
      var p := Pow(256, |rest|);
      Regroup(m, p);
      QuotientIsUnique(FromLittleEndian(bs) + m * Pow(256, |bs|), 256, FromLittleEndian(rest) + m * p, bs[0]);
      LittleEndianOfFrom(rest, m);
    }
  }

  lemma Regroup(m: int, p: int)
    ensures m * (256 * p) == 256 * (m * p)
  {}

  lemma {:induction false} FromLittleEndianBound(bs: seq<byte>)
    ensures FromLittleEndian(bs) < Pow(256, |bs|)
    decreases |bs|
  {
    if bs != [] { FromLittleEndianBound(bs[1..]); }
  }

  /** A value that was read is one that its type can hold, and its bytes are those at the cursor; of a flag
      only whether its byte is zero. */
  lemma DecodeIsLaidOut(kind: Kind, bs: seq<byte>)
    requires |bs| == Width(kind)
    ensures var v := Decode(kind, bs);
            && KindOf(v) == kind && InRange(v)
            && if v.Bool? then v.flag == (bs[0] != 0) else LaidOut(v, bs)
  {
    DecodeInRange(kind, bs);
    var v := Decode(kind, bs);
    if IsInteger(v) {
      DecodedInteger(kind, bs);
      EncodeIsLaidOut(v);
    }
    hide LittleEndian, FromLittleEndian, Pow;
  }

  lemma DecodeInRange(kind: Kind, bs: seq<byte>)
    requires |bs| == Width(kind)
    ensures KindOf(Decode(kind, bs)) == kind && InRange(Decode(kind, bs))
  {
    PowersOf256();
    FromLittleEndianBound(bs);
    hide FromLittleEndian, Pow;
  }

  /** An integer read from bytes has those bytes. */
  lemma DecodedInteger(kind: Kind, bs: seq<byte>)
    requires |bs| == Width(kind) && IsInteger(Decode(kind, bs))
    ensures LittleEndian(Decode(kind, bs).n, |bs|) == bs
  {
    hide LittleEndian, FromLittleEndian, Signed;
    SignedBytes(bs);
    UnsignedBytes(bs);
  }

  lemma UnsignedBytes(bs: seq<byte>)
    ensures LittleEndian(FromLittleEndian(bs), |bs|) == bs
  {
    hide LittleEndian, FromLittleEndian;
    LittleEndianOfFrom(bs, 0);
    assert 0 * Pow(256, |bs|) == 0;
  }

  lemma SignedBytes(bs: seq<byte>)
    requires |bs| > 0
    ensures LittleEndian(Signed(FromLittleEndian(bs), |bs|), |bs|) == bs
  {
    hide LittleEndian, FromLittleEndian;
    UnsignedBytes(bs);
    LittleEndianOfFrom(bs, -1);
    assert -1 * Pow(256, |bs|) == -(Pow(256, |bs|) as int);
  }

  // ---------------------------------------------------------------- the stream

  datatype Stream = Stream(body: seq<byte>, position: nat)

  /** What a read returns: a value; a value of which some bytes lie behind the body, so that nothing is
      known about it; or the exception of the interface. */
  datatype Output = Got(value: Value) | Garbage | EndOfFile

  function WriteTo(s: Stream, v: Value): Stream
    requires InRange(v)
  {
    s.(body := s.body + Encode(v))
  }

  /** Only the first byte is looked up with a range check; the others are copied, and the cursor moves, in
      any case. */
  function ReadFrom(s: Stream, kind: Kind): (Output, Stream) {
    var w := Width(kind);
    if s.position >= |s.body| then (EndOfFile, s)
    else
      var after := s.(position := s.position + w);
      if s.position + w > |s.body| then (Garbage, after)
      else (Got(Decode(kind, s.body[s.position..s.position + w])), after)
  }

  datatype Op = Write(value: Value) | Read(kind: Kind) | Reset

  predicate OpOk(op: Op) {
    op.Write? ==> InRange(op.value)
  }

  predicate OpsOk(ops: seq<Op>) {
    forall k :: 0 <= k < |ops| ==> OpOk(ops[k])
  }

  function Apply(s: Stream, op: Op): (Stream, seq<Output>)
    requires OpOk(op)
  {
    match op
    case Write(v) => (WriteTo(s, v), [])
    case Reset => (s.(position := 0), [])
    case Read(kind) => (ReadFrom(s, kind).1, [ReadFrom(s, kind).0])
  }

  function ApplyAll(s: Stream, ops: seq<Op>): (Stream, seq<Output>)
    requires OpsOk(ops)
    decreases |ops|
  {
    if ops == [] then (s, [])
    else
      var (t, out) := Apply(s, ops[0]);
      var (u, rest) := ApplyAll(t, ops[1..]);
      (u, out + rest)
  }

  // ---------------------------------------------------------------- the queue it should be

  /** A queue of values of which the first `next` have been read. */
  datatype Fifo = Fifo(values: seq<Value>, next: nat)

  function QueueApply(f: Fifo, op: Op): (Fifo, seq<Output>) {
    match op
    case Write(v) => (f.(values := f.values + [v]), [])
    case Reset => (f.(next := 0), [])
    case Read(_) =>
      if f.next < |f.values| then (f.(next := f.next + 1), [Got(f.values[f.next])])
      else (f, [EndOfFile])
  }

  function QueueApplyAll(f: Fifo, ops: seq<Op>): (Fifo, seq<Output>)
    decreases |ops|
  {
    if ops == [] then (f, [])
    else
      var (g, out) := QueueApply(f, ops[0]);
      var (h, rest) := QueueApplyAll(g, ops[1..]);
      (h, out + rest)
  }

  /** Every read asks for the type of the value that is next. */
  predicate Matching(f: Fifo, ops: seq<Op>)
    decreases |ops|
  {
    ops == [] ||
    (&& OpOk(ops[0])
     && (ops[0].Read? && f.next < |f.values| ==> ops[0].kind == KindOf(f.values[f.next]))
     && Matching(QueueApply(f, ops[0]).0, ops[1..]))
  }

  predicate AllInRange(vs: seq<Value>) {
    forall k :: 0 <= k < |vs| ==> InRange(vs[k])
  }

  function EncodeAll(vs: seq<Value>): seq<byte>
    requires AllInRange(vs)
  {
    if vs == [] then [] else EncodeAll(vs[..|vs| - 1]) + Encode(vs[|vs| - 1])
  }

  predicate Represents(s: Stream, f: Fifo) {
    && AllInRange(f.values) && f.next <= |f.values|
    && s.body == EncodeAll(f.values) && s.position == |EncodeAll(f.values[..f.next])|
  }

  /** Value `k` lies in the body directly behind the values before it. */
  lemma {:induction false} ValueInBody(vs: seq<Value>, k: nat)
    requires AllInRange(vs) && k < |vs|
    ensures var at := |EncodeAll(vs[..k])|;
            && at + |Encode(vs[k])| <= |EncodeAll(vs)|
            && EncodeAll(vs)[at..at + |Encode(vs[k])|] == Encode(vs[k])
            && |EncodeAll(vs[..k + 1])| == at + |Encode(vs[k])|
    decreases |vs|
  {
    hide Encode, InRange, EncodeAll;
    var n := |vs| - 1;
    var at, w := |EncodeAll(vs[..k])|, |Encode(vs[k])|;
    EncodeLast(vs);
    EncodeLast(vs[..k + 1]);
    assert vs[..k + 1][..k] == vs[..k];
    if k < n {
      ValueInBody(vs[..n], k);
      assert vs[..n][..k] == vs[..k] && vs[..n][..k + 1] == vs[..k + 1];
      assert EncodeAll(vs)[at..at + w] == EncodeAll(vs[..n])[at..at + w];
    } else {
      assert vs[..k + 1] == vs;
    }
  }

  lemma EncodeLast(vs: seq<Value>)
    requires AllInRange(vs) && vs != []
    ensures EncodeAll(vs) == EncodeAll(vs[..|vs| - 1]) + Encode(vs[|vs| - 1])
  {}

  lemma EncodeSnoc(vs: seq<Value>, v: Value)
    requires AllInRange(vs) && InRange(v)
    ensures AllInRange(vs + [v]) && EncodeAll(vs + [v]) == EncodeAll(vs) + Encode(v)
  {
    assert (vs + [v])[..|vs|] == vs;
  }

  lemma EncodeWhole(vs: seq<Value>)
    requires AllInRange(vs)
    ensures EncodeAll(vs[..|vs|]) == EncodeAll(vs)
  {
    assert vs[..|vs|] == vs;
  }

  lemma ReadRefinesFifo(s: Stream, f: Fifo, kind: Kind)
    requires Represents(s, f) && (f.next < |f.values| ==> kind == KindOf(f.values[f.next]))
    ensures Apply(s, Read(kind)).1 == QueueApply(f, Read(kind)).1
    ensures Represents(Apply(s, Read(kind)).0, QueueApply(f, Read(kind)).0)
  {
    hide Encode, Decode, Width, EncodeAll;
    if f.next < |f.values| {
      ValueInBody(f.values, f.next);
      DecodeInvertsEncode(f.values[f.next]);
      WidthIsPositive(kind);
    } else {
      EncodeWhole(f.values);
    }
  }

  lemma WidthIsPositive(kind: Kind)
    ensures Width(kind) > 0
  {}

  lemma StepRefinesFifo(s: Stream, f: Fifo, op: Op)
    requires Represents(s, f) && OpOk(op)
    requires op.Read? && f.next < |f.values| ==> op.kind == KindOf(f.values[f.next])
    ensures Apply(s, op).1 == QueueApply(f, op).1
    ensures Represents(Apply(s, op).0, QueueApply(f, op).0)
  {
    hide Encode, Decode, Width, ReadFrom;
    match op {
      case Write(v) =>
        EncodeSnoc(f.values, v);
        assert (f.values + [v])[..f.next] == f.values[..f.next];
      case Reset =>
        assert f.values[..0] == [];
      case Read(kind) =>
        ReadRefinesFifo(s, f, kind);
    }
  }

  /** The stream is a first-in first-out queue of typed values: for any interleaving of writes, resets
      and reads of the matching type, every result is the queue's, end of file included. */
  lemma {:induction false} StreamRefinesFifo(s: Stream, f: Fifo, ops: seq<Op>)
    requires Represents(s, f) && Matching(f, ops)
    ensures OpsOk(ops)
    ensures ApplyAll(s, ops).1 == QueueApplyAll(f, ops).1
    ensures Represents(ApplyAll(s, ops).0, QueueApplyAll(f, ops).0)
    decreases |ops|
  {
    if ops != [] {
      StepRefinesFifo(s, f, ops[0]);
      StreamRefinesFifo(Apply(s, ops[0]).0, QueueApply(f, ops[0]).0, ops[1..]);
    }
  }

  function Outputs(vs: seq<Value>): seq<Output> {
    seq(|vs|, k requires 0 <= k < |vs| => Got(vs[k]))
  }

  function ReadsOf(vs: seq<Value>): seq<Op> {
    seq(|vs|, k requires 0 <= k < |vs| => Read(KindOf(vs[k])))
  }

  /** Reading everything that is left returns it in order. */
  lemma {:induction false} ReadingReturnsTheRest(f: Fifo)
    requires f.next <= |f.values|
    ensures Matching(f, ReadsOf(f.values[f.next..]))
    ensures QueueApplyAll(f, ReadsOf(f.values[f.next..])) == (f.(next := |f.values|), Outputs(f.values[f.next..]))
    decreases |f.values| - f.next
  {
    var rest := f.values[f.next..];
    if rest != [] {
      var g := f.(next := f.next + 1);
      var ops := ReadsOf(rest);
      assert ops[1..] == ReadsOf(g.values[g.next..]);
      ReadingReturnsTheRest(g);
      assert QueueApply(f, ops[0]) == (g, [Got(rest[0])]);
      assert QueueApplyAll(f, ops) == (g.(next := |g.values|), [Got(rest[0])] + Outputs(g.values[g.next..]));
      assert Outputs(rest) == [Got(rest[0])] + Outputs(g.values[g.next..]);
    } else {
      assert ReadsOf(rest) == [] && Outputs(rest) == [] && f.next == |f.values|;
    }
  }

  // ---------------------------------------------------------------- where the cursor can go

  /** A read that starts inside the body and ends outside it. */
  predicate Overruns(s: Stream, op: Op) {
    op.Read? && s.position < |s.body| < s.position + Width(op.kind)
  }

  predicate NoneOverruns(s: Stream, ops: seq<Op>)
    requires OpsOk(ops)
    decreases |ops|
  {
    ops == [] || (!Overruns(s, ops[0]) && NoneOverruns(Apply(s, ops[0]).0, ops[1..]))
  }

  /** The cursor is inside the body, or at its end, before and after every step. */
  predicate CursorInside(s: Stream, ops: seq<Op>)
    requires OpsOk(ops)
    decreases |ops|
  {
    s.position <= |s.body| && (ops == [] || CursorInside(Apply(s, ops[0]).0, ops[1..]))
  }

  lemma StepKeepsCursorIff(s: Stream, op: Op)
    requires OpOk(op) && s.position <= |s.body|
    ensures Apply(s, op).0.position <= |Apply(s, op).0.body| <==> !Overruns(s, op)
  {
    hide Encode, Decode;
  }

  /** The cursor stays in the body throughout a run exactly if no read in it starts inside the body and
      ends outside. */
  lemma {:induction false} CursorStaysInBodyIff(s: Stream, ops: seq<Op>)
    requires OpsOk(ops) && s.position <= |s.body|
    ensures CursorInside(s, ops) <==> NoneOverruns(s, ops)
    decreases |ops|
  {
    hide Apply, Overruns;
    if ops != [] {
      StepKeepsCursorIff(s, ops[0]);
      if !Overruns(s, ops[0]) { CursorStaysInBodyIff(Apply(s, ops[0]).0, ops[1..]); }
    }
  }

  /** Reads of the matching type never do: the queue has no such output. */
  lemma {:induction false} MatchingReadsStayInBody(s: Stream, f: Fifo, ops: seq<Op>)
    requires Represents(s, f) && Matching(f, ops)
    ensures OpsOk(ops) && NoneOverruns(s, ops) && CursorInside(s, ops)
    decreases |ops|
  {
    hide Encode, Decode, EncodeAll;
    CursorOfFifo(s, f);
    if ops != [] {
      StepRefinesFifo(s, f, ops[0]);
      MatchingReadsStayInBody(Apply(s, ops[0]).0, QueueApply(f, ops[0]).0, ops[1..]);
    }
    StreamRefinesFifo(s, f, ops);
  }

  lemma CursorOfFifo(s: Stream, f: Fifo)
    requires Represents(s, f)
    ensures s.position <= |s.body|
  {
    hide Encode, EncodeAll;
    if f.next < |f.values| { ValueInBody(f.values, f.next); } else { EncodeWhole(f.values); }
  }

  /** One byte, read as an int: no exception, and the cursor is at 4 behind a body of length 1. */
  const ONE_BYTE := Stream([7], 0)

  lemma ReadPastTheEnd()
    ensures Apply(ONE_BYTE, Read(IntKind)) == (Stream([7], 4), [Garbage])
    ensures !CursorInside(ONE_BYTE, [Read(IntKind)])
  {
    assert [Read(IntKind)][1..] == [];
    CursorStaysInBodyIff(ONE_BYTE, [Read(IntKind)]);
  }

  // ---------------------------------------------------------------- copies

  /** The copy constructor copies the body and starts a cursor of its own. */
  function Cloned(s: Stream): Stream {
    Stream(s.body, 0)
  }

  /** Sending stores the body in the proton message; receiving takes it out again. */
  function Received(wire: seq<byte>): Stream {
    Stream(wire, 0)
  }
}
