/** The option part of a broker URI: the recursive scanner, the settings, and a plain left-to-right
    reading to compare it with. */
module UriOptions {
  import opened Prelude
  import opened Strings
  import opened UriText
  import NumberText

  /** One call of `updateOption`, with or without a group. */
  datatype Update = Plain(text: string) | Grouped(group: string, text: string)

  datatype Fault = InvalidArgument | OutOfRange | Undefined

  // ---------------------------------------------------------------- the scanner

  /** The last dot before `end`, not counting the first character; `end` when there is none. */
  function LastDot(s: string, end: nat, from: nat): (n: nat)
    requires from < end <= |s|
    ensures n == end || (0 < n <= from && s[n] == '.')
    ensures forall k :: (if n == end then 0 else n) < k <= from ==> s[k] != '.'
  {
    if from == 0 then end else if s[from] == '.' then from else LastDot(s, end, from - 1)
  }

  function Emit(text: string): seq<Update> {
    if text == "" then [] else [Plain(text)]
  }

  /** The recursion with its mode flag: the updates it makes, in order, and the text it returns.  An
      empty option makes it walk in front of the text. */
  function Scan(s: string, compound: bool): Result<(seq<Update>, string), Fault>
    decreases |s|
  {
    var end := IndexOf(s, '&');
    if end == 0 then Err(Undefined)
    else
      var stop := LastDot(s, end, end - 1);
      if stop == |s| then
        if compound then Ok(([], s)) else Ok((Emit(s), ""))
      else if s[stop] == '.' then
        match Scan(s[stop + 1..], true)
        case Err(fault) => Err(fault)
        case Ok((updates, text)) =>
          Ok((updates + (if text == "" then [] else [Grouped(s[..stop], text)]), ""))
      else if compound then
        match Scan(s[stop + 1..], true)
        case Err(fault) => Err(fault)
        case Ok((updates, text)) => Ok((updates + Emit(text), s[..stop]))
      else
        match Scan(s[stop + 1..], false)
        case Err(fault) => Err(fault)
        case Ok((updates, text)) => Ok((Emit(s[..stop]) + updates, ""))
  }

  // ---------------------------------------------------------------- the options as a list

  /** `text` is `name=value`; a group may be empty, and may itself contain dots. */
  predicate OptionOk(o: Update) {
    && o.text != "" && '.' !in o.text && '&' !in o.text
    && (o.Grouped? ==> o.group != "" && '&' !in o.group)
  }

  predicate OptionsOk(os: seq<Update>) {
    forall k :: 0 <= k < |os| ==> OptionOk(os[k])
  }

  function Render(o: Update): string {
    if o.Plain? then o.text else o.group + ("." + o.text)
  }

  function RenderAll(os: seq<Update>): string
    requires os != []
  {
    if |os| == 1 then Render(os[0]) else Render(os[0]) + ("&" + RenderAll(os[1..]))
  }

  function Reverse<T>(s: seq<T>): seq<T> {
    if s == [] then [] else Reverse(s[1..]) + [s[0]]
  }

  /** Left to right before the first grouped option, then from the end back to it. */
  function ScanOrder(os: seq<Update>): seq<Update> {
    if os == [] then [] else if os[0].Plain? then [os[0]] + ScanOrder(os[1..]) else Reverse(os)
  }

  lemma NoDotFound(s: string, end: nat, from: nat)
    requires from < end <= |s| && '.' !in s[..end]
    ensures LastDot(s, end, from) == end
  {
    if from > 0 { assert s[from] == s[..end][from]; }
  }

  lemma DotFound(s: string, end: nat, from: nat, dot: nat)
    requires 0 < dot <= from < end <= |s| && s[dot] == '.'
    requires forall k :: dot < k <= from ==> s[k] != '.'
    ensures LastDot(s, end, from) == dot
  {}

  /** The text behind a rendered option, up to and including the separator. */
  function Behind(os: seq<Update>): string
    requires os != []
  {
    if |os| == 1 then "" else "&" + RenderAll(os[1..])
  }

  /** Where the scanner stops. */
  ghost predicate StopsAt(s: string, stop: nat) {
    var end := IndexOf(s, '&');
    end > 0 && LastDot(s, end, end - 1) == stop
  }

  lemma ScanFrom(s: string, stop: nat, compound: bool)
    requires StopsAt(s, stop)
    ensures stop <= |s|
    ensures stop == |s| ==> Scan(s, compound) == if compound then Ok(([], s)) else Ok((Emit(s), ""))
    ensures stop < |s| && s[stop] == '.' && Scan(s[stop + 1..], true).Ok? ==>
              var (updates, text) := Scan(s[stop + 1..], true).value;
              Scan(s, compound) == Ok((updates + (if text == "" then [] else [Grouped(s[..stop], text)]), ""))
    ensures stop < |s| && s[stop] == '&' && compound && Scan(s[stop + 1..], true).Ok? ==>
              var (updates, text) := Scan(s[stop + 1..], true).value;
              Scan(s, compound) == Ok((updates + Emit(text), s[..stop]))
    ensures stop < |s| && s[stop] == '&' && !compound && Scan(s[stop + 1..], false).Ok? ==>
              var (updates, text) := Scan(s[stop + 1..], false).value;
              Scan(s, compound) == Ok((Emit(s[..stop]) + updates, ""))
  {
    hide IndexOf, LastDot;
  }

  lemma StopAtPlain(text: string, rest: string)
    requires text != "" && '.' !in text && '&' !in text && (rest == "" || rest[0] == '&')
    ensures StopsAt(text + rest, |text|) && (text + rest)[..|text|] == text
  {
    IndexOfAppend(text, '&', rest);
    assert (text + rest)[..|text|] == text;
    NoDotFound(text + rest, |text|, |text| - 1);
  }

  lemma StopAtGroup(o: Update, rest: string)
    requires o.Grouped? && OptionOk(o) && (rest == "" || rest[0] == '&')
    ensures var s := Render(o) + rest;
            && |o.group| < |s| && StopsAt(s, |o.group|)
            && s[|o.group|] == '.' && s[..|o.group|] == o.group && s[|o.group| + 1..] == o.text + rest
  {
    var t := Render(o);
    var s := t + rest;
    GroupHasNoAmpersand(o);
    IndexOfAppend(t, '&', rest);
    SplitAtDot(o, rest);
    DotFound(s, |t|, |t| - 1, |o.group|);
  }

  lemma GroupHasNoAmpersand(o: Update)
    requires o.Grouped? && OptionOk(o)
    ensures '&' !in Render(o)
  {}

  lemma SplitAtDot(o: Update, rest: string)
    requires o.Grouped? && OptionOk(o)
    ensures var s := Render(o) + rest; var dot := |o.group|;
            && s[dot] == '.' && s[..dot] == o.group && s[dot + 1..] == o.text + rest
            && forall k :: dot < k < |Render(o)| ==> s[k] != '.'
  {
    var dot := |o.group|;
    var s := Render(o) + rest;
    assert s[..dot] == o.group && s[dot + 1..] == o.text + rest;
    assert forall k :: dot < k < |Render(o)| ==> s[k] == o.text[k - dot - 1];
  }

  function ReversedScan(os: seq<Update>): (seq<Update>, string)
    requires os != []
  {
    if os[0].Plain? then (Reverse(os[1..]), os[0].text) else (Reverse(os), "")
  }

  lemma BehindStarts(os: seq<Update>)
    requires os != []
    ensures RenderAll(os) == Render(os[0]) + Behind(os)
    ensures Behind(os) == "" || Behind(os)[0] == '&'
    ensures |os| > 1 ==> Behind(os)[1..] == RenderAll(os[1..])
  {
    if |os| == 1 { assert Render(os[0]) + "" == Render(os[0]); }
  }

  lemma TextOk(o: Update)
    requires OptionOk(o)
    ensures o.text != "" && '.' !in o.text && '&' !in o.text
  {}

  lemma ReverseCons(os: seq<Update>)
    requires os != []
    ensures Reverse(os) == Reverse(os[1..]) + [os[0]]
  {}

  lemma AfterSeparator(text: string, os: seq<Update>)
    requires |os| > 1
    ensures var s := text + Behind(os); |text| < |s| && s[|text|] == '&' && s[|text| + 1..] == RenderAll(os[1..])
  {
    assert Behind(os) == "&" + RenderAll(os[1..]);
  }

  /** Once the flag is set, a plain option's own text comes back to the caller, which applies it after
      everything behind it. */
  lemma {:induction false} ScanCompoundPlain(text: string, os: seq<Update>)
    requires os != [] && OptionsOk(os) && os[0].text == text
    ensures Scan(text + Behind(os), true) == Ok((Reverse(os[1..]), text))
    decreases |os|, 0
  {
    hide OptionOk, StopsAt, Scan, RenderAll, Reverse;
    assert OptionOk(os[0]);
    TextOk(os[0]);
    BehindStarts(os);
    StopAtPlain(text, Behind(os));
    ScanFrom(text + Behind(os), |text|, true);
    if |os| == 1 {
      assert text + "" == text && os[1..] == [];
      assert Reverse<Update>([]) == [] by { ReverseOfNothing(); }
    } else {
      var tail := os[1..];
      AfterSeparator(text, os);
      ScanCompound(tail);
      ReverseCons(tail);
      assert tail[0] == os[1] && OptionOk(os[1]);
      TextOk(os[1]);
      if tail[0].Plain? {
        assert Emit(tail[0].text) == [tail[0]];
      } else {
        assert Reverse(tail) + Emit("") == Reverse(tail);
      }
    }
  }

  lemma ReverseOfNothing()
    ensures Reverse<Update>([]) == []
  {}

  lemma {:induction false} ScanCompound(os: seq<Update>)
    requires os != [] && OptionsOk(os)
    ensures Scan(RenderAll(os), true) == Ok(ReversedScan(os))
    decreases |os|, 1
  {
    hide OptionOk, Scan, RenderAll, Reverse;
    ScanCompoundPlain(os[0].text, os);
    if os[0].Grouped? {
      GroupFirst(os, true);
    } else {
      BehindStarts(os);
    }
  }

  lemma GroupFirst(os: seq<Update>, compound: bool)
    requires os != [] && OptionsOk(os) && os[0].Grouped?
    requires Scan(os[0].text + Behind(os), true) == Ok((Reverse(os[1..]), os[0].text))
    ensures Scan(RenderAll(os), compound) == Ok((Reverse(os), ""))
  {
    hide OptionOk, StopsAt, Scan, RenderAll, Reverse, Behind;
    assert OptionOk(os[0]);
    BehindStarts(os);
    TextOk(os[0]);
    StopAtGroup(os[0], Behind(os));
    ScanFrom(RenderAll(os), |os[0].group|, compound);
    ReverseCons(os);
    assert os[0] == Grouped(os[0].group, os[0].text);
  }

  /** The recursive scanner applies every option exactly once, in scan order. */
  lemma {:induction false} ScanAppliesEachOnce(os: seq<Update>)
    requires os != [] && OptionsOk(os)
    ensures Scan(RenderAll(os), false) == Ok((ScanOrder(os), ""))
    decreases |os|
  {
    hide OptionOk, StopsAt, Scan, RenderAll, Reverse, Behind;
    assert OptionOk(os[0]);
    TextOk(os[0]);
    BehindStarts(os);
    if os[0].Grouped? {
      ScanCompoundPlain(os[0].text, os);
      GroupFirst(os, false);
    } else {
      var text := os[0].text;
      var s := text + Behind(os);
      assert os[0] == Plain(text) && RenderAll(os) == s;
      StopAtPlain(text, Behind(os));
      ScanFrom(s, |text|, false);
      assert Emit(text) == [os[0]];
      if |os| == 1 {
        SingleOption(os);
        assert s == text && os[1..] == [] && ScanOrder(os) == [os[0]] + [] == [os[0]];
      } else {
        AfterSeparator(text, os);
        ScanAppliesEachOnce(os[1..]);
        assert s[|text| + 1..] == RenderAll(os[1..]);
        assert ScanOrder(os) == [os[0]] + ScanOrder(os[1..]);
      }
    }
  }

  /** The exception of what is behind the stop is the exception of the whole. */
  lemma ScanThrowsFrom(s: string, stop: nat, compound: bool, fault: Fault)
    requires StopsAt(s, stop) && stop < |s|
    requires Scan(s[stop + 1..], compound || s[stop] == '.') == Err(fault)
    ensures Scan(s, compound) == Err(fault)
  {
    hide IndexOf, LastDot;
  }

  lemma NothingIsUndefined(rest: string, compound: bool)
    requires rest == "" || rest[0] == '&'
    ensures Scan(rest, compound) == Err(Undefined)
  {}

  lemma SplitBehind(os: seq<Update>, rest: string)
    requires os != []
    ensures RenderAll(os) + ("&" + rest) == Render(os[0]) + (Behind(os) + ("&" + rest))
    ensures var tail := Behind(os) + ("&" + rest);
            tail[0] == '&' && tail[1..] == if |os| == 1 then rest else RenderAll(os[1..]) + ("&" + rest)
  {
    BehindStarts(os);
    var after := "&" + rest;
    Reassociate(Render(os[0]), Behind(os), after);
    if |os| > 1 {
      Reassociate("&", RenderAll(os[1..]), after);
      DropSeparator(RenderAll(os[1..]) + after);
    } else {
      DropSeparator(rest);
    }
    hide RenderAll, Render;
  }

  lemma Reassociate(s: string, t: string, u: string)
    ensures (s + t) + u == s + (t + u)
  {}

  lemma DropSeparator(s: string)
    ensures ("&" + s)[0] == '&' && ("&" + s)[1..] == s && "" + ("&" + s) == "&" + s
  {}

  /** The text of the first option, its group having been passed, in front of an empty one further on. */
  lemma PlainThenEmpty(text: string, tail: string, compound: bool)
    requires text != "" && '.' !in text && '&' !in text && tail != "" && tail[0] == '&'
    requires Scan(tail[1..], compound) == Err(Undefined)
    ensures Scan(text + tail, compound) == Err(Undefined)
  {
    hide Scan, StopsAt;
    StopAtPlain(text, tail);
    assert (text + tail)[|text| + 1..] == tail[1..];
    ScanThrowsFrom(text + tail, |text|, compound, Undefined);
  }

  /** An empty option, at the end or between two others, makes the parser step in front of the text. */
  lemma {:induction false} EmptyOptionIsUndefined(os: seq<Update>, rest: string, compound: bool)
    requires os != [] && OptionsOk(os) && (rest == "" || rest[0] == '&')
    ensures Scan(RenderAll(os) + ("&" + rest), compound) == Err(Undefined)
    decreases |os|
  {
    hide OptionOk, StopsAt, Scan, RenderAll, Render, Behind;
    var o := os[0];
    var tail := Behind(os) + ("&" + rest);
    var inner := compound || o.Grouped?;
    assert OptionOk(o);
    TextOk(o);
    SplitBehind(os, rest);
    if |os| == 1 { NothingIsUndefined(rest, inner); } else { EmptyOptionIsUndefined(os[1..], rest, inner); }
    PlainThenEmpty(o.text, tail, inner);
    if o.Grouped? {
      StopAtGroup(o, tail);
      ScanThrowsFrom(Render(o) + tail, |o.group|, compound, Undefined);
    } else {
      PlainRenders(o);
    }
  }

  lemma PlainRenders(o: Update)
    requires o.Plain?
    ensures Render(o) == o.text
  {}

  lemma SingleOption(os: seq<Update>)
    requires |os| == 1
    ensures RenderAll(os) == Render(os[0]) && Behind(os) == ""
  {}

  // ---------------------------------------------------------------- a plain reading to compare with

  /** One option on its own: the group ends at the last dot. */
  function ReadOption(piece: string): Update {
    if piece == "" then Plain("")
    else
      var dot := LastDot(piece, |piece|, |piece| - 1);
      if dot == |piece| then Plain(piece) else Grouped(piece[..dot], piece[dot + 1..])
  }

  function ReadPieces(pieces: seq<string>): (us: seq<Update>)
    ensures |us| == |pieces|
  {
    seq(|pieces|, k requires 0 <= k < |pieces| => ReadOption(pieces[k]))
  }

  /** Split at every ampersand and read each piece, left to right. */
  function ReadOptions(s: string): seq<Update> {
    ReadPieces(SplitOn(s, '&'))
  }

  lemma ReadInvertsRender(o: Update)
    requires OptionOk(o)
    ensures ReadOption(Render(o)) == o && '&' !in Render(o)
  {
    hide IndexOf, LastDot;
    var t := Render(o);
    assert t + "" == t;
    if o.Plain? { StopAtPlain(t, ""); } else { StopAtGroup(o, ""); GroupHasNoAmpersand(o); }
    IndexOfAppend(t, '&', "");
  }

  function Pieces(os: seq<Update>): (ps: seq<string>)
    ensures |ps| == |os|
  {
    seq(|os|, k requires 0 <= k < |os| => Render(os[k]))
  }

  lemma FirstPiece(os: seq<Update>)
    requires os != []
    ensures |Pieces(os)| == |os| && Pieces(os)[0] == Render(os[0])
  {}

  lemma PiecesOfRest(os: seq<Update>)
    requires os != []
    ensures Pieces(os)[0] == Render(os[0]) && Pieces(os)[1..] == Pieces(os[1..])
  {
    hide Render;
  }

  lemma {:induction false} RenderAllJoins(os: seq<Update>)
    requires os != []
    ensures RenderAll(os) == Join(Pieces(os), '&')
    decreases |os|
  {
    hide Render, Pieces;
    if |os| > 1 {
      RenderAllJoins(os[1..]);
      PiecesOfRest(os);
    } else {
      FirstPiece(os);
    }
  }

  lemma ReadOptionsInvertsRender(os: seq<Update>)
    requires os != [] && OptionsOk(os)
    ensures ReadOptions(RenderAll(os)) == os
  {
    RenderAllJoins(os);
    forall k | 0 <= k < |os|
      ensures '&' !in Pieces(os)[k] && ReadOption(Pieces(os)[k]) == os[k]
    {
      assert OptionOk(os[k]);
      ReadInvertsRender(os[k]);
    }
    SplitInvertsJoin(Pieces(os), '&');
    assert ReadPieces(Pieces(os)) == os;
  }

  // ---------------------------------------------------------------- settings

  datatype Section = Socket | Transport | Failover | Transaction | Connection | Prefetch | Redelivery

  datatype Setting = Setting(section: Section, name: string)

  datatype SettingKind = IntSetting | BoolSetting | FloatSetting

  /** A float keeps its text. */
  datatype SettingValue = IntValue(n: int) | BoolValue(flag: bool) | FloatValue(text: string)

  type Parameters = map<Setting, SettingValue>

  function DefaultsOf(section: Section): map<string, SettingValue> {
    match section
    case Socket => map[
      "inputBufferSize" := IntValue(10000), "outputBufferSize" := IntValue(10000), "soLinger" := IntValue(0),
      "soKeepAlive" := BoolValue(false), "soReceiveBufferSize" := IntValue(-1), "soSendBufferSize" := IntValue(-1),
      "soConnectionTimeout" := IntValue(-1), "tcpNoDelay" := BoolValue(true)]
    case Transport => map[
      "commandTracingEnabled" := BoolValue(false), "tcpTracingEnabled" := BoolValue(false),
      "useAsyncSend" := BoolValue(false), "responseCorrelator_MaxResponseWaitTime" := IntValue(3000)]
    case Failover => map[
      "initialReconnectDelay" := IntValue(10), "maxReconnectDelay" := IntValue(30000),
      "useExpotentialBackOff" := BoolValue(true), "maxReconnectAttempts" := IntValue(0),
      "startupMaxReconnectAttempts" := IntValue(0), "randomize" := BoolValue(true), "backup" := BoolValue(false),
      "backupPoolSize" := IntValue(1), "timeout" := IntValue(-1)]
    case Transaction => map["maxRedeliveryCount" := IntValue(5)]
    case Connection => map[
      "sendTimeout" := IntValue(0), "producerWindowSize" := IntValue(0), "closeTimeout" := IntValue(15000),
      "useAsyncSend" := BoolValue(false), "alwaysSyncSend" := BoolValue(false), "useCompression" := BoolValue(false),
      "dispatchAsync" := BoolValue(true)]
    case Prefetch => map[
      "durableTopicPrefetch" := IntValue(100), "queueBrowserPrefetch" := IntValue(500),
      "queuePrefetch" := IntValue(1000), "topicPrefetch" := IntValue(65535)]
    case Redelivery => map[
      "backOffMultiplier" := FloatValue("5.0"), "collisionAvoidancePercent" := IntValue(15),
      "initialRedeliveryDelay" := IntValue(1000), "maximumRedeliveries" := IntValue(6),
      "useCollisionAvoidance" := BoolValue(false), "useExponentialBackOff" := BoolValue(false)]
  }

  const SETTINGS: set<Setting> := set section: Section, name | name in DefaultsOf(section) :: Setting(section, name)

  const DEFAULTS: Parameters := map setting | setting in SETTINGS :: DefaultsOf(setting.section)[setting.name]

  const SOCKET_INTS := {"inputBufferSize", "outputBufferSize", "soLinger", "soReceiveBufferSize",
      "soConnectionTimeout", "soSendBufferSize"}
  const SOCKET_BOOLS := {"soKeepAlive", "tcpNoDelay"}
  const FAILOVER_INTS := {"initialReconnectDelay", "maxReconnectDelay", "startupMaxReconnectAttempts",
      "maxReconnectAttempts", "backupPoolSize", "timeout"}
  const FAILOVER_BOOLS := {"useExpotentialBackOff", "randomize", "backup"}
  const TRANSPORT_INTS := {"responseCorrelator_MaxResponseWaitTime"}
  const TRANSPORT_BOOLS := {"commandTracingEnabled", "tcpTracingEnabled", "useAsyncSend"}
  const TRANSACTION_INTS := {"maxRedeliveryCount"}
  const CONNECTION_INTS := {"sendTimeout", "producerWindowSize", "closeTimeout"}
  const CONNECTION_BOOLS := {"useAsyncSend", "alwaysSyncSend", "useCompression", "dispatchAsync"}
  const PREFETCH_INTS := {"durableTopicPrefetch", "queueBrowserPrefetch", "queuePrefetch", "topicPrefetch"}
  const REDELIVERY_INTS := {"collisionAvoidancePercent", "initialRedeliveryDelay", "maximumRedeliveries"}
  const REDELIVERY_BOOLS := {"useCollisionAvoidance", "useExponentialBackOff"}
  const REDELIVERY_FLOATS := {"backOffMultiplier"}

  function InSection(section: Section, name: string): Option<SettingKind> {
    match section
    case Socket => Known(name, SOCKET_INTS, SOCKET_BOOLS)
    case Failover => Known(name, FAILOVER_INTS, FAILOVER_BOOLS)
    case Transport => Known(name, TRANSPORT_INTS, TRANSPORT_BOOLS)
    case Transaction => Known(name, TRANSACTION_INTS, {})
    case Connection => Known(name, CONNECTION_INTS, CONNECTION_BOOLS)
    case Prefetch => Known(name, PREFETCH_INTS, {})
    case Redelivery => if name in REDELIVERY_FLOATS then Some(FloatSetting)
        else Known(name, REDELIVERY_INTS, REDELIVERY_BOOLS)
  }

  function Known(name: string, ints: set<string>, bools: set<string>): Option<SettingKind> {
    if name in ints then Some(IntSetting) else if name in bools then Some(BoolSetting) else None
  }

  function NameOf(text: string): string {
    text[..IndexOf(text, '=')]
  }

  /** What is between the first two dots, if there are two. */
  function BetweenDots(text: string): string {
    var dot := IndexOf(text, '.');
    if dot == |text| then ""
    else
      var rest := text[dot + 1..];
      if IndexOf(rest, '.') == |rest| then "" else rest[..IndexOf(rest, '.')]
  }

  /** The group `cms` looks for the rest of its name inside the option. */
  function SectionOfDotted(text: string): Section {
    if BetweenDots(text) == "Prefetch" && InSection(Prefetch, NameOf(text)).Some? then Prefetch
    else if BetweenDots(text) == "Redelivery" && InSection(Redelivery, NameOf(text)).Some? then Redelivery
    else Connection
  }

  /** Which section an update writes to, if it names one at all. */
  function SectionOf(u: Update): Option<Section> {
    match u
    case Plain(text) =>
      if InSection(Socket, NameOf(text)).Some? then Some(Socket) else Some(Failover)
    case Grouped(group, text) =>
      if group == "cms" then Some(SectionOfDotted(text))
      else if group == "transport" then Some(Transport)
      else if group == "transaction" then Some(Transaction)
      else if group == "connection" then Some(Connection)
      else if group == "cms.Prefetch" then Some(Prefetch)
      else if group == "cms.Redelivery" then Some(Redelivery)
      else None
  }

  const INT_MAX := 0x7fff_ffff

  function StoiValue(digits: string, negative: bool): Result<int, Fault>
    requires NumberText.AllDigits(digits)
  {
    if digits == "" then Err(InvalidArgument)
    else
      var m: int := NumberText.DecimalValue(digits);
      var v := if negative then -m else m;
      if -INT_MAX - 1 <= v <= INT_MAX then Ok(v) else Err(OutOfRange)
  }

  /** `stoi`: white space, a sign, digits; anything behind them is ignored. */
  function Stoi(s: string): Result<int, Fault> {
    var w := NumberText.SpaceRun(s);
    var g := w + NumberText.SignRun(s[w..]);
    StoiValue(s[g..][..NumberText.DigitRun(s[g..])], g > w && s[w] == '-')
  }

  /** `stoi` on a number: its value, with its sign; without digits, or outside 32 bits, it throws. */
  lemma StoiReads(spaces: string, sign: string, s: string, rest: string)
    requires NumberText.AllSpaces(spaces) && NumberText.IsSign(sign) && NumberText.AllDigits(s)
    requires rest == "" || !NumberText.IsDigit(rest[0])
    requires s == "" ==> NumberText.StopsSkipping(rest)
    ensures var m: int := NumberText.DecimalValue(s);
            var v := if NumberText.IsMinus(sign) then -m else m;
            Stoi(spaces + (sign + (s + rest))) ==
              if s == "" then Err(InvalidArgument)
              else if -0x8000_0000 <= v <= 0x7fff_ffff then Ok(v) else Err(OutOfRange)
  {
    NumberText.DecimalFound(spaces, sign, s, rest);
    hide NumberText.AllSpaces, NumberText.IsSign, NumberText.IsMinus, NumberText.AllDigits, NumberText.StopsSkipping;
    hide NumberText.SpaceRun, NumberText.SignRun, NumberText.DigitRun, NumberText.DecimalValue, StoiValue;
    assert Stoi(spaces + (sign + (s + rest))) == StoiValue(s, NumberText.IsMinus(sign));
    StoiValueOf(s, NumberText.IsMinus(sign));
  }

  lemma StoiValueOf(s: string, negative: bool)
    requires NumberText.AllDigits(s)
    ensures var v: int := if negative then -(NumberText.DecimalValue(s) as int) else NumberText.DecimalValue(s);
            StoiValue(s, negative) ==
              if s == "" then Err(InvalidArgument)
              else if -0x8000_0000 <= v <= 0x7fff_ffff then Ok(v) else Err(OutOfRange)
  {
    hide NumberText.AllDigits, NumberText.DecimalValue;
  }

  /** The decimal text of an integer. */
  function IntText(n: int): string {
    if n < 0 then "-" + NumberText.DecimalText(-n) else NumberText.DecimalText(n)
  }

  lemma StoiReadsIntText(n: int)
    ensures Stoi(IntText(n)) == if -0x8000_0000 <= n <= 0x7fff_ffff then Ok(n) else Err(OutOfRange)
  {
    hide Stoi, NumberText.DecimalText, NumberText.IsSign, NumberText.IsMinus;
    Signs();
    if n < 0 {
      StoiReadsSigned("-", -n);
    } else {
      StoiReadsSigned("", n);
      NothingInFront(NumberText.DecimalText(n));
    }
  }

  lemma StoiReadsSigned(sign: string, m: nat)
    requires NumberText.IsSign(sign)
    ensures var v: int := if NumberText.IsMinus(sign) then -(m as int) else m;
            Stoi(sign + NumberText.DecimalText(m)) ==
              if -0x8000_0000 <= v <= 0x7fff_ffff then Ok(v) else Err(OutOfRange)
  {
    hide Stoi, NumberText.DecimalText, NumberText.DecimalValue, NumberText.IsSign, NumberText.IsMinus;
    var s := NumberText.DecimalText(m);
    NumberText.DecimalValueInvertsText(m);
    StoiReads("", sign, s, "");
    NothingAround(sign, s);
  }

  lemma NothingAround(sign: string, s: string)
    ensures "" + (sign + (s + "")) == sign + s
  {}

  lemma NothingInFront(s: string)
    ensures "" + s == s
  {}

  lemma Signs()
    ensures NumberText.IsSign("-") && NumberText.IsSign("") && NumberText.IsMinus("-") && !NumberText.IsMinus("")
  {}

  function Convert(kind: SettingKind, text: string): Result<SettingValue, Fault> {
    match kind
    case BoolSetting => Ok(BoolValue(text == "true"))
    case FloatSetting => Ok(FloatValue(text))
    case IntSetting => (match Stoi(text) case Ok(n) => Ok(IntValue(n)) case Err(fault) => Err(fault))
  }

  /** What an update writes: nothing, one setting, or it throws.  The group `cms` on its own steps an
      iterator past the end of an option without a dot. */
  function Effect(u: Update): Result<Option<(Setting, SettingValue)>, Fault> {
    var sep := IndexOf(u.text, '=');
    if sep == |u.text| then Ok(None)
    else if u.Grouped? && u.group == "cms" && '.' !in u.text then Err(Undefined)
    else if SectionOf(u).None? then Ok(None)
    else
      var section := SectionOf(u).value;
      var name := u.text[..sep];
      match InSection(section, name)
      case None => Ok(None)
      case Some(kind) =>
        match Convert(kind, u.text[sep + 1..])
        case Err(fault) => Err(fault)
        case Ok(v) => Ok(Some((Setting(section, name), v)))
  }

  function Update1(p: Parameters, u: Update): Result<Parameters, Fault> {
    match Effect(u)
    case Err(fault) => Err(fault)
    case Ok(None) => Ok(p)
    case Ok(Some((setting, v))) => Ok(p[setting := v])
  }

  /** A plain left fold; the first exception ends it. */
  function Fold(p: Parameters, us: seq<Update>): Result<Parameters, Fault>
    decreases |us|
  {
    if us == [] then Ok(p)
    else
      match Update1(p, us[0])
      case Err(fault) => Err(fault)
      case Ok(q) => Fold(q, us[1..])
  }

  lemma {:induction false} FoldConcat(p: Parameters, us: seq<Update>, vs: seq<Update>)
    ensures Fold(p, us + vs) == match Fold(p, us) case Err(fault) => Err(fault) case Ok(q) => Fold(q, vs)
    decreases |us|
  {
    if us == [] {
      assert us + vs == vs;
    } else {
      assert (us + vs)[0] == us[0] && (us + vs)[1..] == us[1..] + vs;
      match Update1(p, us[0]) {
        case Err(_) =>
        case Ok(q) => FoldConcat(q, us[1..], vs);
      }
    }
  }

  lemma FoldOne(p: Parameters, u: Update)
    ensures Fold(p, [u]) == Update1(p, u)
  {
    assert [u][1..] == [];
  }
}
