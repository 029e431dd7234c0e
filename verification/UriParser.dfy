/** The broker URI parser and the factory context that splits off the main broker. */
module UriParsers {
  import opened Prelude
  import opened Strings
  import opened UriText
  import opened UriOptions
  import opened UriOrder
  import opened UriSettings

  const FAILOVER := "failover:"

  /** The regular expression matches whole URLs without a line break. */
  predicate IsFailover(url: string) {
    StartsWith(url, FAILOVER) && '\n' !in url && '\r' !in url
  }

  /** The part of the URL that lists the brokers. */
  function BrokerText(url: string): Result<string, Fault> {
    if IsFailover(url) then
      if |url| < 10 then Err(OutOfRange)
      else
        var inner := if |url| == 10 then "" else url[10..|url| - 1];
        Ok(inner[..IndexOf(inner, ')')])
    else Ok(url[..IndexOf(url, '?')])
  }

  /** The C string behind the first question mark. */
  function OptionText(url: string): Option<string> {
    var at := IndexOf(url, '?');
    if at == |url| then None
    else
      var rest := url[at + 1..];
      Some(rest[..IndexOf(rest, '\0')])
  }

  /** The settings a URL asks for: the defaults, with the scanner's updates applied. */
  function Settings(url: string): Result<Parameters, Fault> {
    match OptionText(url)
    case None => Ok(DEFAULTS)
    case Some(options) =>
      match Scan(options, false)
      case Err(fault) => Err(fault)
      case Ok((updates, _)) => Fold(DEFAULTS, updates)
  }

  /** What applying the scanner's updates to `p` yields. */
  ghost predicate Applies(p: Parameters, s: string, compound: bool, r: Result<string, Fault>, q: Parameters) {
    var scan := Scan(s, compound);
    if scan.Err? then r.Err?
    else
      var after := Fold(p, scan.value.0);
      if after.Err? then r == Err(after.error) else r == Ok(scan.value.1) && q == after.value
  }

  lemma AppliesThenEmits(p: Parameters, s: string, compound: bool, updates: seq<Update>, q: Parameters, u: Update,
      text: string)
    requires Fold(p, updates) == Ok(q)
    requires Scan(s, compound) == Ok((updates + [u], text))
    ensures Update1(q, u).Err? ==> Applies(p, s, compound, Err(Update1(q, u).error), q)
    ensures Update1(q, u).Ok? ==> Applies(p, s, compound, Ok(text), Update1(q, u).value)
  {
    hide Effect, Scan;
    FoldConcat(p, updates, [u]);
    FoldOne(q, u);
  }

  /** An exception in the text behind the stop ends the whole call, before its own update. */
  lemma InnerThrows(p: Parameters, s: string, stop: nat, compound: bool, fault: Fault, q: Parameters)
    requires StopsAt(s, stop) && stop < |s| && (s[stop] == '.' || (s[stop] == '&' && compound))
    requires Applies(p, s[stop + 1..], true, Err(fault), q)
    ensures Applies(p, s, compound, Err(fault), q)
  {
    hide Effect;
    var inner := Scan(s[stop + 1..], true);
    if inner.Ok? {
      var (updates, text) := inner.value;
      ScanFrom(s, stop, compound);
      FoldConcat(p, updates, if s[stop] == '&' then Emit(text) else if text == "" then []
          else [Grouped(s[..stop], text)]);
    }
  }

  lemma FoldNothing(p: Parameters, updates: seq<Update>)
    ensures Fold(p, updates + []) == Fold(p, updates)
  {
    assert updates + [] == updates;
  }

  class UriParser {
    var urls: seq<string>
    var parameters: Parameters

    constructor ()
      ensures urls == [] && parameters == DEFAULTS
    {
      urls, parameters := [], DEFAULTS;
    }

    /** Both overloads of `updateOption`; an empty option is ignored. */
    method UpdateOption(u: Update) returns (r: Result<(), Fault>)
      modifies this`parameters
      ensures u.text == "" ==> r == Ok(()) && parameters == old(parameters)
      ensures u.text != "" ==>
                match Update1(old(parameters), u)
                case Err(fault) => r == Err(fault) && parameters == old(parameters)
                case Ok(p) => r == Ok(()) && parameters == p
    {
      if u.text == "" {
        return Ok(());
      }
      match Effect(u) {
        case Err(fault) => return Err(fault);
        case Ok(None) =>
        case Ok(Some((setting, v))) => parameters := parameters[setting := v];
      }
      r := Ok(());
    }

    /** Where the recursion splits: the last dot before the first ampersand, or that ampersand. */
    method FindStop(s: string, end: nat) returns (stop: nat)
      requires 0 < end <= |s|
      ensures stop == LastDot(s, end, end - 1)
    {
      stop := end;
      var space := end - 1;
      while space != 0
        invariant 0 <= space < end
        invariant LastDot(s, end, end - 1) == LastDot(s, end, space)
      {
        if s[space] == '.' {
          stop := space;
          break;
        }
        space := space - 1;
      }
    }

    method GetOptionsString(s: string, compound: bool) returns (r: Result<string, Fault>)
      modifies this`parameters
      ensures Applies(old(parameters), s, compound, r, parameters)
      decreases |s|
    {
      hide Effect, Update1, IndexOf, LastDot;
      var end := IndexOf(s, '&');
      if end == 0 {
        return Err(Undefined);
      }
      ghost var p := parameters;
      var stop := FindStop(s, end);
      if stop == |s| {
        if compound {
          return Ok(s);
        }
        FoldOne(p, Plain(s));
        var done := UpdateOption(Plain(s));
        return if done.Err? then Err(done.error) else Ok("");
      }
      if s[stop] == '.' {
        var inner := GetOptionsString(s[stop + 1..], true);
        if inner.Err? {
          InnerThrows(p, s, stop, compound, inner.error, parameters);
          return Err(inner.error);
        }
        ghost var (updates, _) := Scan(s[stop + 1..], true).value;
        if inner.value == "" {
          FoldNothing(p, updates);
        } else {
          AppliesThenEmits(p, s, compound, updates, parameters, Grouped(s[..stop], inner.value), "");
        }
        var done := UpdateOption(Grouped(s[..stop], inner.value));
        return if done.Err? then Err(done.error) else Ok("");
      }
      if compound {
        var inner := GetOptionsString(s[stop + 1..], true);
        if inner.Err? {
          InnerThrows(p, s, stop, compound, inner.error, parameters);
          return Err(inner.error);
        }
        ghost var (updates, _) := Scan(s[stop + 1..], true).value;
        if inner.value == "" {
          FoldNothing(p, updates);
        } else {
          AppliesThenEmits(p, s, compound, updates, parameters, Plain(inner.value), s[..stop]);
        }
        var done := UpdateOption(Plain(inner.value));
        return if done.Err? then Err(done.error) else Ok(s[..stop]);
      }
      var done := UpdateOption(Plain(s[..stop]));
      if done.Err? {
        FirstThrows(p, s, stop, done.error, parameters);
        return Err(done.error);
      }
      ghost var p' := parameters;
      var rest := GetOptionsString(s[stop + 1..], false);
      FirstThenRest(p, s, stop, p', rest, parameters);
      return if rest.Err? then Err(rest.error) else Ok("");
    }

    method ParseURI(url: string) returns (r: Result<(), Fault>)
      modifies this
      ensures BrokerText(url).Err? ==> r.Err?
      ensures BrokerText(url).Ok? ==> urls == UpToEmpty(SplitOn(BrokerText(url).value, ','))
      ensures BrokerText(url).Ok? && Settings(url).Ok? ==> r == Ok(()) && parameters == Settings(url).value
      ensures BrokerText(url).Ok? && Settings(url).Err? ==> r.Err?
    {
      hide Effect, Update1, Scan;
      urls, parameters := [], DEFAULTS;
      match BrokerText(url) {
        case Err(fault) => return Err(fault);
        case Ok(text) => urls := SplitBrokers(text);
      }
      match OptionText(url) {
        case None => r := Ok(());
        case Some(options) =>
          var done := GetOptionsString(options, false);
          r := if done.Err? then Err(done.error) else Ok(());
      }
    }
  }

  /** A plain option in front of the first grouped one is applied before the recursion. */
  lemma FirstThrows(p: Parameters, s: string, stop: nat, fault: Fault, q: Parameters)
    requires StopsAt(s, stop) && 0 < stop < |s| && s[stop] == '&' && Update1(p, Plain(s[..stop])) == Err(fault)
    ensures Applies(p, s, false, Err(fault), q)
  {
    hide Effect;
    if Scan(s[stop + 1..], false).Ok? {
      ScanFrom(s, stop, false);
      FoldConcat(p, [Plain(s[..stop])], Scan(s[stop + 1..], false).value.0);
      FoldOne(p, Plain(s[..stop]));
    }
  }

  lemma FirstThenRest(p: Parameters, s: string, stop: nat, p': Parameters, r: Result<string, Fault>, q: Parameters)
    requires StopsAt(s, stop) && 0 < stop < |s| && s[stop] == '&' && Update1(p, Plain(s[..stop])) == Ok(p')
    requires Applies(p', s[stop + 1..], false, r, q)
    ensures Applies(p, s, false, if r.Err? then Err(r.error) else Ok(""), q)
  {
    hide Effect;
    if Scan(s[stop + 1..], false).Ok? {
      ScanFrom(s, stop, false);
      FoldConcat(p, [Plain(s[..stop])], Scan(s[stop + 1..], false).value.0);
      FoldOne(p, Plain(s[..stop]));
    }
  }

  // ---------------------------------------------------------------- the factory

  /** Main broker and failover list. */
  class FactoryContext {
    var mParameters: Parameters
    var mBroker: string
    var mFailoverAddresses: seq<string>

    constructor (urls: seq<string>, parameters: Parameters)
      requires urls != []
      ensures [mBroker] + mFailoverAddresses == urls && mParameters == parameters
    {
      mParameters := parameters;
      mBroker := urls[0];
      mFailoverAddresses := urls[1..];
    }
  }

  /** The constructor up to its first exception; an empty broker list has no first element. */
  method CreateContext(url: string) returns (r: Result<FactoryContext, Fault>)
    ensures r.Ok? <==>
              BrokerText(url).Ok? && Settings(url).Ok? && UpToEmpty(SplitOn(BrokerText(url).value, ',')) != []
    ensures r.Ok? ==>
              && [r.value.mBroker] + r.value.mFailoverAddresses == UpToEmpty(SplitOn(BrokerText(url).value, ','))
              && r.value.mParameters == Settings(url).value
  {
    var parser := new UriParser();
    var parsed := parser.ParseURI(url);
    if parsed.Err? {
      return Err(parsed.error);
    }
    if parser.urls == [] {
      return Err(Undefined);
    }
    var context := new FactoryContext(parser.urls, parser.parameters);
    r := Ok(context);
  }

  // ---------------------------------------------------------------- whole URLs

  predicate HostsOk(hosts: seq<string>) {
    && hosts != [] && NoneEmpty(hosts) && FreeOf(hosts, ',') && FreeOf(hosts, ')') && FreeOf(hosts, '?')
    && FreeOf(hosts, '\n') && FreeOf(hosts, '\r')
  }

  predicate TextClean(s: string) {
    '\n' !in s && '\r' !in s && '\0' !in s
  }

  /** `?` and the options, or nothing. */
  function Tail(os: seq<Update>): string {
    if os == [] then "" else "?" + RenderAll(os)
  }

  function PlainUrl(hosts: seq<string>, os: seq<Update>): string
    requires hosts != []
  {
    Join(hosts, ',') + Tail(os)
  }

  function FailoverUrl(hosts: seq<string>, os: seq<Update>): string
    requires hosts != []
  {
    "failover:(" + (Join(hosts, ',') + (")" + Tail(os)))
  }

  lemma HostsRecovered(hosts: seq<string>)
    requires HostsOk(hosts)
    ensures UpToEmpty(SplitOn(Join(hosts, ','), ',')) == hosts
  {
    SplitInvertsJoin(hosts, ',');
    UpToEmptyIsAll(hosts);
  }

  lemma TailStarts(os: seq<Update>)
    ensures Tail(os) == "" || Tail(os)[0] == '?'
    ensures os != [] ==> Tail(os)[1..] == RenderAll(os)
  {}

  lemma OptionsFound(before: string, os: seq<Update>)
    requires '?' !in before && (os == [] || TextClean(RenderAll(os)))
    ensures OptionText(before + Tail(os)) == if os == [] then None else Some(RenderAll(os))
  {
    var url := before + Tail(os);
    TailStarts(os);
    IndexOfAppend(before, '?', Tail(os));
    if os != [] {
      assert url[|before| + 1..] == RenderAll(os);
      IndexOfAppend(RenderAll(os), '\0', "");
      assert RenderAll(os) + "" == RenderAll(os);
    }
  }

  /** The plain form recovers the hosts and the options. */
  lemma PlainUrlParts(hosts: seq<string>, os: seq<Update>)
    requires HostsOk(hosts) && !StartsWith(PlainUrl(hosts, os), FAILOVER)
    requires os == [] || TextClean(RenderAll(os))
    ensures BrokerText(PlainUrl(hosts, os)) == Ok(Join(hosts, ','))
    ensures OptionText(PlainUrl(hosts, os)) == if os == [] then None else Some(RenderAll(os))
  {
    var before := Join(hosts, ',');
    JoinIsFreeOf(hosts, ',', '?');
    TailStarts(os);
    IndexOfAppend(before, '?', Tail(os));
    assert PlainUrl(hosts, os)[..|before|] == before;
    OptionsFound(before, os);
  }

  /** What the failover form lists before its closing parenthesis, one character having been cut off the
      end. */
  lemma FailoverBrokers(list: string, tail: string)
    requires ')' !in list && '\n' !in list && '\r' !in list && '\n' !in tail && '\r' !in tail
    ensures BrokerText("failover:(" + (list + (")" + tail))) == Ok(list)
  {
    hide IndexOf;
    var url := "failover:(" + (list + (")" + tail));
    FailoverMatches(list, tail);
    var cut := (")" + tail)[..|tail|];
    var inner := list + cut;
    assert |url| == 11 + |list| + |tail| && (|url| > 10 ==> url[10..|url| - 1] == inner);
    IndexOfAppend(list, ')', cut);
    assert inner[..|list|] == list;
  }

  /** Every text behind the failover scheme loses its first and its last character, whatever they are, and
      what follows the first closing parenthesis. */
  lemma FailoverTextIsCut(first: char, inner: string, last: char)
    requires '\n' !in inner && '\r' !in inner && first != '\n' && first != '\r' && last != '\n' && last != '\r'
    ensures BrokerText("failover:" + ([first] + (inner + [last]))) == Ok(inner[..IndexOf(inner, ')')])
  {
    hide IndexOf;
    var url := "failover:" + ([first] + (inner + [last]));
    assert url[..9] == FAILOVER && url[10..|url| - 1] == inner;
  }

  /** With one character it lists nothing, and with none it throws. */
  lemma ShortFailover(first: char)
    requires first != '\n' && first != '\r'
    ensures BrokerText("failover:") == Err(OutOfRange) && BrokerText("failover:" + [first]) == Ok("")
  {
    hide IndexOf;
    var url := "failover:" + [first];
    assert url[..9] == FAILOVER && |url| == 10;
    assert '\n' !in url && '\r' !in url;
    assert ""[..IndexOf("", ')')] == "";
  }

  /** A line break anywhere makes it a plain URL. */
  lemma LineBreakIsPlain(url: string)
    requires '\n' in url || '\r' in url
    ensures BrokerText(url) == Ok(url[..IndexOf(url, '?')])
  {}

  /** The options start at the first question mark, and end at a NUL. */
  lemma OptionsEndAtNul(before: string, options: string, rest: string)
    requires '?' !in before && '\0' !in options
    ensures OptionText(before + ("?" + (options + ("\0" + rest)))) == Some(options)
  {
    var tail := options + ("\0" + rest);
    IndexOfAppend(before, '?', "?" + tail);
    assert (before + ("?" + tail))[|before| + 1..] == tail;
    IndexOfAppend(options, '\0', "\0" + rest);
  }

  /** Whatever the URL says, every setting has a value of its own kind, and there are no others. */
  lemma SettingsAreComplete(url: string)
    requires Settings(url).Ok?
    ensures Complete(Settings(url).value)
    ensures '?' !in url ==> Settings(url).value == DEFAULTS
  {
    hide Complete, Fold, UriOptions.Scan;
    DefaultsAreComplete();
    var at := IndexOf(url, '?');
    assert '?' !in url ==> at == |url|;
    if OptionText(url).Some? {
      FoldKeepsComplete(DEFAULTS, UriOptions.Scan(OptionText(url).value, false).value.0);
    }
  }

  /** So does the failover form, although it cuts a character off the end first. */
  lemma FailoverUrlParts(hosts: seq<string>, os: seq<Update>)
    requires HostsOk(hosts) && (os == [] || TextClean(RenderAll(os)))
    ensures BrokerText(FailoverUrl(hosts, os)) == Ok(Join(hosts, ','))
    ensures OptionText(FailoverUrl(hosts, os)) == if os == [] then None else Some(RenderAll(os))
  {
    hide BrokerText, OptionText, RenderAll, Join;
    var list := Join(hosts, ',');
    JoinIsFreeOf(hosts, ',', '?');
    JoinIsFreeOf(hosts, ',', ')');
    JoinIsFreeOf(hosts, ',', '\n');
    JoinIsFreeOf(hosts, ',', '\r');
    FailoverBrokers(list, Tail(os));
    var before := "failover:(" + (list + ")");
    assert FailoverUrl(hosts, os) == before + Tail(os);
    assert '?' !in "failover:(" && '?' !in list + ")";
    OptionsFound(before, os);
  }

  lemma FailoverMatches(list: string, tail: string)
    requires '\n' !in list && '\r' !in list && '\n' !in tail && '\r' !in tail
    ensures IsFailover("failover:(" + (list + (")" + tail)))
  {
    var url := "failover:(" + (list + (")" + tail));
    assert "failover:("[..9] == FAILOVER;
    assert url[..9] == "failover:("[..9];
  }

  /** Whole URLs: in either form, the broker list and the options come back as they were written; the
      settings agree with the plain left-to-right reading exactly if the order of the options cannot show. */
  lemma UrlRoundTrip(hosts: seq<string>, os: seq<Update>, url: string)
    requires HostsOk(hosts) && (os == [] || (TextClean(RenderAll(os)) && OptionsOk(os)))
    requires url == FailoverUrl(hosts, os) || (url == PlainUrl(hosts, os) && !StartsWith(url, FAILOVER))
    ensures BrokerText(url).Ok? && UpToEmpty(SplitOn(BrokerText(url).value, ',')) == hosts
    ensures Agree(Settings(url), Fold(DEFAULTS, os)) <==> SomeThrows(os) || forall key :: EndsAgree(key, os)
  {
    hide Scan, Effect, BrokerText, OptionText, EndsAgree, SomeThrows, ScanOrder;
    if url == FailoverUrl(hosts, os) { FailoverUrlParts(hosts, os); } else { PlainUrlParts(hosts, os); }
    HostsRecovered(hosts);
    if os == [] {
      forall key ensures EndsAgree(key, os) { NothingToDisagree(key); }
    } else {
      ScanAppliesEachOnce(os);
      ScanOrderAgreesIff(DEFAULTS, os);
    }
  }

  lemma NothingToDisagree(key: Setting)
    ensures EndsAgree(key, [])
  {}
}
