/** Every option of the broker URL, by name: which setting it writes, and what it makes of its text. */
module UriSettings {
  import opened Prelude
  import opened Strings
  import opened UriOptions
  import opened UriOrder
  import NumberText

  /** An option behind its group, if it has one. */
  function Named(group: Option<string>, name: string, value: string): Update {
    var text := name + ("=" + value);
    if group.None? then Plain(text) else Grouped(group.value, text)
  }

  // ---------------------------------------------------------------- the options

  /** Those that take a flag. */
  predicate TakesFlag(group: Option<string>, section: Section, name: string) {
    match section
    case Socket => group.None? && (name == "soKeepAlive" || name == "tcpNoDelay")
    case Failover => group.None? && (name == "useExpotentialBackOff" || name == "randomize" || name == "backup")
    case Transport =>
      && group == Some("transport")
      && (name == "commandTracingEnabled" || name == "tcpTracingEnabled" || name == "useAsyncSend")
    case Connection =>
      && group == Some("connection")
      && (name == "useAsyncSend" || name == "alwaysSyncSend" || name == "useCompression" || name == "dispatchAsync")
    case Redelivery =>
      group == Some("cms.Redelivery") && (name == "useCollisionAvoidance" || name == "useExponentialBackOff")
    case Transaction => false
    case Prefetch => false
  }

  /** Those that take an integer. */
  predicate TakesInt(group: Option<string>, section: Section, name: string) {
    match section
    case Socket =>
      && group.None?
      && (name == "inputBufferSize" || name == "outputBufferSize" || name == "soLinger"
          || name == "soReceiveBufferSize" || name == "soConnectionTimeout" || name == "soSendBufferSize")
    case Failover =>
      && group.None?
      && (name == "initialReconnectDelay" || name == "maxReconnectDelay" || name == "startupMaxReconnectAttempts"
          || name == "maxReconnectAttempts" || name == "backupPoolSize" || name == "timeout")
    case Transport => group == Some("transport") && name == "responseCorrelator_MaxResponseWaitTime"
    case Transaction => group == Some("transaction") && name == "maxRedeliveryCount"
    case Connection =>
      group == Some("connection") && (name == "sendTimeout" || name == "producerWindowSize" || name == "closeTimeout")
    case Prefetch =>
      && group == Some("cms.Prefetch")
      && (name == "durableTopicPrefetch" || name == "queueBrowserPrefetch" || name == "queuePrefetch"
          || name == "topicPrefetch")
    case Redelivery =>
      && group == Some("cms.Redelivery")
      && (name == "collisionAvoidancePercent" || name == "initialRedeliveryDelay" || name == "maximumRedeliveries")
  }

  /** The one that takes a floating-point number. */
  predicate TakesFloat(group: Option<string>, section: Section, name: string) {
    section == Redelivery && group == Some("cms.Redelivery") && name == "backOffMultiplier"
  }

  predicate Known(group: Option<string>, section: Section, name: string) {
    TakesFlag(group, section, name) || TakesInt(group, section, name) || TakesFloat(group, section, name)
  }

  // ---------------------------------------------------------------- where an option belongs

  lemma NameInFront(name: string, value: string)
    requires '=' !in name
    ensures var text := name + ("=" + value);
            && IndexOf(text, '=') == |name| < |text| && NameOf(text) == text[..|name|] == name
            && text[|name| + 1..] == value
  {
    IndexOfAppend(name, '=', "=" + value);
    assert (name + ("=" + value))[..|name|] == name;
  }

  lemma FlagKind(group: Option<string>, section: Section, name: string)
    requires TakesFlag(group, section, name)
    ensures '=' !in name && InSection(section, name) == Some(BoolSetting)
  {}

  lemma IntKind(group: Option<string>, section: Section, name: string)
    requires TakesInt(group, section, name)
    ensures '=' !in name && InSection(section, name) == Some(IntSetting)
  {
    hide InSection;
    match section {
      case Socket => SocketInt(group, name);
      case Failover => FailoverInt(group, name);
      case Prefetch => PrefetchInt(group, name);
      case _ => OtherInt(group, section, name);
    }
  }

  lemma SocketInt(group: Option<string>, name: string)
    requires TakesInt(group, Socket, name)
    ensures '=' !in name && InSection(Socket, name) == Some(IntSetting)
  {}

  lemma FailoverInt(group: Option<string>, name: string)
    requires TakesInt(group, Failover, name)
    ensures '=' !in name && InSection(Failover, name) == Some(IntSetting)
  {}

  lemma PrefetchInt(group: Option<string>, name: string)
    requires TakesInt(group, Prefetch, name)
    ensures '=' !in name && InSection(Prefetch, name) == Some(IntSetting)
  {}

  lemma OtherInt(group: Option<string>, section: Section, name: string)
    requires TakesInt(group, section, name) && section != Socket && section != Failover && section != Prefetch
    ensures '=' !in name && InSection(section, name) == Some(IntSetting)
  {}

  lemma FloatKind(group: Option<string>, section: Section, name: string)
    requires TakesFloat(group, section, name)
    ensures '=' !in name && InSection(section, name) == Some(FloatSetting)
  {}

  /** No failover option is called like a socket option. */
  lemma FailoverIsNotSocket(group: Option<string>, name: string)
    requires Known(group, Failover, name)
    ensures InSection(Socket, name).None?
  {}

  lemma PlainSection(section: Section, name: string, value: string)
    requires Known(None, section, name) && '=' !in name && InSection(section, name).Some?
    ensures SectionOf(Named(None, name, value)) == Some(section)
  {
    hide InSection;
    NameInFront(name, value);
    if section == Failover { FailoverIsNotSocket(None, name); }
  }

  lemma GroupedSection(group: string, section: Section, name: string, value: string)
    requires Known(Some(group), section, name)
    ensures group != "cms" && SectionOf(Named(Some(group), name, value)) == Some(section)
  {
    hide InSection;
    assert "cms.Prefetch"[3] == '.' && "cms.Redelivery"[3] == '.';
  }

  /** A known option writes its own setting and nothing else. */
  lemma KnownOptionEffect(group: Option<string>, section: Section, name: string, value: string, kind: SettingKind)
    requires Known(group, section, name) && '=' !in name && InSection(section, name) == Some(kind)
    ensures Effect(Named(group, name, value)) ==
              match Convert(kind, value)
              case Err(fault) => Err(fault)
              case Ok(v) => Ok(Some((Setting(section, name), v)))
  {
    hide InSection, SectionOf, Convert, Effect;
    NameInFront(name, value);
    if group.None? { PlainSection(section, name, value); } else { GroupedSection(group.value, section, name, value); }
    hide Known, IndexOf;
    EffectInSection(Named(group, name, value), section, name, value, kind);
  }

  lemma EffectInSection(u: Update, section: Section, name: string, value: string, kind: SettingKind)
    requires IndexOf(u.text, '=') == |name| < |u.text| && u.text[..|name|] == name && u.text[|name| + 1..] == value
    requires u.Grouped? ==> u.group != "cms"
    requires SectionOf(u) == Some(section) && InSection(section, name) == Some(kind)
    ensures Effect(u) == match Convert(kind, value)
                         case Err(fault) => Err(fault)
                         case Ok(v) => Ok(Some((Setting(section, name), v)))
  {
    hide InSection, SectionOf, Convert, IndexOf;
  }

  // ---------------------------------------------------------------- what each option does

  /** A flag is set by `true`, letter for letter, and cleared by any other text; every other setting stays. */
  lemma FlagOptionWrites(p: Parameters, group: Option<string>, section: Section, name: string, value: string)
    requires TakesFlag(group, section, name)
    ensures Update1(p, Named(group, name, value)) == Ok(p[Setting(section, name) := BoolValue(value == "true")])
  {
    hide InSection, Effect;
    FlagKind(group, section, name);
    KnownOptionEffect(group, section, name, value, BoolSetting);
  }

  /** An integer option writes the number it starts with; without digits, or outside 32 bits, it throws and
      writes nothing. */
  lemma IntOptionWrites(p: Parameters, group: Option<string>, section: Section, name: string,
      spaces: string, sign: string, digits: string, rest: string)
    requires TakesInt(group, section, name)
    requires NumberText.AllSpaces(spaces) && NumberText.IsSign(sign) && NumberText.AllDigits(digits)
    requires rest == "" || !NumberText.IsDigit(rest[0])
    requires digits == "" ==> NumberText.StopsSkipping(rest)
    ensures var m: int := NumberText.DecimalValue(digits);
            var n: int := if NumberText.IsMinus(sign) then -m else m;
            Update1(p, Named(group, name, spaces + (sign + (digits + rest)))) ==
              if digits == "" then Err(InvalidArgument)
              else if -0x8000_0000 <= n <= 0x7fff_ffff then Ok(p[Setting(section, name) := IntValue(n)])
              else Err(OutOfRange)
  {
    hide TakesInt, InSection, Effect, Stoi, NumberText.DecimalValue, NumberText.AllDigits, NumberText.AllSpaces;
    hide NumberText.IsSign, NumberText.IsMinus, NumberText.IsDigit, NumberText.StopsSkipping;
    IntKind(group, section, name);
    KnownOptionEffect(group, section, name, spaces + (sign + (digits + rest)), IntSetting);
    StoiReads(spaces, sign, digits, rest);
  }

  /** In particular the decimal text of an integer writes that integer. */
  lemma IntOptionWritesNumber(p: Parameters, group: Option<string>, section: Section, name: string, n: int)
    requires TakesInt(group, section, name)
    ensures Update1(p, Named(group, name, IntText(n))) ==
              if -0x8000_0000 <= n <= 0x7fff_ffff then Ok(p[Setting(section, name) := IntValue(n)]) else Err(OutOfRange)
  {
    hide TakesInt, InSection, Effect, Stoi, IntText;
    IntKind(group, section, name);
    KnownOptionEffect(group, section, name, IntText(n), IntSetting);
    StoiReadsIntText(n);
  }

  lemma FloatOptionWrites(p: Parameters, group: Option<string>, section: Section, name: string, value: string)
    requires TakesFloat(group, section, name)
    ensures Update1(p, Named(group, name, value)) == Ok(p[Setting(section, name) := FloatValue(value)])
  {
    hide InSection, Effect;
    FloatKind(group, section, name);
    KnownOptionEffect(group, section, name, value, FloatSetting);
  }

  /** Any other name, behind any other group, changes nothing. */
  lemma UnknownOptionIsIgnored(p: Parameters, group: Option<string>, name: string, value: string)
    requires '=' !in name && group != Some("cms") && forall section :: !Known(group, section, name)
    ensures Update1(p, Named(group, name, value)) == Ok(p)
  {
    var u := Named(group, name, value);
    NameInFront(name, value);
    assert NameOf(u.text) == name;
    if SectionOf(u).Some? {
      UnknownInSection(group, SectionOf(u).value, name);
    }
    hide InSection, SectionOf, Known, Convert;
  }

  lemma UnknownInSection(group: Option<string>, section: Section, name: string)
    requires !Known(group, section, name)
    requires match section
             case Socket => group.None?
             case Failover => group.None?
             case Transport => group == Some("transport")
             case Transaction => group == Some("transaction")
             case Connection => group == Some("connection")
             case Prefetch => group == Some("cms.Prefetch")
             case Redelivery => group == Some("cms.Redelivery")
    ensures InSection(section, name).None?
  {}

  /** Nor does an option without a separator. */
  lemma OptionWithoutSeparator(p: Parameters, u: Update)
    requires '=' !in u.text
    ensures Update1(p, u) == Ok(p)
  {
    IndexOfAppend(u.text, '=', "");
    assert u.text + "" == u.text;
  }

  /** The group `cms` on its own leaves the text when it looks for the rest of its name. */
  lemma CmsAloneIsUndefined(p: Parameters, name: string, value: string)
    requires '=' !in name && '.' !in name && '.' !in value
    ensures Update1(p, Named(Some("cms"), name, value)) == Err(Undefined)
  {
    NameInFront(name, value);
  }

  lemma EffectBySection(u: Update, v: Update)
    requires u.text == v.text && u.Grouped? && v.Grouped? && SectionOf(u) == SectionOf(v)
    requires '.' in u.text && v.group != "cms"
    ensures Effect(u) == Effect(v)
  {
    hide SectionOf, InSection, Convert, IndexOf;
  }

  /** With a dot in its text, `cms` stands for `connection`. */
  lemma CmsWithDot(p: Parameters, name: string, value: string)
    requires Known(Some("connection"), Connection, name) && '.' in value
    ensures Update1(p, Named(Some("cms"), name, value)) == Update1(p, Named(Some("connection"), name, value))
  {
    hide Effect, InSection;
    ConnectionIsNoPolicy(name);
    NameInFront(name, value);
    EffectBySection(Named(Some("cms"), name, value), Named(Some("connection"), name, value));
  }

  lemma ConnectionIsNoPolicy(name: string)
    requires Known(Some("connection"), Connection, name)
    ensures '=' !in name && InSection(Prefetch, name).None? && InSection(Redelivery, name).None?
  {}

  /** With the rest of its name between the first two dots of the text, it stands for that policy. */
  lemma CmsWithPrefetch(p: Parameters, name: string, front: string, rest: string)
    requires Known(Some("cms.Prefetch"), Prefetch, name) && '.' !in front
    ensures var value := front + ("." + ("Prefetch" + ("." + rest)));
            Update1(p, Named(Some("cms"), name, value)) == Update1(p, Named(Some("cms.Prefetch"), name, value))
  {
    hide Effect, InSection, Known, BetweenDots;
    var value := front + ("." + ("Prefetch" + ("." + rest)));
    PrefetchIsKnown(name);
    NameInFront(name, value);
    PolicyBetweenDots(name, front, "Prefetch", rest);
    GroupedSection("cms.Prefetch", Prefetch, name, value);
    EffectBySection(Named(Some("cms"), name, value), Named(Some("cms.Prefetch"), name, value));
  }

  lemma PrefetchIsKnown(name: string)
    requires Known(Some("cms.Prefetch"), Prefetch, name)
    ensures '=' !in name && '.' !in name && InSection(Prefetch, name).Some?
  {}

  lemma CmsWithRedelivery(p: Parameters, name: string, front: string, rest: string)
    requires Known(Some("cms.Redelivery"), Redelivery, name) && '.' !in front
    ensures var value := front + ("." + ("Redelivery" + ("." + rest)));
            Update1(p, Named(Some("cms"), name, value)) == Update1(p, Named(Some("cms.Redelivery"), name, value))
  {
    hide Effect, InSection, Known, BetweenDots;
    var value := front + ("." + ("Redelivery" + ("." + rest)));
    RedeliveryIsKnown(name);
    NameInFront(name, value);
    PolicyBetweenDots(name, front, "Redelivery", rest);
    GroupedSection("cms.Redelivery", Redelivery, name, value);
    EffectBySection(Named(Some("cms"), name, value), Named(Some("cms.Redelivery"), name, value));
  }

  lemma RedeliveryIsKnown(name: string)
    requires Known(Some("cms.Redelivery"), Redelivery, name)
    ensures '=' !in name && '.' !in name && InSection(Redelivery, name).Some?
  {
    hide InSection, TakesFlag, TakesInt, TakesFloat;
    var group := Some("cms.Redelivery");
    if TakesFlag(group, Redelivery, name) {
      FlagKind(group, Redelivery, name);
    } else if TakesInt(group, Redelivery, name) {
      IntKind(group, Redelivery, name);
    } else {
      FloatKind(group, Redelivery, name);
    }
    NoDotInRedelivery(name);
  }

  lemma NoDotInRedelivery(name: string)
    requires Known(Some("cms.Redelivery"), Redelivery, name)
    ensures '.' !in name
  {}

  lemma PolicyBetweenDots(name: string, front: string, policy: string, rest: string)
    requires '.' !in name && '.' !in front && '.' !in policy
    ensures BetweenDots(name + ("=" + (front + ("." + (policy + ("." + rest)))))) == policy
  {
    hide IndexOf;
    var before := name + ("=" + front);
    var behind := policy + ("." + rest);
    assert name + ("=" + (front + ("." + behind))) == before + ("." + behind);
    IndexOfAppend(before, '.', "." + behind);
    assert (before + ("." + behind))[|before| + 1..] == behind;
    IndexOfAppend(policy, '.', "." + rest);
  }

  // ---------------------------------------------------------------- the settings as a whole

  predicate OfKind(v: SettingValue, kind: SettingKind) {
    match kind case IntSetting => v.IntValue? case BoolSetting => v.BoolValue? case FloatSetting => v.FloatValue?
  }

  /** Every setting there is has a value of its own kind, and there are no others. */
  ghost predicate Complete(p: Parameters) {
    forall section, name ::
      && (Setting(section, name) in p <==> InSection(section, name).Some?)
      && (Setting(section, name) in p ==> OfKind(p[Setting(section, name)], InSection(section, name).value))
  }

  lemma UpdateKeepsComplete(p: Parameters, u: Update)
    requires Complete(p) && Update1(p, u).Ok?
    ensures Complete(Update1(p, u).value)
  {
    hide InSection, SectionOf;
  }

  /** No option text adds a setting, drops one, or changes its kind. */
  lemma {:induction false} FoldKeepsComplete(p: Parameters, us: seq<Update>)
    requires Complete(p) && Fold(p, us).Ok?
    ensures Complete(Fold(p, us).value)
    decreases |us|
  {
    hide Complete, Effect;
    if us != [] {
      UpdateKeepsComplete(p, us[0]);
      FoldKeepsComplete(Update1(p, us[0]).value, us[1..]);
    }
  }

  lemma DefaultsAreComplete()
    ensures Complete(DEFAULTS)
  {
    hide InSection, DefaultsOf;
    forall section: Section, name
      ensures name in DefaultsOf(section) <==> InSection(section, name).Some?
      ensures name in DefaultsOf(section) ==> OfKind(DefaultsOf(section)[name], InSection(section, name).value)
    {
      DefaultKind(section, name);
    }
  }

  function Default(section: Section, name: string): Option<SettingValue> {
    if name in DefaultsOf(section) then Some(DefaultsOf(section)[name]) else None
  }

  lemma DefaultsByName(section: Section, name: string)
    ensures Setting(section, name) in DEFAULTS <==> Default(section, name).Some?
    ensures Setting(section, name) in DEFAULTS ==> DEFAULTS[Setting(section, name)] == Default(section, name).value
  {
    hide DefaultsOf;
  }

  /** Four flags are set without being asked for. */
  lemma DefaultFlags(group: Option<string>, section: Section, name: string)
    requires TakesFlag(group, section, name)
    ensures Default(section, name) == Some(BoolValue(name == "tcpNoDelay" || name == "useExpotentialBackOff"
                                                     || name == "randomize" || name == "dispatchAsync"))
  {
    hide TakesFlag, DefaultsOf;
    if section == Connection { ConnectionFlags(group, name); } else { OtherFlags(group, section, name); }
  }

  lemma ConnectionFlags(group: Option<string>, name: string)
    requires TakesFlag(group, Connection, name)
    ensures Default(Connection, name) == Some(BoolValue(name == "dispatchAsync"))
    ensures name != "tcpNoDelay" && name != "useExpotentialBackOff" && name != "randomize"
  {}

  lemma OtherFlags(group: Option<string>, section: Section, name: string)
    requires TakesFlag(group, section, name) && section != Connection
    ensures Default(section, name) == Some(BoolValue(name == "tcpNoDelay" || name == "useExpotentialBackOff"
                                                     || name == "randomize"))
    ensures name != "dispatchAsync"
  {}

  /** Minus one leaves a size or a time to the system. */
  lemma SocketDefaults()
    ensures Default(Socket, "inputBufferSize") == Default(Socket, "outputBufferSize") == Some(IntValue(10000))
    ensures Default(Socket, "soLinger") == Some(IntValue(0))
    ensures Default(Socket, "soReceiveBufferSize") == Default(Socket, "soSendBufferSize") == Some(IntValue(-1))
    ensures Default(Socket, "soConnectionTimeout") == Some(IntValue(-1))
  {}

  lemma FailoverDefaults()
    ensures Default(Failover, "initialReconnectDelay") == Some(IntValue(10))
    ensures Default(Failover, "maxReconnectDelay") == Some(IntValue(30000))
    ensures Default(Failover, "maxReconnectAttempts") == Some(IntValue(0))
    ensures Default(Failover, "startupMaxReconnectAttempts") == Some(IntValue(0))
    ensures Default(Failover, "backupPoolSize") == Some(IntValue(1))
    ensures Default(Failover, "timeout") == Some(IntValue(-1))
  {}

  lemma ConnectionDefaults()
    ensures Default(Connection, "sendTimeout") == Default(Connection, "producerWindowSize") == Some(IntValue(0))
    ensures Default(Connection, "closeTimeout") == Some(IntValue(15000))
    ensures Default(Transport, "responseCorrelator_MaxResponseWaitTime") == Some(IntValue(3000))
    ensures Default(Transaction, "maxRedeliveryCount") == Some(IntValue(5))
  {}

  lemma PolicyDefaults()
    ensures Default(Prefetch, "durableTopicPrefetch") == Some(IntValue(100))
    ensures Default(Prefetch, "queueBrowserPrefetch") == Some(IntValue(500))
    ensures Default(Prefetch, "queuePrefetch") == Some(IntValue(1000))
    ensures Default(Prefetch, "topicPrefetch") == Some(IntValue(65535))
  {}

  lemma RedeliveryDefaults()
    ensures Default(Redelivery, "collisionAvoidancePercent") == Some(IntValue(15))
    ensures Default(Redelivery, "initialRedeliveryDelay") == Some(IntValue(1000))
    ensures Default(Redelivery, "maximumRedeliveries") == Some(IntValue(6))
    ensures Default(Redelivery, "backOffMultiplier") == Some(FloatValue("5.0"))
  {}

  lemma DefaultKind(section: Section, name: string)
    ensures name in DefaultsOf(section) <==> InSection(section, name).Some?
    ensures name in DefaultsOf(section) ==> OfKind(DefaultsOf(section)[name], InSection(section, name).value)
  {
    match section {
      case Socket =>
      case Failover =>
      case Transport =>
      case Transaction =>
      case Connection =>
      case Prefetch =>
      case Redelivery =>
    }
  }
}
