/** When the order in which the parser applies the options shows. */
module UriOrder {
  import opened Prelude
  import opened Strings
  import opened UriText
  import opened UriOptions
  import NumberText

  /** Two readings agree when both give the same parameters or both throw. */
  predicate Agree(r: Result<Parameters, Fault>, t: Result<Parameters, Fault>) {
    r == t || (r.Err? && t.Err?)
  }

  predicate SomeThrows(us: seq<Update>) {
    exists k :: 0 <= k < |us| && Effect(us[k]).Err?
  }

  /** The values a list of updates writes to one setting, in order. */
  function Written(key: Setting, us: seq<Update>): seq<SettingValue> {
    if us == [] then [] else WrittenBy(key, us[0]) + Written(key, us[1..])
  }

  function WrittenBy(key: Setting, u: Update): (vs: seq<SettingValue>)
    ensures |vs| <= 1
  {
    var e := Effect(u);
    if e.Ok? && e.value.Some? && e.value.value.0 == key then [e.value.value.1] else []
  }

  /** The options before the first grouped one, and those from it on. */
  function BeforeGroup(us: seq<Update>): seq<Update> {
    if us == [] || us[0].Grouped? then [] else [us[0]] + BeforeGroup(us[1..])
  }

  function FromGroup(us: seq<Update>): seq<Update> {
    if us == [] || us[0].Grouped? then us else FromGroup(us[1..])
  }

  /** Among the options from the first grouped one on, the first and the last write to the setting are the
      same. */
  predicate EndsAgree(key: Setting, us: seq<Update>) {
    var vs := Written(key, FromGroup(us));
    vs != [] ==> vs[0] == vs[|vs| - 1]
  }

  // ---------------------------------------------------------------- what a fold leaves in a setting

  lemma {:induction false} FoldThrowsIff(p: Parameters, us: seq<Update>)
    ensures Fold(p, us).Err? <==> SomeThrows(us)
    decreases |us|
  {
    hide Effect;
    if us != [] {
      match Update1(p, us[0]) {
        case Err(_) => assert Effect(us[0]).Err?;
        case Ok(q) =>
          FoldThrowsIff(q, us[1..]);
          ThrowsAtHeadOrBehind(us);
      }
    }
  }

  lemma ThrowsAtHeadOrBehind(us: seq<Update>)
    requires us != []
    ensures SomeThrows(us) <==> Effect(us[0]).Err? || SomeThrows(us[1..])
  {
    hide Effect;
    if k :| 0 < k < |us| && Effect(us[k]).Err? {
      assert us[1..][k - 1] == us[k];
    }
    if k :| 0 <= k < |us[1..]| && Effect(us[1..][k]).Err? {
      assert us[k + 1] == us[1..][k];
    }
  }

  /** The last value written, or else the one that was there. */
  lemma {:induction false} FoldReads(p: Parameters, us: seq<Update>, key: Setting)
    requires Fold(p, us).Ok?
    ensures var (q, vs) := (Fold(p, us).value, Written(key, us));
            if vs != [] then key in q && q[key] == vs[|vs| - 1]
            else (key in q <==> key in p) && (key in p ==> q[key] == p[key])
    decreases |us|
  {
    hide Effect;
    if us != [] {
      var q := Update1(p, us[0]).value;
      FoldReads(q, us[1..], key);
      var (first, rest) := (WrittenBy(key, us[0]), Written(key, us[1..]));
      assert Written(key, us) == first + rest;
    }
  }

  lemma {:induction false} WrittenConcat(key: Setting, us: seq<Update>, vs: seq<Update>)
    ensures Written(key, us + vs) == Written(key, us) + Written(key, vs)
    decreases |us|
  {
    hide WrittenBy;
    if us == [] {
      assert us + vs == vs;
    } else {
      assert (us + vs)[1..] == us[1..] + vs;
      WrittenConcat(key, us[1..], vs);
    }
  }

  lemma {:induction false} ReverseConcat<T>(s: seq<T>, t: seq<T>)
    ensures Reverse(s + t) == Reverse(t) + Reverse(s)
    decreases |s|
  {
    if s == [] {
      assert s + t == t;
    } else {
      assert (s + t)[1..] == s[1..] + t;
      ReverseConcat(s[1..], t);
    }
  }

  lemma WrittenOnce(key: Setting, u: Update)
    ensures Written(key, [u]) == WrittenBy(key, u) == Reverse(WrittenBy(key, u))
  {
    hide WrittenBy;
    assert [u][1..] == [];
    var vs := WrittenBy(key, u);
    if vs != [] { assert vs[1..] == [] && Reverse(vs[1..]) + [vs[0]] == vs; }
  }

  lemma {:induction false} WrittenReverse(key: Setting, us: seq<Update>)
    ensures Written(key, Reverse(us)) == Reverse(Written(key, us))
    decreases |us|
  {
    hide WrittenBy;
    if us != [] {
      WrittenReverse(key, us[1..]);
      WrittenConcat(key, Reverse(us[1..]), [us[0]]);
      WrittenOnce(key, us[0]);
      ReverseConcat(WrittenBy(key, us[0]), Written(key, us[1..]));
    }
  }

  lemma {:induction false} ReverseEnds<T>(s: seq<T>)
    ensures |Reverse(s)| == |s|
    ensures s != [] ==> Reverse(s)[|s| - 1] == s[0] && Reverse(s)[0] == s[|s| - 1]
  {
    if s != [] { ReverseEnds(s[1..]); }
  }

  lemma {:induction false} SplitAtGroup(us: seq<Update>)
    ensures us == BeforeGroup(us) + FromGroup(us) && ScanOrder(us) == BeforeGroup(us) + Reverse(FromGroup(us))
  {
    if us != [] && us[0].Plain? { SplitAtGroup(us[1..]); }
  }

  // ---------------------------------------------------------------- exactly when the order shows

  lemma {:induction false} ReverseIsPermutation<T>(s: seq<T>)
    ensures multiset(Reverse(s)) == multiset(s)
  {
    if s != [] {
      ReverseIsPermutation(s[1..]);
      assert s == [s[0]] + s[1..];
    }
  }

  lemma {:induction false} ScanOrderIsPermutation(us: seq<Update>)
    ensures multiset(ScanOrder(us)) == multiset(us)
  {
    if us != [] {
      assert us == [us[0]] + us[1..];
      if us[0].Plain? { ScanOrderIsPermutation(us[1..]); } else { ReverseIsPermutation(us); }
    }
  }

  lemma ThrowsInAnyOrder(us: seq<Update>)
    ensures SomeThrows(ScanOrder(us)) == SomeThrows(us)
  {
    hide Effect, ScanOrder;
    var vs := ScanOrder(us);
    ScanOrderIsPermutation(us);
    if SomeThrows(us) {
      var k :| 0 <= k < |us| && Effect(us[k]).Err?;
      assert us[k] in multiset(vs);
      var j :| 0 <= j < |vs| && vs[j] == us[k];
    }
    if SomeThrows(vs) {
      var k :| 0 <= k < |vs| && Effect(vs[k]).Err?;
      assert vs[k] in multiset(us);
      var j :| 0 <= j < |us| && us[j] == vs[k];
    }
  }

  /** For one setting: both orders leave the same exactly if the ends agree. */
  lemma SettingAgreesIff(p: Parameters, us: seq<Update>, key: Setting)
    requires Fold(p, us).Ok? && Fold(p, ScanOrder(us)).Ok?
    ensures var (q, t) := (Fold(p, us).value, Fold(p, ScanOrder(us)).value);
            && (key in q <==> key in t)
            && (EndsAgree(key, us) <==> (key in q ==> q[key] == t[key]))
  {
    hide Fold, Written, ScanOrder, Reverse, BeforeGroup, FromGroup;
    var (before, rest) := (BeforeGroup(us), FromGroup(us));
    SplitAtGroup(us);
    FoldReads(p, us, key);
    FoldReads(p, ScanOrder(us), key);
    WrittenConcat(key, before, rest);
    WrittenConcat(key, before, Reverse(rest));
    WrittenReverse(key, rest);
    ReverseEnds(Written(key, rest));
  }

  /** For every list of updates: the parser's order agrees with left to right exactly if some update throws
      in either order, or every setting has the same first and last write among the options from the first
      grouped one on. */
  lemma ScanOrderAgreesIff(p: Parameters, us: seq<Update>)
    ensures Agree(Fold(p, ScanOrder(us)), Fold(p, us)) <==> SomeThrows(us) || forall key :: EndsAgree(key, us)
  {
    hide Fold, ScanOrder, EndsAgree, SomeThrows;
    FoldThrowsIff(p, us);
    FoldThrowsIff(p, ScanOrder(us));
    ThrowsInAnyOrder(us);
    if !SomeThrows(us) {
      var (q, t) := (Fold(p, us).value, Fold(p, ScanOrder(us)).value);
      forall key ensures (key in q <==> key in t) && (EndsAgree(key, us) <==> (key in q ==> q[key] == t[key])) {
        SettingAgreesIff(p, us, key);
      }
      if forall key :: EndsAgree(key, us) {
        assert q == t;
      }
    }
  }

  /** The recursive parser agrees with the plain reading, which splits at the ampersands and applies the
      options left to right, on exactly those lists of well-formed options. */
  lemma ScannerRefinesPlainReading(p: Parameters, os: seq<Update>)
    requires os != [] && OptionsOk(os)
    ensures Scan(RenderAll(os), false).Ok? && Scan(RenderAll(os), false).value.1 == ""
    ensures Agree(Fold(p, Scan(RenderAll(os), false).value.0), Fold(p, ReadOptions(RenderAll(os))))
            <==> SomeThrows(os) || forall key :: EndsAgree(key, os)
  {
    ScanAppliesEachOnce(os);
    ReadOptionsInvertsRender(os);
    ScanOrderAgreesIff(p, os);
  }

  // ---------------------------------------------------------------- distinct keys

  /** The key of an option: its group, if any, and its name. */
  function Key(u: Update): (Option<string>, string) {
    (if u.Grouped? then Some(u.group) else None, NameOf(u.text))
  }

  predicate DistinctKeys(us: seq<Update>) {
    forall j, k :: 0 <= j < k < |us| ==> Key(us[j]) != Key(us[k])
  }

  predicate Independent(u: Update, v: Update) {
    Effect(u).Ok? && Effect(v).Ok? && Effect(u).value.Some? && Effect(v).value.Some?
    ==> Effect(u).value.value.0 != Effect(v).value.value.0
  }

  lemma DistinctKeysAreIndependent(u: Update, v: Update)
    requires Key(u) != Key(v) && '.' !in u.text && '.' !in v.text
    ensures Independent(u, v)
  {
    hide Convert, InSection, SectionOfDotted;
  }

  /** With distinct keys no setting is written twice. */
  lemma {:induction false} WrittenAtMostOnce(key: Setting, us: seq<Update>)
    requires DistinctKeys(us) && OptionsOk(us)
    ensures |Written(key, us)| <= 1
    ensures forall k :: 0 <= k < |us| && WrittenBy(key, us[k]) != [] ==> Written(key, us) == WrittenBy(key, us[k])
    decreases |us|
  {
    hide Effect, Key, OptionOk;
    if us != [] {
      var rest := us[1..];
      WrittenAtMostOnce(key, rest);
      forall k | 0 <= k < |rest| ensures OneWrites(key, us[0], rest[k]) {
        assert rest[k] == us[k + 1] && OptionOk(us[0]) && OptionOk(us[k + 1]);
        DotFree(us[0]);
        DotFree(us[k + 1]);
        DistinctKeysAreIndependent(us[0], rest[k]);
      }
      WrittenNowhere(key, rest);
    }
  }

  predicate OneWrites(key: Setting, u: Update, v: Update) {
    WrittenBy(key, u) == [] || WrittenBy(key, v) == []
  }

  lemma DotFree(u: Update)
    requires OptionOk(u)
    ensures '.' !in u.text
  {}

  lemma {:induction false} WrittenNowhere(key: Setting, us: seq<Update>)
    ensures (forall k :: 0 <= k < |us| ==> WrittenBy(key, us[k]) == []) ==> Written(key, us) == []
  {
    hide WrittenBy;
    if us != [] {
      WrittenNowhere(key, us[1..]);
      assert forall k :: 0 <= k < |us[1..]| ==> us[1..][k] == us[k + 1];
    }
  }

  lemma {:induction false} FromGroupDistinct(us: seq<Update>)
    requires DistinctKeys(us) && OptionsOk(us)
    ensures DistinctKeys(FromGroup(us)) && OptionsOk(FromGroup(us))
    decreases |us|
  {
    hide Key, OptionOk;
    if us != [] && us[0].Plain? { FromGroupDistinct(us[1..]); }
  }

  lemma EndsOfOne(key: Setting, us: seq<Update>)
    requires |Written(key, FromGroup(us))| <= 1
    ensures EndsAgree(key, us)
  {
    hide Written, FromGroup;
  }

  /** So with distinct keys the two orders always agree. */
  lemma ScanOrderAgrees(p: Parameters, us: seq<Update>)
    requires DistinctKeys(us) && OptionsOk(us)
    ensures Agree(Fold(p, ScanOrder(us)), Fold(p, us))
  {
    hide Fold, ScanOrder, FromGroup, DistinctKeys, OptionsOk, EndsAgree, SomeThrows, Written;
    FromGroupDistinct(us);
    forall key ensures EndsAgree(key, us) {
      WrittenAtMostOnce(key, FromGroup(us));
      EndsOfOne(key, us);
    }
    ScanOrderAgreesIff(p, us);
  }

  // ---------------------------------------------------------------- a repeated key

  lemma TwoFolds(p: Parameters, u: Update, v: Update)
    ensures Update1(p, u).Ok? ==> Fold(p, [u, v]) == Update1(Update1(p, u).value, v)
  {
    hide Effect, Fold;
    FoldOne(p, u);
    FoldConcat(p, [u], [v]);
    assert [u] + [v] == [u, v];
    if Update1(p, u).Ok? { FoldOne(Update1(p, u).value, v); }
  }

  /** Of two grouped options that write the same setting the parser lets the first one win, the plain
      reading the second. */
  lemma RepeatedKeyReadsBackwards(p: Parameters, u: Update, v: Update, key: Setting, x: SettingValue, y: SettingValue)
    requires u.Grouped? && Effect(u) == Ok(Some((key, x))) && Effect(v) == Ok(Some((key, y)))
    ensures Fold(p, ScanOrder([u, v])) == Ok(p[key := x]) && Fold(p, [u, v]) == Ok(p[key := y])
  {
    hide Effect;
    TwoFolds(p, u, v);
    TwoFolds(p, v, u);
    assert [u, v][1..] == [v] && [v][1..] == [];
    ReverseOfNothing();
    assert Reverse([v]) == Reverse([v][1..]) + [v] == [v];
    assert Reverse([u, v]) == Reverse([u, v][1..]) + [u] == [v] + [u] == [v, u];
    assert p[key := x][key := y] == p[key := y] && p[key := y][key := x] == p[key := x];
  }

  /** So the text of two such options separates the two readings as soon as the values differ. */
  lemma RepeatedText(p: Parameters, u: Update, v: Update, key: Setting, x: SettingValue, y: SettingValue)
    requires OptionOk(u) && OptionOk(v)
    requires u.Grouped? && Effect(u) == Ok(Some((key, x))) && Effect(v) == Ok(Some((key, y)))
    ensures var text := Render(u) + ("&" + Render(v));
            && Scan(text, false).Ok?
            && Fold(p, Scan(text, false).value.0) == Ok(p[key := x])
            && Fold(p, ReadOptions(text)) == Ok(p[key := y])
  {
    hide Scan, Fold, Effect, ScanOrder, ReadOptions, OptionOk, Render;
    assert [u, v][1..] == [v] && RenderAll([v]) == Render(v);
    ScanAppliesEachOnce([u, v]);
    ReadOptionsInvertsRender([u, v]);
    RepeatedKeyReadsBackwards(p, u, v, key, x, y);
  }

  const SEND_TIMEOUT := Setting(Connection, "sendTimeout")

  function SendTimeout(n: nat): Update {
    Grouped("connection", "sendTimeout" + ("=" + NumberText.DecimalText(n)))
  }

  lemma SendTimeoutSplit(n: nat)
    ensures var text := SendTimeout(n).text;
            && |text| > 12 && IndexOf(text, '=') == 11 && NameOf(text) == "sendTimeout"
            && text[12..] == NumberText.DecimalText(n)
  {
    hide NumberText.DecimalText;
    var digits := NumberText.DecimalText(n);
    IndexOfAppend("sendTimeout", '=', "=" + digits);
    assert SendTimeout(n).text[..11] == "sendTimeout" && SendTimeout(n).text[11 + 1..] == digits;
  }

  lemma SendTimeoutOk(n: nat)
    ensures OptionOk(SendTimeout(n))
  {
    hide NumberText.DecimalText;
    var digits := NumberText.DecimalText(n);
    assert forall k :: 0 <= k < |digits| ==> NumberText.IsDigit(digits[k]);
  }

  lemma SendTimeoutIsKnown()
    ensures InSection(Connection, "sendTimeout") == Some(IntSetting)
  {}

  lemma SendTimeoutEffect(n: nat)
    requires n <= INT_MAX
    ensures Effect(SendTimeout(n)) == Ok(Some((SEND_TIMEOUT, IntValue(n))))
  {
    SendTimeoutSplit(n);
    SendTimeoutIsKnown();
    hide NumberText.DecimalText, Stoi, InSection, IndexOf;
    StoiReadsIntText(n);
  }

  const FIRST := "connection.sendTimeout=1"
  const SECOND := "connection.sendTimeout=2"

  /** An option text on which the two readings differ: `FIRST`, an ampersand, `SECOND`. */
  lemma RepeatedTimeout(p: Parameters)
    ensures var text := FIRST + ("&" + SECOND);
            && Scan(text, false).Ok?
            && Fold(p, Scan(text, false).value.0) == Ok(p[SEND_TIMEOUT := IntValue(1)])
            && Fold(p, ReadOptions(text)) == Ok(p[SEND_TIMEOUT := IntValue(2)])
  {
    FirstText();
    SecondText();
    SendTimeoutOk(1);
    SendTimeoutOk(2);
    SendTimeoutEffect(1);
    SendTimeoutEffect(2);
    IsGrouped(1);
    hide Scan, Fold, Effect, ReadOptions, SendTimeout, OptionOk, Render;
    RepeatedText(p, SendTimeout(1), SendTimeout(2), SEND_TIMEOUT, IntValue(1), IntValue(2));
  }

  lemma IsGrouped(n: nat)
    ensures SendTimeout(n).Grouped?
  {}

  lemma FirstText()
    ensures Render(SendTimeout(1)) == FIRST
  {
    assert NumberText.DecimalText(1) == "1";
  }

  lemma SecondText()
    ensures Render(SendTimeout(2)) == SECOND
  {
    assert NumberText.DecimalText(2) == "2";
  }
}
