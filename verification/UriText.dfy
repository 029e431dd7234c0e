/** Splitting and joining text at a separator. */
module UriText {
  import opened Strings

  function SplitOn(s: string, c: char): (parts: seq<string>)
    ensures parts != []
    decreases |s|
  {
    var n := IndexOf(s, c);
    if n == |s| then [s] else [s[..n]] + SplitOn(s[n + 1..], c)
  }

  function Join(parts: seq<string>, c: char): string
    requires parts != []
  {
    if |parts| == 1 then parts[0] else parts[0] + ([c] + Join(parts[1..], c))
  }

  predicate FreeOf(parts: seq<string>, c: char) {
    forall k :: 0 <= k < |parts| ==> c !in parts[k]
  }

  lemma {:induction false} SplitInvertsJoin(parts: seq<string>, c: char)
    requires parts != [] && FreeOf(parts, c)
    ensures SplitOn(Join(parts, c), c) == parts
    decreases |parts|
  {
    var s := Join(parts, c);
    if |parts| == 1 {
      IndexOfAppend(s, c, "");
      assert s + "" == s && parts == [parts[0]];
    } else {
      var rest := Join(parts[1..], c);
      IndexOfAppend(parts[0], c, [c] + rest);
      assert s[..|parts[0]|] == parts[0] && s[|parts[0]| + 1..] == rest;
      SplitInvertsJoin(parts[1..], c);
      assert parts == [parts[0]] + parts[1..];
    }
  }

  lemma {:induction false} JoinIsFreeOf(parts: seq<string>, c: char, d: char)
    requires parts != [] && FreeOf(parts, d) && c != d
    ensures d !in Join(parts, c)
    decreases |parts|
  {
    if |parts| > 1 { JoinIsFreeOf(parts[1..], c, d); }
  }

  predicate NoneEmpty(parts: seq<string>) {
    forall k :: 0 <= k < |parts| ==> parts[k] != ""
  }

  /** The longest prefix without an empty piece. */
  function UpToEmpty(parts: seq<string>): (prefix: seq<string>)
    ensures prefix <= parts && NoneEmpty(prefix)
    ensures |prefix| < |parts| ==> parts[|prefix|] == ""
  {
    if parts == [] || parts[0] == "" then [] else [parts[0]] + UpToEmpty(parts[1..])
  }

  lemma UpToEmptyIsAll(parts: seq<string>)
    requires NoneEmpty(parts)
    ensures UpToEmpty(parts) == parts
  {}

  /** What the comma loop still has to collect from `start` on. */
  function Remaining(s: string, start: nat): seq<string>
    requires start <= |s|
  {
    UpToEmpty(SplitOn(s[start..], ','))
  }

  lemma SplitOnce(s: string, c: char)
    ensures var n := IndexOf(s, c);
            SplitOn(s, c) == if n == |s| then [s] else [s[..n]] + SplitOn(s[n + 1..], c)
  {
    hide IndexOf;
  }

  lemma UpToEmptyCons(part: string, rest: seq<string>)
    ensures UpToEmpty([part] + rest) == if part == "" then [] else [part] + UpToEmpty(rest)
    ensures UpToEmpty([part]) == if part == "" then [] else [part]
  {
    assert ([part] + rest)[1..] == rest;
    assert [part][1..] == [] && [part] + [] == [part];
  }

  lemma RemainingLast(s: string, start: nat)
    requires start <= |s| && start + IndexOf(s[start..], ',') == |s|
    ensures Remaining(s, start) == if start == |s| then [] else [s[start..]]
  {
    hide IndexOf, SplitOn, UpToEmpty;
    SplitOnce(s[start..], ',');
    UpToEmptyCons(s[start..], []);
  }

  lemma RemainingNext(s: string, start: nat)
    requires start <= |s| && start + IndexOf(s[start..], ',') < |s|
    ensures var it := start + IndexOf(s[start..], ',');
            Remaining(s, start) == if start == it then [] else [s[start..it]] + Remaining(s, it + 1)
  {
    hide IndexOf, SplitOn, UpToEmpty;
    var tail := s[start..];
    var it := start + IndexOf(tail, ',');
    SplitOnce(tail, ',');
    assert tail[..it - start] == s[start..it] && tail[it - start + 1..] == s[it + 1..];
    UpToEmptyCons(s[start..it], SplitOn(s[it + 1..], ','));
  }

  lemma RemainingFrom(s: string, start: nat)
    requires start <= |s|
    ensures var it := start + IndexOf(s[start..], ',');
            Remaining(s, start) ==
              if start == it then []
              else [s[start..it]] + (if it == |s| then [] else Remaining(s, it + 1))
  {
    hide IndexOf, Remaining;
    var it := start + IndexOf(s[start..], ',');
    if it == |s| {
      RemainingLast(s, start);
      assert s[start..it] == s[start..] && [s[start..]] + [] == [s[start..]];
    } else {
      RemainingNext(s, start);
    }
  }

  /** One turn of the comma loop adds the piece in front of the comma. */
  lemma CollectNext(urls: seq<string>, s: string, start: nat, it: nat)
    requires start < it < |s| && it == start + IndexOf(s[start..], ',')
    ensures urls + Remaining(s, start) == (urls + [s[start..it]]) + Remaining(s, it + 1)
  {
    hide IndexOf, Remaining;
    RemainingFrom(s, start);
  }

  /** The last turn adds the piece behind the last comma. */
  lemma CollectLast(urls: seq<string>, s: string, start: nat)
    requires start < |s| && |s| == start + IndexOf(s[start..], ',')
    ensures urls + Remaining(s, start) == (urls + [s[start..|s|]]) + Remaining(s, |s|)
    ensures |s| == |s| + IndexOf(s[|s|..], ',')
  {
    hide IndexOf, Remaining;
    RemainingFrom(s, start);
    RemainingFrom(s, |s|);
  }

  lemma CollectNothing(urls: seq<string>, s: string, start: nat)
    requires start <= |s| && IndexOf(s[start..], ',') == 0
    ensures urls + Remaining(s, start) == urls
  {
    hide IndexOf, Remaining;
    RemainingFrom(s, start);
  }

  /** The comma loop: it stops at the first empty piece. */
  method SplitBrokers(s: string) returns (urls: seq<string>)
    ensures urls == UpToEmpty(SplitOn(s, ','))
  {
    hide IndexOf, SplitOn, UpToEmpty, Remaining;
    urls := [];
    var start: nat := 0;
    var it: nat := IndexOf(s, ',');
    RemainingFromStart(s);
    while start != it
      invariant start <= it <= |s| && it == start + IndexOf(s[start..], ',')
      invariant urls + Remaining(s, start) == UpToEmpty(SplitOn(s, ','))
      decreases |s| - start, it - start
    {
      if it != |s| {
        CollectNext(urls, s, start, it);
        urls := urls + [s[start..it]];
        start := it + 1;
        it := start + IndexOf(s[start..], ',');
      } else {
        CollectLast(urls, s, start);
        urls := urls + [s[start..it]];
        start := it;
      }
    }
    CollectNothing(urls, s, start);
  }

  lemma RemainingFromStart(s: string)
    ensures s[0..] == s && [] + Remaining(s, 0) == UpToEmpty(SplitOn(s, ','))
  {
    assert [] + Remaining(s, 0) == Remaining(s, 0);
  }
}
