/** Which histories of starts and stops make the next stop safe, in terms the caller can see. */
module StopHistory {
  import opened ClientStates
  import opened ReceiverProtocol
  import opened StopSafety

  predicate IsCall(e: Event) {
    e == Start || e == StopEnter
  }

  predicate AllCalls(calls: seq<Event>) {
    forall k :: 0 <= k < |calls| ==> IsCall(calls[k])
  }

  /** What the caller has done in a run. */
  function CallsOf(es: seq<Event>): seq<Event> {
    if es == [] then [] else (if IsCall(es[0]) then [es[0]] else []) + CallsOf(es[1..])
  }

  /** A run from a new consumer in which the caller makes exactly these calls and does not close. */
  ghost predicate HistoryOf(es: seq<Event>, calls: seq<Event>) {
    IsRun(Fresh(), es) && CloseEnter !in es && CallsOf(es) == calls
  }

  /** The stop at position `i` is entered while the consumer is STOPPED: it is the first call, or directly
      follows another stop. */
  predicate StopsStopped(calls: seq<Event>, i: nat) {
    i < |calls| && calls[i] == StopEnter && (i == 0 || calls[i - 1] == StopEnter)
  }

  /** A stop of a stopped consumer has a start somewhere behind it. */
  predicate StartedAfterIdleStop(calls: seq<Event>) {
    exists i, j :: 0 <= i < j < |calls| && StopsStopped(calls, i) && calls[j] == Start
  }

  // ---------------------------------------------------------------- the history as an automaton

  /** `Dirty` has a drain left over from a stop of a stopped consumer, `Lost` has started since. */
  datatype Mode = Clear | Running | Dirty | Lost

  function Next(m: Mode, e: Event): Mode {
    if e == Start then (if m == Clear || m == Running then Running else Lost)
    else if e == StopEnter then (if m == Running then Clear else if m == Clear then Dirty else m)
    else m
  }

  function ModeOf(calls: seq<Event>): Mode {
    if calls == [] then Clear else Next(ModeOf(calls[..|calls| - 1]), calls[|calls| - 1])
  }

  ghost predicate SomeIdleStop(calls: seq<Event>) {
    exists i: nat :: StopsStopped(calls, i)
  }

  lemma IdleStopSnoc(front: seq<Event>, e: Event)
    ensures SomeIdleStop(front + [e]) <==> SomeIdleStop(front) || StopsStopped(front + [e], |front|)
  {
    assert forall i: nat :: i < |front| ==> StopsStopped(front + [e], i) == StopsStopped(front, i);
  }

  lemma StartedSnoc(front: seq<Event>, e: Event)
    ensures StartedAfterIdleStop(front + [e]) <==> StartedAfterIdleStop(front) || (SomeIdleStop(front) && e == Start)
  {
    var calls := front + [e];
    assert forall i: nat :: i < |front| ==> StopsStopped(calls, i) == StopsStopped(front, i) && calls[i] == front[i];
    if StartedAfterIdleStop(front) {
      var i, j :| 0 <= i < j < |front| && StopsStopped(front, i) && front[j] == Start;
      assert StopsStopped(calls, i) && calls[j] == Start;
    }
    if SomeIdleStop(front) && e == Start {
      var i: nat :| StopsStopped(front, i);
      assert StopsStopped(calls, i) && calls[|front|] == Start;
    }
  }

  lemma ModeSnoc(front: seq<Event>, e: Event)
    ensures ModeOf(front + [e]) == Next(ModeOf(front), e)
  {
    assert (front + [e])[..|front|] == front;
  }

  /** The mode in terms of the calls. */
  lemma {:induction false} ModeMeans(calls: seq<Event>)
    requires AllCalls(calls)
    ensures ModeOf(calls) == Lost <==> StartedAfterIdleStop(calls)
    ensures ModeOf(calls) == Dirty || ModeOf(calls) == Lost <==> SomeIdleStop(calls)
    ensures ModeOf(calls) == Running ==> calls != [] && calls[|calls| - 1] == Start
    ensures ModeOf(calls) == Clear ==> calls == [] || calls[|calls| - 1] == StopEnter
    decreases |calls|
  {
    if calls != [] {
      hide ModeOf, StartedAfterIdleStop, SomeIdleStop;
      var (front, e) := (calls[..|calls| - 1], calls[|calls| - 1]);
      assert calls == front + [e];
      ModeMeans(front);
      ModeSnoc(front, e);
      StartedSnoc(front, e);
      IdleStopSnoc(front, e);
    }
  }

  // ---------------------------------------------------------------- safe histories

  /** What the mode says about the consumer, between and during calls. */
  predicate Fits(c: Consumer, m: Mode) {
    && c.attached && c.call != InClose
    && match m
       case Clear =>
         && (c.call == Idle ==> c.state == Stopped && Quiet(c) && !DrainOutstanding(c))
         && (c.call == InStop ==> Stopping(c))
       case Running => c.call == Idle && c.state == Started && !DrainOutstanding(c)
       case Dirty => c.call != InOpen && c.state == Stopped && Quiet(c)
       case Lost => true
  }

  lemma CallFits(c: Consumer, m: Mode, e: Event)
    requires Inv(c) && Fits(c, m) && Enabled(c, e) && IsCall(e)
    ensures Fits(Step(c, e), Next(m, e))
  {
    if m == Running && e == StopEnter { EnterStopping(c); }
  }

  lemma OtherFits(c: Consumer, m: Mode, e: Event)
    requires Inv(c) && Fits(c, m) && Enabled(c, e) && !IsCall(e) && e != CloseEnter
    ensures Fits(Step(c, e), m)
  {
    if m == Clear && c.call == InStop && FromProton(e) {
      StoppingStep(c, e);
    } else if m == Dirty {
      QuietStep(c, e);
    }
  }

  lemma StepFits(c: Consumer, m: Mode, e: Event)
    requires Inv(c) && Fits(c, m) && Enabled(c, e) && e != CloseEnter
    ensures Inv(Step(c, e)) && Fits(Step(c, e), Next(m, e))
  {
    hide Inv, Fits, Step;
    InvStep(c, e);
    if IsCall(e) { CallFits(c, m, e); } else { OtherFits(c, m, e); }
  }

  function ModeAfter(m: Mode, calls: seq<Event>): Mode
    decreases |calls|
  {
    if calls == [] then m else ModeAfter(Next(m, calls[0]), calls[1..])
  }

  lemma {:induction false} ModeAfterConcat(front: seq<Event>, calls: seq<Event>)
    ensures ModeAfter(ModeOf(front), calls) == ModeOf(front + calls)
    decreases |calls|
  {
    hide Next, ModeOf;
    if calls == [] {
      assert front + [] == front;
    } else {
      ModeSnoc(front, calls[0]);
      ModeAfterConcat(front + [calls[0]], calls[1..]);
      assert front + [calls[0]] + calls[1..] == front + calls;
    }
  }

  lemma CallsOfHead(es: seq<Event>, m: Mode)
    requires es != []
    ensures ModeAfter(m, CallsOf(es)) == ModeAfter(Next(m, es[0]), CallsOf(es[1..]))
  {
    if IsCall(es[0]) {
      assert ([es[0]] + CallsOf(es[1..]))[1..] == CallsOf(es[1..]);
    } else {
      assert [] + CallsOf(es[1..]) == CallsOf(es[1..]);
    }
  }

  lemma {:induction false} FitsRun(c: Consumer, m: Mode, es: seq<Event>)
    requires Inv(c) && Fits(c, m) && IsRun(c, es) && CloseEnter !in es
    ensures Fits(Exec(c, es), ModeAfter(m, CallsOf(es)))
    decreases |es|
  {
    hide Inv, Fits, Step, Enabled, Next, CallsOf;
    if es == [] {
      NoCalls();
    } else {
      StepFits(c, m, es[0]);
      CallsOfHead(es, m);
      FitsRun(Step(c, es[0]), Next(m, es[0]), es[1..]);
    }
  }

  lemma NoCalls()
    ensures CallsOf([]) == []
  {}

  lemma SafeHistory(es: seq<Event>, calls: seq<Event>)
    requires HistoryOf(es, calls) && ModeOf(calls) != Lost && Exec(Fresh(), es).call == Idle
    ensures Exec(Fresh(), es).attached && StopAlwaysQuiet(Exec(Fresh(), es))
  {
    hide Inv, Fits, StopGuard, IsRun, Exec, StopAlwaysQuiet;
    InvFresh();
    FreshFits();
    InvRun(Fresh(), es);
    FitsRun(Fresh(), Clear, es);
    ModeAfterConcat([], calls);
    assert [] + calls == calls;
    FittingIsGuarded(Exec(Fresh(), es), ModeOf(calls));
    GuardedStopIsQuiet(Exec(Fresh(), es));
  }

  lemma FreshFits()
    ensures Fits(Fresh(), Clear)
  {}

  lemma FittingIsGuarded(c: Consumer, m: Mode)
    requires Fits(c, m) && m != Lost && c.call == Idle
    ensures c.attached && StopGuard(c)
  {}

  // ---------------------------------------------------------------- unsafe histories

  /** What the laziest schedule leaves between two calls. */
  predicate Shaped(c: Consumer, m: Mode) {
    && Inv(c) && c.call == Idle && c.attached && !c.draining
    && match m
       case Clear => c.state == Stopped && c.work == [] && c.credit == 0
       case Running => c.state == Started && Drain !in c.work
       case Dirty => c.state == Stopped && c.credit == 0 && AddCredit !in c.work && Drain in c.work
       case Lost => Drain in c.work && AddCredit in c.work
  }

  lemma ShapedLostIsUnguarded(c: Consumer)
    requires Shaped(c, Lost)
    ensures !StopGuard(c)
  {}

  /** Proton runs the queue up to the drain at `k`, and ends that drain. */
  lemma {:induction false} FinishFirstDrain(c: Consumer, k: nat) returns (es: seq<Event>)
    requires c.link == Active && !c.draining && c.held == 0 && k < |c.work| && c.work[k] == Drain
    requires forall j :: 0 <= j < k ==> c.work[j] == AddCredit
    ensures ProtonOnly(es) && IsRun(c, es) && Exec(c, es) == c.(state := Stopped, credit := 0, work := c.work[k + 1..])
    decreases k
  {
    var d := Step(c, RunWork);
    var rest: seq<Event>;
    if k == 0 {
      rest := EndDrain(d);
    } else {
      rest := FinishFirstDrain(d, k - 1);
      assert d.work[k..] == c.work[k + 1..];
    }
    es := [RunWork] + rest;
    assert es[0] == RunWork && es[1..] == rest;
  }

  lemma EndDrain(c: Consumer) returns (es: seq<Event>)
    requires c.link == Active && c.draining && c.held == 0
    ensures ProtonOnly(es) && IsRun(c, es) && Exec(c, es) == c.(state := Stopped, credit := 0, draining := false)
  {
    var d := c.(credit := 0);
    var last := d.(state := Stopped, draining := false);
    NoSteps(last);
    Before(d, OnDrainFinish, last, [], [OnDrainFinish], last);
    es := [OnDrainFinish];
    if c.credit > 0 {
      es := [Forfeit, OnDrainFinish];
      Before(c, Forfeit, d, [OnDrainFinish], es, last);
    }
  }

  lemma ProtonMakesNoCalls(es: seq<Event>)
    requires ProtonOnly(es)
    ensures CallsOf(es) == [] && CloseEnter !in es
  {
    if es != [] { ProtonMakesNoCalls(es[1..]); }
  }

  lemma CallsOfStep(es: seq<Event>)
    requires es != []
    ensures CallsOf(es) == (if IsCall(es[0]) then [es[0]] else []) + CallsOf(es[1..])
  {}

  lemma {:induction false} CallsOfConcat(es: seq<Event>, fs: seq<Event>)
    ensures CallsOf(es + fs) == CallsOf(es) + CallsOf(fs)
    decreases |es|
  {
    hide CallsOf, IsCall;
    if es == [] {
      NoCalls();
      assert es + fs == fs;
    } else {
      assert (es + fs)[1..] == es[1..] + fs && (es + fs)[0] == es[0];
      CallsOfConcat(es[1..], fs);
      CallsOfStep(es);
      CallsOfStep(es + fs);
    }
  }

  lemma StartShaped(c: Consumer, m: Mode)
    requires Shaped(c, m)
    ensures Shaped(Step(c, Start), Next(m, Start))
  {
    InvStart(c);
    hide Inv;
    AppendedRequest(c.work);
    assert Step(c, Start) == c.(work := c.work + [AddCredit], state := Started);
    hide Step;
  }

  lemma AppendedRequest(work: seq<Work>)
    ensures forall w :: w in work + [AddCredit] <==> w in work || w == AddCredit
  {}

  /** The first drain in the queue of a consumer that is stopped while it is started. */
  lemma FirstDrain(work: seq<Work>) returns (k: nat)
    requires Drain in work && OpenReceiver !in work && CloseReceiver !in work
    ensures k < |work| && work[k] == Drain && forall j :: 0 <= j < k ==> work[j] == AddCredit
  {
    k := 0;
    while work[k] != Drain
      invariant k < |work| && forall j :: 0 <= j < k ==> work[j] == AddCredit
      invariant Drain in work[k..]
      decreases |work| - k
    {
      assert work[k] in work;
      assert work[k..] == [work[k]] + work[k + 1..];
      k := k + 1;
    }
  }

  /** A stop that waits for the first drain only. */
  lemma StopStarted(c: Consumer, m: Mode) returns (es: seq<Event>)
    requires Shaped(c, m) && c.state == Started
    ensures ProtonOnly(es) && IsRun(Step(c, StopEnter), es)
    ensures Exec(Step(c, StopEnter), es).state == Stopped && Exec(Step(c, StopEnter), es).call == InStop
    ensures Shaped(Exec(Step(c, StopEnter), es).(call := Idle), Next(m, StopEnter))
  {
    var d := Step(c, StopEnter);
    InvStopEnter(c);
    assert d.work[|c.work|] == Drain;
    var k := FirstDrain(d.work);
    es := FinishFirstDrain(d, k);
    var last := Exec(d, es);
    InvRun(d, es);
    InvReturn(last, StopReturn);
    StopLeaves(c, m, k);
  }

  lemma StopLeaves(c: Consumer, m: Mode, k: nat)
    requires Shaped(c, m) && c.state == Started && k <= |c.work| && (c.work + [Drain])[k] == Drain
    requires forall j :: 0 <= j < k ==> (c.work + [Drain])[j] == AddCredit
    ensures var rest := (c.work + [Drain])[k + 1..];
            if m == Running then rest == [] else Drain in rest && AddCredit in rest
  {
    ShapedQueue(c, m);
    hide Shaped;
    FirstOldDrain(c.work, k);
    if m != Running {
      RefilledBehind(c, k);
      DrainStaysInLine(c.work, k);
    }
  }

  lemma ShapedQueue(c: Consumer, m: Mode)
    requires Shaped(c, m) && c.state == Started
    ensures if m == Running then Drain !in c.work else Drain in c.work && Refilled(c)
  {}

  lemma FirstOldDrain(work: seq<Work>, k: nat)
    requires k <= |work| && (work + [Drain])[k] == Drain && forall j :: 0 <= j < k ==> (work + [Drain])[j] == AddCredit
    ensures k < |work| <==> Drain in work
    ensures k < |work| ==> work[k] == Drain
  {
    assert forall i :: 0 <= i < |work| ==> (work + [Drain])[i] == work[i];
  }

  /** A stop of a stopped consumer returns at once and leaves its drain behind. */
  lemma StopStopped(c: Consumer, m: Mode)
    requires Shaped(c, m) && c.state == Stopped
    ensures Step(c, StopEnter).state == Stopped && Step(c, StopEnter).call == InStop
    ensures Shaped(Step(c, StopEnter).(call := Idle), Next(m, StopEnter))
  {
    var d := Step(c, StopEnter);
    InvStopEnter(c);
    InvReturn(d, StopReturn);
    assert d.work[|c.work|] == Drain;
    assert forall w :: w in c.work ==> w in d.work;
    assert m == Dirty || m == Clear ==> AddCredit !in d.work;
  }

  /** The whole call, from its entry over its wait to its return. */
  lemma StopAndReturn(c: Consumer, d: Consumer, wait: seq<Event>) returns (es: seq<Event>)
    requires Move(c, StopEnter, d) && ProtonOnly(wait) && IsRun(d, wait)
    requires Exec(d, wait).state == Stopped && Exec(d, wait).call == InStop
    ensures IsRun(c, es) && Exec(c, es) == Exec(d, wait).(call := Idle)
    ensures CallsOf(es) == [StopEnter] && CloseEnter !in es
  {
    hide IsRun, Exec, CallsOf, ProtonOnly, Move, Step;
    var last := Exec(d, wait).(call := Idle);
    ReturnMoves(Exec(d, wait));
    RunSnoc(d, wait, StopReturn);
    es := [StopEnter] + (wait + [StopReturn]);
    assert es[1..] == wait + [StopReturn];
    Before(c, StopEnter, d, wait + [StopReturn], es, last);
    ProtonMakesNoCalls(wait);
    CallsOfConcat(wait, [StopReturn]);
    ReturnIsNoCall();
    CallsOfStep(es);
  }

  lemma ReturnMoves(c: Consumer)
    requires c.call == InStop && c.state == Stopped
    ensures Enabled(c, StopReturn) && Step(c, StopReturn) == c.(call := Idle)
  {}

  lemma ReturnIsNoCall()
    ensures CallsOf([StopReturn]) == [] && !IsCall(StopReturn)
  {
    NoCalls();
    assert [StopReturn][1..] == [];
  }

  lemma ShapedState(c: Consumer, m: Mode)
    requires Shaped(c, m) && c.state != Started
    ensures c.state == Stopped
  {}

  lemma StopCall(c: Consumer, m: Mode) returns (es: seq<Event>)
    requires Shaped(c, m)
    ensures IsRun(c, es) && Shaped(Exec(c, es), Next(m, StopEnter)) && CallsOf(es) == [StopEnter] && CloseEnter !in es
  {
    hide Inv;
    var wait: seq<Event> := [];
    var d := Step(c, StopEnter);
    if c.state == Started {
      wait := StopStarted(c, m);
    } else {
      ShapedState(c, m);
      StopStopped(c, m);
      NoSteps(d);
    }
    es := StopAndReturn(c, d, wait);
  }

  /** Every history can happen, and a lost one leaves the consumer unguarded. */
  lemma {:induction false} Drive(calls: seq<Event>) returns (es: seq<Event>)
    requires AllCalls(calls)
    ensures HistoryOf(es, calls) && Shaped(Exec(Fresh(), es), ModeOf(calls))
    decreases |calls|
  {
    hide Shaped, Inv, Next, Step, Enabled;
    if calls == [] {
      es := Opened();
    } else {
      var (front, e) := (calls[..|calls| - 1], calls[|calls| - 1]);
      var fs := Drive(front);
      var c := Exec(Fresh(), fs);
      var gs := OneCall(c, ModeOf(front), e);
      es := fs + gs;
      RunConcat(Fresh(), fs, gs);
      CallsOfConcat(fs, gs);
      assert calls == front + [e];
    }
  }

  lemma OneCall(c: Consumer, m: Mode, e: Event) returns (es: seq<Event>)
    requires Shaped(c, m) && IsCall(e)
    ensures IsRun(c, es) && Shaped(Exec(c, es), Next(m, e)) && CallsOf(es) == [e] && CloseEnter !in es
  {
    if e == Start {
      StartShaped(c, m);
      var d := Step(c, Start);
      NoSteps(d);
      es := [Start];
      Before(c, Start, d, [], es, d);
      assert CallsOf(es) == [Start] by { NoCalls(); assert es[1..] == []; }
    } else {
      es := StopCall(c, m);
    }
  }

  lemma Opened() returns (es: seq<Event>)
    ensures HistoryOf(es, []) && Shaped(Exec(Fresh(), es), Clear)
  {
    es := [RunWork, OnOpen, OpenReturn];
    var c := OPENED.(call := InOpen);
    OpenMoves();
    NoSteps(OPENED);
    Before(c, OpenReturn, OPENED, [], es[2..], OPENED);
    Before(OPENING, OnOpen, c, es[2..], es[1..], OPENED);
    Before(Fresh(), RunWork, OPENING, es[1..], es, OPENED);
    assert es[2..][1..] == [] && es[1..][1..] == es[2..];
    assert CallsOf(es[2..][1..]) == [] && CallsOf(es[2..]) == [] && CallsOf(es[1..]) == [];
  }

  /** Whatever proton has done so far, the next stop is quiet under every schedule. */
  ghost predicate NextStopIsQuiet(calls: seq<Event>) {
    forall es :: HistoryOf(es, calls) && Exec(Fresh(), es).call == Idle ==> StopAlwaysQuiet(Exec(Fresh(), es))
  }

  /** Exactly which callers are safe: after a history of starts and stops, the next stop is quiet if and only
      if no stop that was entered while the consumer was STOPPED has a start behind it. */
  lemma NextStopIsQuietIff(calls: seq<Event>)
    requires AllCalls(calls)
    ensures NextStopIsQuiet(calls) <==> !StartedAfterIdleStop(calls)
  {
    hide StopAlwaysQuiet, StartedAfterIdleStop, ModeOf, IsRun, Exec;
    ModeMeans(calls);
    if ModeOf(calls) == Lost {
      var es := Drive(calls);
      LostIsLoud(Exec(Fresh(), es));
    } else {
      forall es | HistoryOf(es, calls) && Exec(Fresh(), es).call == Idle
        ensures StopAlwaysQuiet(Exec(Fresh(), es))
      {
        SafeHistory(es, calls);
      }
    }
  }

  /** A continuation that stops the consumer only while it is started. */
  predicate Alternates(calls: seq<Event>, more: seq<Event>) {
    AllCalls(more) && forall i :: |calls| <= i < |calls + more| ==> !StopsStopped(calls + more, i)
  }

  /** For a caller that stops a started consumer only from now on, every later stop is quiet if and only if
      no earlier stop was entered while the consumer was STOPPED. */
  lemma EveryLaterStopIsQuietIff(calls: seq<Event>)
    requires AllCalls(calls)
    ensures (forall more :: Alternates(calls, more) ==> NextStopIsQuiet(calls + more)) <==> !SomeIdleStop(calls)
  {
    hide NextStopIsQuiet;
    if SomeIdleStop(calls) {
      assert Alternates(calls, [Start]);
      StartedSnoc(calls, Start);
      NextStopIsQuietIff(calls + [Start]);
    } else {
      forall more | Alternates(calls, more) ensures NextStopIsQuiet(calls + more) {
        assert forall i: nat :: i < |calls| ==> StopsStopped(calls + more, i) == StopsStopped(calls, i);
        NextStopIsQuietIff(calls + more);
      }
    }
  }

  lemma LostIsLoud(c: Consumer)
    requires Shaped(c, Lost)
    ensures c.call == Idle && !StopAlwaysQuiet(c)
  {
    hide StopAlwaysQuiet;
    ShapedLostIsUnguarded(c);
    UnguardedStopIsLoud(c);
  }
}
