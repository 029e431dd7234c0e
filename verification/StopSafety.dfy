/** What `MessageConsumerImpl::stop` guarantees, over every schedule of the proton thread. */
module StopSafety {
  import opened ClientStates
  import opened ReceiverProtocol

  /** No credit, none withheld, and no queued closure that would add any. */
  predicate Quiet(c: Consumer) {
    c.attached ==> c.credit == 0 && c.held == 0 && AddCredit !in c.work
  }

  /** Whenever a stop entered in `c` may return, the receiver is quiet. */
  ghost predicate StopAlwaysQuiet(c: Consumer)
    requires c.call == Idle
  {
    forall es :: ProtonOnly(es) && IsRun(Step(c, StopEnter), es) && Exec(Step(c, StopEnter), es).state == Stopped
      ==> Quiet(Exec(Step(c, StopEnter), es))
  }

  /** What the caller can check before the call: a started consumer must have no drain left over from
      an earlier stop, and a stopped one must already be quiet, because its stop does not wait. */
  predicate StopGuard(c: Consumer) {
    if c.state == Started then !DrainOutstanding(c) else Quiet(c)
  }

  /** The states a guarded stop goes through while it waits. */
  predicate Stopping(c: Consumer) {
    && c.call == InStop && c.attached && c.link == Active
    && if c.state == Started then
         if c.draining then
           c.work == [] && c.held == 0
         else
           && |c.work| > 0 && c.work[|c.work| - 1] == Drain && Drain !in c.work[..|c.work| - 1]
           && OpenReceiver !in c.work && CloseReceiver !in c.work && c.held == 0
       else
         c.state == Stopped && !c.draining && c.credit == 0 && c.held == 0 && c.work == []
  }

  lemma StoppingStep(c: Consumer, e: Event)
    requires Stopping(c) && FromProton(e) && Enabled(c, e)
    ensures Stopping(Step(c, e))
  {
    if e == RunWork {
      var d := Step(c, e);
      var n := |c.work|;
      assert n > 1 ==> d.work[..|d.work| - 1] == c.work[..n - 1][1..] && c.work[0] == c.work[..n - 1][0];
    }
  }

  lemma {:induction false} StoppingRun(c: Consumer, es: seq<Event>)
    requires Stopping(c) && ProtonOnly(es) && IsRun(c, es)
    ensures Stopping(Exec(c, es))
    decreases |es|
  {
    if es != [] {
      StoppingStep(c, es[0]);
      StoppingRun(Step(c, es[0]), es[1..]);
    }
  }

  lemma EnterStopping(c: Consumer)
    requires Inv(c) && c.call == Idle && c.attached && c.state == Started && !DrainOutstanding(c)
    ensures Stopping(Step(c, StopEnter))
  {
    var d := Step(c, StopEnter);
    assert d.work[..|d.work| - 1] == c.work;
  }

  /** Only `start` ends the quiet. */
  lemma QuietStep(c: Consumer, e: Event)
    requires Inv(c) && Quiet(c) && c.call != InOpen && Enabled(c, e) && e != Start
    ensures Quiet(Step(c, e)) && Step(c, e).delivered == c.delivered && Step(c, e).call != InOpen
  {}

  lemma {:induction false} QuietRun(c: Consumer, es: seq<Event>)
    requires Inv(c) && Quiet(c) && c.call != InOpen && IsRun(c, es) && Start !in es
    ensures Quiet(Exec(c, es)) && Exec(c, es).delivered == c.delivered
    decreases |es|
  {
    if es != [] {
      InvStep(c, es[0]);
      QuietStep(c, es[0]);
      QuietRun(Step(c, es[0]), es[1..]);
    }
  }

  /** The first drain in line is followed by a credit request, so it ends with credit still to come. */
  predicate DrainsTooEarly(c: Consumer) {
    && c.link == Active && OpenReceiver !in c.work && CloseReceiver !in c.work
    && if c.draining then
         c.held > 0 || AddCredit in c.work
       else
         exists k :: 0 <= k < |c.work| && c.work[k] == Drain && AddCredit in c.work[k + 1..]
  }

  lemma EarlyStep(c: Consumer)
    requires DrainsTooEarly(c) && !c.draining
    ensures Enabled(c, RunWork) && DrainsTooEarly(Step(c, RunWork))
  {
    var d := Step(c, RunWork);
    var k :| 0 <= k < |c.work| && c.work[k] == Drain && AddCredit in c.work[k + 1..];
    if c.work[0] == Drain {
      var j :| 0 <= j < |c.work[k + 1..]| && c.work[k + 1..][j] == AddCredit;
      assert d.work[k + j] == AddCredit;
    } else {
      assert d.work[k - 1] == Drain && d.work[k - 1 + 1..] == c.work[k + 1..];
    }
  }

  /** Proton's shortest way to the end of the drain. */
  function EarlyEvent(c: Consumer): Event {
    if c.draining then (if c.credit > 0 then Forfeit else OnDrainFinish) else RunWork
  }

  lemma EarlyNext(c: Consumer)
    requires DrainsTooEarly(c)
    ensures FromProton(EarlyEvent(c)) && Enabled(c, EarlyEvent(c)) && Step(c, EarlyEvent(c)).attached == c.attached
    ensures !c.draining ==> |Step(c, RunWork).work| < |c.work| && DrainsTooEarly(Step(c, RunWork))
    ensures c.draining && c.credit > 0 ==> Step(c, Forfeit) == c.(credit := 0) && DrainsTooEarly(Step(c, Forfeit))
    ensures c.draining && c.credit == 0 ==>
              var d := Step(c, OnDrainFinish); d.state == Stopped && (d.credit > 0 || AddCredit in d.work)
  {
    if !c.draining { EarlyStep(c); }
  }

  /** A schedule that ends the first drain in line and nothing more. */
  lemma {:induction false} EarlyFinish(c: Consumer) returns (es: seq<Event>)
    requires DrainsTooEarly(c)
    ensures ProtonOnly(es) && IsRun(c, es)
    ensures Exec(c, es).state == Stopped && Exec(c, es).attached == c.attached
    ensures Exec(c, es).credit > 0 || AddCredit in Exec(c, es).work
    decreases |c.work|, c.draining, c.credit
  {
    hide DrainsTooEarly, Step, Enabled, FromProton;
    EarlyNext(c);
    var e := EarlyEvent(c);
    var d := Step(c, e);
    var rest := [];
    if e == OnDrainFinish {
      assert IsRun(d, []) && Exec(d, []) == d;
    } else {
      rest := EarlyFinish(d);
    }
    es := [e] + rest;
    assert es[0] == e && es[1..] == rest;
  }

  lemma StartedIsRefilled(c: Consumer)
    requires Inv(c) && c.call == Idle && c.attached && c.state == Started
    ensures c.link == Active && OpenReceiver !in c.work && CloseReceiver !in c.work && Refilled(c)
  {}

  lemma RefilledBehind(c: Consumer, k: nat)
    requires Refilled(c) && k < |c.work| && c.work[k] == Drain
    ensures AddCredit in c.work[k + 1..]
  {}

  lemma DrainStaysInLine(work: seq<Work>, k: nat)
    requires k < |work| && work[k] == Drain && AddCredit in work[k + 1..]
    ensures (work + [Drain])[k] == Drain
    ensures AddCredit in (work + [Drain])[k + 1..] && Drain in (work + [Drain])[k + 1..]
  {
    assert (work + [Drain])[k + 1..] == work[k + 1..] + [Drain];
  }

  /** A started consumer with a drain left over ends its next stop too early. */
  lemma LeftoverDrainsEarly(c: Consumer)
    requires Inv(c) && c.call == Idle && c.attached && c.state == Started && DrainOutstanding(c)
    ensures DrainsTooEarly(Step(c, StopEnter)) && Step(c, StopEnter).attached
  {
    StartedIsRefilled(c);
    hide Inv;
    var d := Step(c, StopEnter);
    assert d == c.(work := c.work + [Drain], call := InStop);
    AppendedDrain(c.work);
    hide Step;
    if c.draining {
      WithheldOrQueued(c);
      hide Refilled;
    } else {
      var k :| 0 <= k < |c.work| && c.work[k] == Drain;
      RefilledBehind(c, k);
      DrainStaysInLine(c.work, k);
      hide Refilled;
      assert d.work[k] == Drain && AddCredit in d.work[k + 1..];
    }
  }

  lemma AppendedDrain(work: seq<Work>)
    ensures forall w :: w in work + [Drain] <==> w in work || w == Drain
  {}

  lemma WithheldOrQueued(c: Consumer)
    requires Refilled(c) && c.draining
    ensures c.held > 0 || AddCredit in c.work
  {}

  lemma LoudAtOnce(c: Consumer)
    requires Inv(c) && c.call == Idle && c.attached && c.state != Started && !Quiet(c)
    ensures Step(c, StopEnter).state == Stopped && !Quiet(Step(c, StopEnter))
  {
    if AddCredit in c.work {
      var j :| 0 <= j < |c.work| && c.work[j] == AddCredit;
      assert Step(c, StopEnter).work[j] == AddCredit;
    }
  }

  lemma UnguardedStopIsLoud(c: Consumer)
    requires Inv(c) && c.call == Idle && c.attached && !StopGuard(c)
    ensures !StopAlwaysQuiet(c)
  {
    hide Inv, Step, DrainsTooEarly, DrainOutstanding;
    var d := Step(c, StopEnter);
    if c.state == Started {
      LeftoverDrainsEarly(c);
      var es := EarlyFinish(d);
      assert !Quiet(Exec(d, es));
    } else {
      LoudAtOnce(c);
      assert IsRun(d, []) && Exec(d, []) == d && ProtonOnly([]);
      assert !Quiet(Exec(d, []));
    }
  }

  lemma GuardedStopIsQuiet(c: Consumer)
    requires Inv(c) && c.call == Idle && c.attached && StopGuard(c)
    ensures StopAlwaysQuiet(c)
  {
    var d := Step(c, StopEnter);
    forall es | ProtonOnly(es) && IsRun(d, es) && Exec(d, es).state == Stopped
      ensures Quiet(Exec(d, es))
    {
      if c.state == Started {
        EnterStopping(c);
        StoppingRun(d, es);
      } else {
        InvStep(c, StopEnter);
        QuietStep(c, StopEnter);
        ProtonNeverStarts(es);
        QuietRun(d, es);
      }
    }
  }

  lemma ProtonNeverStarts(es: seq<Event>)
    requires ProtonOnly(es)
    ensures Start !in es
  {}

  /** Stop safety, exactly: a stop is quiet under every schedule if and only if its guard held. */
  lemma StopIsQuietIffGuarded(c: Consumer)
    requires Reachable(c) && c.call == Idle && c.attached
    ensures StopAlwaysQuiet(c) <==> StopGuard(c)
  {
    ReachableInv(c);
    if StopGuard(c) { GuardedStopIsQuiet(c); } else { UnguardedStopIsLoud(c); }
  }

  /** After a guarded stop has returned, nothing reaches the listener before the next start. */
  lemma NoDeliveryUntilStart(c: Consumer, es: seq<Event>, fs: seq<Event>)
    requires Reachable(c) && c.call == Idle && c.attached && StopGuard(c)
    requires ProtonOnly(es) && IsRun(Step(c, StopEnter), es) && Exec(Step(c, StopEnter), es).state == Stopped
    requires IsRun(Exec(Step(c, StopEnter), es), fs) && Start !in fs
    ensures Quiet(Exec(Exec(Step(c, StopEnter), es), fs))
    ensures Exec(Exec(Step(c, StopEnter), es), fs).delivered == Exec(Step(c, StopEnter), es).delivered
  {
    StopIsQuietIffGuarded(c);
    ReachableInv(c);
    InvStep(c, StopEnter);
    InvRun(Step(c, StopEnter), es);
    StaysOpened(Step(c, StopEnter), es);
    QuietRun(Exec(Step(c, StopEnter), es), fs);
  }

  lemma {:induction false} StaysOpened(c: Consumer, es: seq<Event>)
    requires IsRun(c, es) && c.call != InOpen
    ensures Exec(c, es).call != InOpen
    decreases |es|
  {
    if es != [] { StaysOpened(Step(c, es[0]), es[1..]); }
  }

  // ---------------------------------------------------------------- while the application waits elsewhere

  /** What proton's steps leave alone in a consumer that no call is waiting for: only a drain left over from
      an earlier stop can still change its state, and a stop that was safe stays safe. */
  ghost predicate Settles(c: Consumer, d: Consumer) {
    && Inv(d) && d.call == Idle && d.attached == c.attached
    && (!c.attached ==> d == c)
    && (d.state == c.state || (c.attached && d.state == Stopped))
    && (StopGuard(c) ==> StopGuard(d))
    && (c.state == Stopped && Quiet(c) ==> Quiet(d))
  }

  lemma SettleStep(c: Consumer, e: Event)
    requires Inv(c) && c.call == Idle && FromProton(e) && Enabled(c, e)
    ensures Settles(c, Step(c, e))
  {
    InvStep(c, e);
    if Quiet(c) { QuietStep(c, e); }
  }

  lemma {:induction false} SettleRun(c: Consumer, es: seq<Event>)
    requires Inv(c) && c.call == Idle && ProtonOnly(es) && IsRun(c, es)
    ensures Settles(c, Exec(c, es))
    decreases |es|
  {
    hide Inv, Step, Enabled, FromProton, StopGuard, Quiet;
    if es != [] {
      SettleStep(c, es[0]);
      SettleRun(Step(c, es[0]), es[1..]);
    }
  }

  lemma RanSettles(c: Consumer, d: Consumer)
    requires Inv(c) && c.call == Idle && Ran(c, d)
    ensures Settles(c, d)
  {
    hide Settles;
    var es :| ProtonOnly(es) && IsRun(c, es) && d == Exec(c, es);
    SettleRun(c, es);
  }

  // ---------------------------------------------------------------- why the guard is needed

  /** The run that shows why the guard is needed: stop, start, stop.  The second stop is entered
      while the state is STARTED, returns, and a message is still delivered afterwards. */
  const OPEN_STOP_START_STOP: seq<Event> := [RunWork, OnOpen, OpenReturn, StopEnter, StopReturn, Start, StopEnter]
  const RETURN_AND_DELIVER: seq<Event> := [RunWork, OnDrainFinish, StopReturn, RunWork, Deliver]
  const SECOND_STOP := Consumer(Started, true, [Drain, AddCredit, Drain], InStop, Active, 0, 0, false, 0)

  lemma StoppedConsumerStillDelivers()
    ensures IsRun(Fresh(), OPEN_STOP_START_STOP + RETURN_AND_DELIVER)
    ensures Exec(Fresh(), OPEN_STOP_START_STOP) == SECOND_STOP
    ensures var d := Exec(Fresh(), OPEN_STOP_START_STOP + RETURN_AND_DELIVER);
            d.state == Stopped && d.call == Idle && d.delivered == 1
  {
    SecondStopIsReached();
    SecondStopReturnsLoud();
    RunConcat(Fresh(), OPEN_STOP_START_STOP, RETURN_AND_DELIVER);
  }

  ghost predicate Move(c: Consumer, e: Event, d: Consumer) {
    Enabled(c, e) && Step(c, e) == d
  }

  /** One step in front of a run. */
  lemma Before(c: Consumer, e: Event, d: Consumer, es: seq<Event>, fs: seq<Event>, last: Consumer)
    requires Move(c, e, d) && IsRun(d, es) && Exec(d, es) == last && |fs| == |es| + 1 && fs[0] == e && fs[1..] == es
    ensures IsRun(c, fs) && Exec(c, fs) == last
  {}

  lemma NoSteps(c: Consumer)
    ensures IsRun(c, []) && Exec(c, []) == c
  {}

  const OPENING := Consumer(Uninitialized, true, [], InOpen, Opening, 0, 0, false, 0)
  const OPENED := Consumer(Stopped, true, [], Idle, Active, 0, 0, false, 0)
  const DRAIN_LEFT := Consumer(Stopped, true, [Drain], Idle, Active, 0, 0, false, 0)
  const STARTED_AGAIN := Consumer(Started, true, [Drain, AddCredit], Idle, Active, 0, 0, false, 0)

  lemma OpenMoves()
    ensures Move(Fresh(), RunWork, OPENING) && Move(OPENING, OnOpen, OPENED.(call := InOpen))
    ensures Move(OPENED.(call := InOpen), OpenReturn, OPENED)
  {
    assert [OpenReceiver][1..] == [];
  }

  lemma StopMoves()
    ensures Move(OPENED, StopEnter, DRAIN_LEFT.(call := InStop))
        && Move(DRAIN_LEFT.(call := InStop), StopReturn, DRAIN_LEFT)
  {
    assert [] + [Drain] == [Drain];
  }

  lemma StartMoves()
    ensures Move(DRAIN_LEFT, Start, STARTED_AGAIN) && Move(STARTED_AGAIN, StopEnter, SECOND_STOP)
  {
    assert [Drain] + [AddCredit] == [Drain, AddCredit] && [Drain, AddCredit] + [Drain] == [Drain, AddCredit, Drain];
  }

  lemma SecondStopIsReached()
    ensures IsRun(Fresh(), OPEN_STOP_START_STOP) && Exec(Fresh(), OPEN_STOP_START_STOP) == SECOND_STOP
  {
    hide IsRun, Exec, Move, Fresh;
    var es := OPEN_STOP_START_STOP;
    OpenMoves();
    StopMoves();
    StartMoves();
    NoSteps(SECOND_STOP);
    Before(STARTED_AGAIN, StopEnter, SECOND_STOP, [], es[6..], SECOND_STOP);
    Before(DRAIN_LEFT, Start, STARTED_AGAIN, es[6..], es[5..], SECOND_STOP);
    Before(DRAIN_LEFT.(call := InStop), StopReturn, DRAIN_LEFT, es[5..], es[4..], SECOND_STOP);
    Before(OPENED, StopEnter, DRAIN_LEFT.(call := InStop), es[4..], es[3..], SECOND_STOP);
    Before(OPENED.(call := InOpen), OpenReturn, OPENED, es[3..], es[2..], SECOND_STOP);
    Before(OPENING, OnOpen, OPENED.(call := InOpen), es[2..], es[1..], SECOND_STOP);
    Before(Fresh(), RunWork, OPENING, es[1..], es, SECOND_STOP);
  }

  const DRAINING := Consumer(Started, true, [AddCredit, Drain], InStop, Active, 0, 0, true, 0)
  const DRAINED := Consumer(Stopped, true, [AddCredit, Drain], Idle, Active, 0, 0, false, 0)
  const CREDITED := Consumer(Stopped, true, [Drain], Idle, Active, 10, 0, false, 0)
  const DELIVERED := CREDITED.(delivered := 1)

  lemma DrainMoves()
    ensures Move(SECOND_STOP, RunWork, DRAINING) && Move(DRAINING, OnDrainFinish, DRAINED.(call := InStop))
    ensures Move(DRAINED.(call := InStop), StopReturn, DRAINED)
  {
    assert [Drain, AddCredit, Drain][1..] == [AddCredit, Drain];
  }

  lemma CreditMoves()
    ensures Move(DRAINED, RunWork, CREDITED) && Move(CREDITED, Deliver, DELIVERED)
  {
    assert [AddCredit, Drain][1..] == [Drain];
  }

  lemma SecondStopReturnsLoud()
    ensures IsRun(SECOND_STOP, RETURN_AND_DELIVER) && Exec(SECOND_STOP, RETURN_AND_DELIVER) == DELIVERED
  {
    hide IsRun, Exec, Move;
    var es := RETURN_AND_DELIVER;
    DrainMoves();
    CreditMoves();
    NoSteps(DELIVERED);
    Before(CREDITED, Deliver, DELIVERED, [], es[4..], DELIVERED);
    Before(DRAINED, RunWork, CREDITED, es[4..], es[3..], DELIVERED);
    Before(DRAINED.(call := InStop), StopReturn, DRAINED, es[3..], es[2..], DELIVERED);
    Before(DRAINING, OnDrainFinish, DRAINED.(call := InStop), es[2..], es[1..], DELIVERED);
    Before(SECOND_STOP, RunWork, DRAINING, es[1..], es, DELIVERED);
  }

  // ---------------------------------------------------------------- credit

  function CountAdds(work: seq<Work>): nat {
    if work == [] then 0 else (if work[0] == AddCredit then 1 else 0) + CountAdds(work[1..])
  }

  function CountStarts(es: seq<Event>): nat {
    if es == [] then 0 else (if es[0] == Start then 1 else 0) + CountStarts(es[1..])
  }

  lemma {:induction false} CountAddsAppend(work: seq<Work>, w: Work)
    ensures CountAdds(work + [w]) == CountAdds(work) + (if w == AddCredit then 1 else 0)
  {
    if work == [] {
      assert work + [w] == [w] && [w][1..] == [];
    } else {
      assert (work + [w])[1..] == work[1..] + [w];
      CountAddsAppend(work[1..], w);
    }
  }

  /** A queued request gives ten credits when proton runs it: at once, or after the drain in progress. */
  lemma RequestGivesTen(c: Consumer)
    requires c.link == Active && c.work != [] && c.work[0] == AddCredit
    ensures Enabled(c, RunWork) && Step(c, RunWork).work == c.work[1..]
    ensures var d := Step(c, RunWork);
            if c.draining then d.held == c.held + 10 && d.credit == c.credit
            else d.credit == c.credit + 10 && d.held == c.held
  {}

  /** The end of a drain hands over everything that was withheld. */
  lemma DrainEndReleases(c: Consumer)
    requires Enabled(c, OnDrainFinish)
    ensures Step(c, OnDrainFinish).credit == c.held && Step(c, OnDrainFinish).held == 0
  {}

  /** One start, once proton has run its request. */
  lemma StartGivesTen(c: Consumer)
    requires c.link == Active && c.attached && c.call == Idle && c.work == []
    ensures IsRun(c, [Start, RunWork])
    ensures var d := Exec(c, [Start, RunWork]);
            && d.state == Started && d.work == []
            && (if c.draining then d.held == c.held + 10 && d.credit == c.credit
                else d.credit == c.credit + 10 && d.held == c.held)
  {
    var d := Step(c, Start);
    assert d.work == [AddCredit];
    RequestGivesTen(d);
    NoSteps(Step(d, RunWork));
    Before(d, RunWork, Step(d, RunWork), [], [RunWork], Step(d, RunWork));
    Before(c, Start, d, [RunWork], [Start, RunWork], Step(d, RunWork));
  }

  /** Credit held by the receiver, withheld, or still queued. */
  function TotalCredit(c: Consumer): nat {
    c.credit + c.held + 10 * CountAdds(c.work)
  }

  /** Credit is conserved while nothing drains: only `start` adds to the total, ten each time,
      however many messages are delivered in between. */
  lemma {:induction false} CreditConservation(c: Consumer, es: seq<Event>)
    requires Inv(c) && c.call == Idle && c.attached && !DrainOutstanding(c)
    requires IsRun(c, es) && StopEnter !in es && CloseEnter !in es
    ensures TotalCredit(Exec(c, es)) == TotalCredit(c) + 10 * CountStarts(es)
    decreases |es|
  {
    if es != [] {
      var d := Step(c, es[0]);
      InvStep(c, es[0]);
      if es[0] == Start { CountAddsAppend(c.work, AddCredit); }
      assert forall e :: e in es[1..] ==> e in es;
      CreditConservation(d, es[1..]);
    }
  }

  /** From a quiet stop on, the total is ten times the starts since. */
  lemma CreditSinceStop(c: Consumer, es: seq<Event>)
    requires Inv(c) && c.call == Idle && c.attached && Quiet(c) && !DrainOutstanding(c)
    requires IsRun(c, es) && StopEnter !in es && CloseEnter !in es
    ensures TotalCredit(Exec(c, es)) == 10 * CountStarts(es)
  {
    NoAdds(c.work);
    CreditConservation(c, es);
  }

  /** What a drain takes away: credit that is used while it drains, or given up. */
  function Drained(c: Consumer, e: Event): nat {
    if !c.draining then 0 else if e == Deliver then 1 else if e == Forfeit then c.credit else 0
  }

  function AllDrained(c: Consumer, es: seq<Event>): nat
    requires IsRun(c, es)
    decreases |es|
  {
    if es == [] then 0 else Drained(c, es[0]) + AllDrained(Step(c, es[0]), es[1..])
  }

  lemma AccountingStep(c: Consumer, e: Event)
    requires Inv(c) && (c.call == Idle || c.call == InStop) && c.attached && Enabled(c, e) && e != CloseEnter
    ensures TotalCredit(Step(c, e)) + Drained(c, e) == TotalCredit(c) + (if e == Start then 10 else 0)
    ensures Step(c, e).attached && (Step(c, e).call == Idle || Step(c, e).call == InStop)
  {
    if e == Start { CountAddsAppend(c.work, AddCredit); }
    if e == StopEnter { CountAddsAppend(c.work, Drain); }
  }

  /** The whole account, stops and drains included: over any run before a close, what was there and ten for
      each start is what is there in the end and what drains have taken. */
  lemma {:induction false} CreditAccounting(c: Consumer, es: seq<Event>)
    requires Inv(c) && (c.call == Idle || c.call == InStop) && c.attached && IsRun(c, es) && CloseEnter !in es
    ensures TotalCredit(Exec(c, es)) + AllDrained(c, es) == TotalCredit(c) + 10 * CountStarts(es)
    decreases |es|
  {
    hide Inv, Step, Enabled, TotalCredit, Drained;
    if es != [] {
      InvStep(c, es[0]);
      AccountingStep(c, es[0]);
      assert forall e :: e in es[1..] ==> e in es;
      CreditAccounting(Step(c, es[0]), es[1..]);
    }
  }

  lemma {:induction false} NoAdds(work: seq<Work>)
    requires AddCredit !in work
    ensures CountAdds(work) == 0
  {
    if work != [] { NoAdds(work[1..]); }
  }

  // ---------------------------------------------------------------- waiting ends

  /** What proton still has to do before a waiting stop can return, deliveries aside. */
  function Pending(c: Consumer): nat {
    3 * |c.work| + (if !c.draining then 0 else if c.credit > 0 then 2 else 1)
  }

  function CountDeliveries(es: seq<Event>): nat {
    if es == [] then 0 else (if es[0] == Deliver then 1 else 0) + CountDeliveries(es[1..])
  }

  /** Proton is never stuck while a stop waits, guarded or not. */
  lemma StopMakesProgress(c: Consumer)
    requires Inv(c) && c.call == InStop && c.state != Stopped
    ensures exists e :: FromProton(e) && e != Deliver && Enabled(c, e)
  {
    var e := if c.draining then (if c.credit > 0 then Forfeit else OnDrainFinish) else RunWork;
    assert FromProton(e) && Enabled(c, e);
  }

  /** However the proton thread is scheduled, a stop waits for a bounded number of steps other than
      deliveries, and once the drain is under way deliveries are bounded by the credit too. */
  lemma {:induction false} StopWaitIsBounded(c: Consumer, es: seq<Event>)
    requires Inv(c) && c.call == InStop && c.link == Active && ProtonOnly(es) && IsRun(c, es)
    ensures |es| - CountDeliveries(es) + Pending(Exec(c, es)) <= Pending(c)
    ensures c.draining && OnDrainFinish !in es ==>
              Exec(c, es).draining && CountDeliveries(es) + Exec(c, es).credit <= c.credit
    decreases |es|
  {
    if es != [] {
      var d := Step(c, es[0]);
      InvStep(c, es[0]);
      StopWaitIsBounded(d, es[1..]);
    }
  }

  // ---------------------------------------------------------------- closed

  /** Once the close callback has run, the work queue pointer stays null, nothing is ever enqueued,
      nothing is delivered, and every start and stop throws. */
  lemma {:induction false} ClosedIsAbsorbing(c: Consumer, es: seq<Event>)
    requires Inv(c) && !c.attached && IsRun(c, es)
    ensures var d := Exec(c, es);
            && !d.attached && d.work == [] && d.state == Closed && d.delivered == c.delivered
            && Throws(d, Start) && Throws(d, StopEnter) && !Throws(d, CloseEnter)
    decreases |es|
  {
    if es != [] {
      InvStep(c, es[0]);
      ClosedIsAbsorbing(Step(c, es[0]), es[1..]);
    }
  }
}
