/** What the states of a connection, a session, a consumer or a producer are called. */
module ClientStates {

  datatype ClientState = Uninitialized | Started | Stopped | Closed | Detached
}

/** The credit and drain protocol of one consumer, as a transition system.

    A `Consumer` is a snapshot of the client object together with the proton receiver it drives.
    The application's calls are atomic up to the point where they wait; a waiting call returns by a
    step of its own, which is enabled once the call's wait predicate holds.  The remaining steps are
    proton's: it runs the queued work in order, delivers messages against credit, and completes
    drains and opens and closes (OASIS AMQP 1.0, section 2.6.7). */
module ReceiverProtocol {
  import opened ClientStates

  /** The closures a consumer puts on its work queue. */
  datatype Work = OpenReceiver | AddCredit | Drain | CloseReceiver

  /** How far the link has come. */
  datatype Link = Unopened | Opening | Active | Closing | Ended

  /** What the application thread is waiting for inside this consumer. */
  datatype Call = Idle | InOpen | InStop | InClose

  /** `attached` says that the work queue pointer is not null.  `credit` and `draining` are the
      receiver's, and `held` is the credit that proton withholds while it drains. */
  datatype Consumer = Consumer(
    state: ClientState, attached: bool, work: seq<Work>, call: Call,
    link: Link, credit: nat, held: nat, draining: bool, delivered: nat)

  const CREDIT_PER_START := 10

  /** The constructor up to its wait, for a session whose own work queue is not null. */
  function Fresh(): Consumer {
    Consumer(Uninitialized, true, [OpenReceiver], InOpen, Unopened, 0, 0, false, 0)
  }

  datatype Event =
    // the application
    | OpenReturn | Start | StopEnter | StopReturn | CloseEnter | CloseReturn
    // proton
    | RunWork | OnOpen | Deliver | Forfeit | OnDrainFinish | OnClose

  predicate FromProton(e: Event) {
    e.RunWork? || e.OnOpen? || e.Deliver? || e.Forfeit? || e.OnDrainFinish? || e.OnClose?
  }

  predicate Enabled(c: Consumer, e: Event) {
    match e
    case OpenReturn => c.call == InOpen && c.state != Uninitialized
    case Start => c.call == Idle
    case StopEnter => c.call == Idle
    case StopReturn => c.call == InStop && c.state == Stopped
    case CloseEnter => c.call == Idle
    case CloseReturn => c.call == InClose && c.state == Closed
    case RunWork => c.work != [] && (c.work[0] == Drain && c.link == Active ==> !c.draining)
    case OnOpen => c.link == Opening
    case Deliver => c.link == Active && c.credit > 0
    case Forfeit => c.link == Active && c.draining && c.credit > 0
    case OnDrainFinish => c.link == Active && c.draining && c.credit == 0
    case OnClose => c.link == Closing
  }

  /** A call that throws instead of acting: the work queue pointer is null. */
  predicate Throws(c: Consumer, e: Event) {
    !c.attached && (e.Start? || e.StopEnter? || (e.CloseEnter? && c.state != Closed))
  }

  function Step(c: Consumer, e: Event): Consumer
    requires Enabled(c, e)
  {
    match e
    case OpenReturn => c.(call := Idle)
    case Start => if c.attached then c.(work := c.work + [AddCredit], state := Started) else c
    case StopEnter => if c.attached then c.(work := c.work + [Drain], call := InStop) else c
    case StopReturn => c.(call := Idle)
    case CloseEnter =>
      if c.state == Closed || !c.attached then c else c.(work := c.work + [CloseReceiver], call := InClose)
    case CloseReturn => c.(call := Idle)
    case RunWork => Run(c)
    case OnOpen =>
      c.(link := Active, attached := true, state := if c.state == Uninitialized then Stopped else Started)
    case Deliver => c.(credit := c.credit - 1 + (if c.draining then 0 else 1), delivered := c.delivered + 1)
    case Forfeit => c.(credit := 0)
    case OnDrainFinish => c.(draining := false, credit := c.held, held := 0, state := Stopped)
    case OnClose => c.(link := Ended, attached := false, state := Closed)
  }

  /** Proton runs the oldest closure. */
  function Run(c: Consumer): Consumer
    requires c.work != []
  {
    var rest := c.(work := c.work[1..]);
    match c.work[0]
    case OpenReceiver => if c.link == Unopened then rest.(link := Opening) else rest
    case AddCredit =>
      if c.link != Active then rest
      else if c.draining then rest.(held := c.held + CREDIT_PER_START)
      else rest.(credit := c.credit + CREDIT_PER_START)
    case Drain => if c.link == Active then rest.(draining := true) else rest
    case CloseReceiver => if c.link == Active then rest.(link := Closing) else rest
  }

  predicate IsRun(c: Consumer, es: seq<Event>)
    decreases |es|
  {
    es == [] || (Enabled(c, es[0]) && IsRun(Step(c, es[0]), es[1..]))
  }

  function Exec(c: Consumer, es: seq<Event>): Consumer
    requires IsRun(c, es)
    decreases |es|
  {
    if es == [] then c else Exec(Step(c, es[0]), es[1..])
  }

  predicate ProtonOnly(es: seq<Event>) {
    forall k :: 0 <= k < |es| ==> FromProton(es[k])
  }

  lemma {:induction false} RunConcat(c: Consumer, es: seq<Event>, fs: seq<Event>)
    requires IsRun(c, es) && IsRun(Exec(c, es), fs)
    ensures IsRun(c, es + fs) && Exec(c, es + fs) == Exec(Exec(c, es), fs)
    decreases |es|
  {
    if es == [] {
      assert es + fs == fs;
    } else {
      assert (es + fs)[0] == es[0] && (es + fs)[1..] == es[1..] + fs;
      RunConcat(Step(c, es[0]), es[1..], fs);
    }
  }

  lemma RunSnoc(c: Consumer, es: seq<Event>, e: Event)
    requires IsRun(c, es) && Enabled(Exec(c, es), e)
    ensures IsRun(c, es + [e]) && Exec(c, es + [e]) == Step(Exec(c, es), e)
  {
    var d := Exec(c, es);
    assert IsRun(d, [e]) && Exec(d, [e]) == Step(d, e) by {
      assert [e][1..] == [];
      assert IsRun(Step(d, e), []);
    }
    RunConcat(c, es, [e]);
  }

  /** Proton has taken some steps, and nobody else has. */
  ghost predicate Ran(c: Consumer, d: Consumer) {
    exists es :: ProtonOnly(es) && IsRun(c, es) && d == Exec(c, es)
  }

  lemma RanNothing(c: Consumer)
    ensures Ran(c, c)
  {
    assert ProtonOnly([]) && IsRun(c, []) && Exec(c, []) == c;
  }

  lemma RanTwice(c: Consumer, d: Consumer, e: Consumer)
    requires Ran(c, d) && Ran(d, e)
    ensures Ran(c, e)
  {
    var es :| ProtonOnly(es) && IsRun(c, es) && d == Exec(c, es);
    var fs :| ProtonOnly(fs) && IsRun(d, fs) && e == Exec(d, fs);
    RunConcat(c, es, fs);
    assert ProtonOnly(es + fs);
  }

  /** States reachable from a new consumer. */
  ghost predicate Reachable(c: Consumer) {
    exists es :: IsRun(Fresh(), es) && Exec(Fresh(), es) == c
  }

  // ---------------------------------------------------------------- structure of reachable states

  /** A drain is queued or in progress. */
  predicate DrainOutstanding(c: Consumer) {
    c.draining || Drain in c.work
  }

  /** Every queued drain has a credit request somewhere behind it, and so has a drain in progress. */
  predicate Refilled(c: Consumer) {
    && (forall k :: 0 <= k < |c.work| && c.work[k] == Drain ==> AddCredit in c.work[k + 1..])
    && (c.draining ==> c.held > 0 || AddCredit in c.work)
  }

  /** What holds of every reachable state. */
  predicate Inv(c: Consumer) {
    && (c.held > 0 ==> c.draining)
    && (c.call == InOpen ==>
          && !c.draining && c.attached && c.credit == 0
          && (c.link == Unopened ==> c.work == [OpenReceiver] && c.state == Uninitialized)
          && (c.link == Opening ==> c.work == [] && c.state == Uninitialized)
          && (c.link == Active ==> c.work == [] && c.state == Stopped)
          && (c.link == Unopened || c.link == Opening || c.link == Active))
    && ((c.call == Idle || c.call == InStop) && c.attached ==>
          && c.link == Active
          && OpenReceiver !in c.work && CloseReceiver !in c.work
          && (c.state == Started || c.state == Stopped))
    && (c.call == InStop ==> c.attached && (c.state == Started ==> DrainOutstanding(c)))
    && (c.call == Idle && c.attached && c.state == Started ==> Refilled(c))
    && (c.call == InClose ==> ClosingUp(c))
    && (!c.attached ==> c.state == Closed && c.link == Ended && c.work == [] && c.call != InOpen && c.call != InStop)
  }

  predicate ClosingUp(c: Consumer) {
    if c.attached then
      if c.link == Active then
        && |c.work| > 0 && c.work[|c.work| - 1] == CloseReceiver
        && OpenReceiver !in c.work
        && CloseReceiver !in c.work[..|c.work| - 1]
        && (c.state == Started || c.state == Stopped)
      else
        c.link == Closing && c.work == [] && (c.state == Started || c.state == Stopped)
    else
      c.link == Ended && c.work == [] && c.state == Closed
  }

  lemma InvFresh()
    ensures Inv(Fresh())
  {}

  lemma InvStep(c: Consumer, e: Event)
    requires Inv(c) && Enabled(c, e)
    ensures Inv(Step(c, e))
  {
    hide Inv, Step;
    match e {
      case Start => InvStart(c);
      case StopEnter => InvStopEnter(c);
      case CloseEnter => InvCloseEnter(c);
      case RunWork => InvRunWork(c);
      case OnDrainFinish => InvDrainFinish(c);
      case OpenReturn => InvReturn(c, e);
      case StopReturn => InvReturn(c, e);
      case CloseReturn => InvReturn(c, e);
      case OnOpen => InvLink(c, e);
      case OnClose => InvLink(c, e);
      case Deliver => InvCredit(c, e);
      case Forfeit => InvCredit(c, e);
    }
  }

  lemma InvStart(c: Consumer)
    requires Inv(c) && c.call == Idle
    ensures Inv(Step(c, Start))
  {
    if c.attached { RefilledAfterStart(c); }
    hide Refilled;
  }

  lemma InvReturn(c: Consumer, e: Event)
    requires Inv(c) && Enabled(c, e) && (e == OpenReturn || e == StopReturn || e == CloseReturn)
    ensures Inv(Step(c, e))
  {}

  lemma InvLink(c: Consumer, e: Event)
    requires Inv(c) && Enabled(c, e) && (e == OnOpen || e == OnClose)
    ensures Inv(Step(c, e))
  {}

  lemma InvCredit(c: Consumer, e: Event)
    requires Inv(c) && Enabled(c, e) && (e == Deliver || e == Forfeit)
    ensures Inv(Step(c, e))
  {}

  lemma InvDrainFinish(c: Consumer)
    requires Inv(c) && Enabled(c, OnDrainFinish)
    ensures Inv(Step(c, OnDrainFinish))
  {}

  lemma InvStopEnter(c: Consumer)
    requires Inv(c) && c.call == Idle
    ensures Inv(Step(c, StopEnter))
  {
    assert c.attached ==> Step(c, StopEnter).work[|c.work|] == Drain;
  }

  lemma InvCloseEnter(c: Consumer)
    requires Inv(c) && c.call == Idle
    ensures Inv(Step(c, CloseEnter))
  {
    var d := Step(c, CloseEnter);
    assert d.call == InClose ==> d.work[..|d.work| - 1] == c.work;
  }

  lemma InvRunWork(c: Consumer)
    requires Inv(c) && Enabled(c, RunWork)
    ensures Inv(Step(c, RunWork))
  {
    if c.call == InClose {
      ClosingUpAfterRun(c);
    } else if c.call == Idle && c.attached && c.state == Started {
      RefilledAfterRun(c);
    }
  }

  lemma RefilledAfterStart(c: Consumer)
    requires c.attached && c.call == Idle
    ensures Refilled(Step(c, Start))
  {
    var d := Step(c, Start);
    var n := |c.work|;
    assert d.work[n] == AddCredit;
    forall k | 0 <= k < |d.work| && d.work[k] == Drain
      ensures AddCredit in d.work[k + 1..]
    {
      assert d.work[k + 1..][n - k - 1] == AddCredit;
    }
  }

  lemma RefilledAfterRun(c: Consumer)
    requires Refilled(c) && Enabled(c, RunWork) && c.link == Active
    ensures Refilled(Step(c, RunWork))
  {
    var d := Step(c, RunWork);
    forall k | 0 <= k < |d.work| && d.work[k] == Drain
      ensures AddCredit in d.work[k + 1..]
    {
      assert c.work[k + 1] == Drain && c.work[k + 2..] == d.work[k + 1..];
    }
    if c.work[0] == Drain {
      assert c.work[0 + 1..] == d.work;
    }
  }

  lemma ClosingUpAfterRun(c: Consumer)
    requires ClosingUp(c) && Enabled(c, RunWork)
    ensures ClosingUp(Step(c, RunWork))
  {
    var d := Step(c, RunWork);
    var n := |c.work|;
    if n > 1 {
      assert c.work[0] == c.work[..n - 1][0];
      assert d.work[..|d.work| - 1] == c.work[..n - 1][1..];
    }
  }

  lemma {:induction false} InvRun(c: Consumer, es: seq<Event>)
    requires Inv(c) && IsRun(c, es)
    ensures Inv(Exec(c, es))
    decreases |es|
  {
    if es != [] {
      InvStep(c, es[0]);
      InvRun(Step(c, es[0]), es[1..]);
    }
  }

  lemma ReachableInv(c: Consumer)
    requires Reachable(c)
    ensures Inv(c)
  {
    var es :| IsRun(Fresh(), es) && Exec(Fresh(), es) == c;
    InvFresh();
    InvRun(Fresh(), es);
  }
}
