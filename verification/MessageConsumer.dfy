/** The consumer object.  A blocking call performs its own step, then lets the proton thread run until
    its wait predicate holds; the ghost result `es` is the schedule that was taken, so every call is a
    run of the transition system in `ReceiverProtocol`. */
module MessageConsumers {
  import opened Prelude
  import opened ClientStates
  import opened ReceiverProtocol
  import StopSafety

  /** Proton has something to do besides delivering messages. */
  predicate Busy(c: Consumer) {
    c.work != [] || c.link == Opening || c.link == Closing || (c.link == Active && c.draining)
  }

  /** Bounds what proton still has to do, deliveries aside. */
  function Weight(c: Consumer): nat {
    4 * |c.work| + (if !c.draining then 0 else if c.credit > 0 then 2 else 1)
    + (if c.link == Opening || c.link == Closing then 1 else 0)
  }

  /** A blocking call: the call's own step, what proton does while it waits, and its return. */
  ghost predicate Waited(before: Consumer, enter: Event, es: seq<Event>, leave: Event, after: Consumer) {
    && Enabled(before, enter) && ProtonOnly(es) && IsRun(Step(before, enter), es)
    && Enabled(Exec(Step(before, enter), es), leave)
    && after == Step(Exec(Step(before, enter), es), leave)
  }

  lemma KeepsCall(c: Consumer, e: Event)
    requires FromProton(e) && Enabled(c, e)
    ensures Step(c, e).call == c.call
  {}

  lemma ReturnStep(c: Consumer, e: Event)
    requires Enabled(c, e) && (e == StopReturn || e == CloseReturn)
    ensures Step(c, e) == c.(call := Idle)
  {}

  lemma StoppedIsAttached(c: Consumer)
    requires Inv(c) && c.call == InStop
    ensures c.attached
  {}

  lemma ClosedIsDetached(c: Consumer)
    requires Inv(c) && c.call == InClose && c.state == Closed
    ensures !c.attached
  {}

  lemma ClosingHasNoWork(c: Consumer)
    requires Inv(c) && c.link == Closing
    ensures c.work == []
  {}

  lemma StoppingIsBusy(c: Consumer)
    requires Inv(c) && c.call == InStop && c.state != Stopped
    ensures Busy(c) && c.attached
  {}

  lemma GuardedStopEnds(c: Consumer, es: seq<Event>)
    requires Inv(c) && c.call == Idle && c.attached
    requires ProtonOnly(es) && IsRun(Step(c, StopEnter), es) && Exec(Step(c, StopEnter), es).state == Stopped
    ensures StopSafety.StopGuard(c) ==> StopSafety.Quiet(Exec(Step(c, StopEnter), es))
    ensures StopSafety.StopGuard(c) && c.state == Started ==>
              var d := Exec(Step(c, StopEnter), es); !DrainOutstanding(d) && d.work == []
  {
    if StopSafety.StopGuard(c) {
      StopSafety.GuardedStopIsQuiet(c);
      if c.state == Started {
        StopSafety.EnterStopping(c);
        StopSafety.StoppingRun(Step(c, StopEnter), es);
      }
    }
  }

  lemma ClosingIsBusy(c: Consumer)
    requires Inv(c) && c.call == InClose && c.state != Closed
    ensures Busy(c) && c.attached
  {}

  class MessageConsumer {
    // the consumer's context
    var mState: ClientState
    var mWorkQueue: Option<seq<Work>>
    // proton's receiver
    var mLink: Link
    var mCredit: nat
    var mHeld: nat
    var mDraining: bool
    // the call in progress, and the messages given to the listener so far
    var mCall: Call
    var mDelivered: nat
    // some client handle still owns the consumer
    var mAlive: bool

    function View(): Consumer
      reads this
    {
      Consumer(mState, mWorkQueue.Some?, if mWorkQueue.Some? then mWorkQueue.value else [], mCall,
               mLink, mCredit, mHeld, mDraining, mDelivered)
    }

    /** No call is in progress; a consumer that nobody holds any more has been closed. */
    ghost predicate Resting()
      reads this
    {
      Inv(View()) && mCall == Idle && (mAlive || mWorkQueue.None?)
    }

    /** The constructor, for a session whose work queue is not null: request the link and wait. */
    constructor ()
      ensures Resting() && mAlive
      ensures View() == Consumer(Stopped, true, [], Idle, Active, 0, 0, false, 0)
    {
      mState, mWorkQueue, mCall := Uninitialized, Some([OpenReceiver]), InOpen;
      mLink, mCredit, mHeld, mDraining, mDelivered, mAlive := Unopened, 0, 0, false, 0, true;
      new;
      while mState == Uninitialized
        invariant Inv(View()) && mCall == InOpen && mAlive && mDelivered == 0
        decreases Weight(View())
      {
        ghost var e := ProtonStep(false);
      }
      mCall := Idle;
    }

    // ---------------------------------------------------------------- calls

    method Start() returns (ok: bool)
      requires Resting()
      modifies this
      ensures ok == !Throws(old(View()), ReceiverProtocol.Start)
      ensures View() == Step(old(View()), ReceiverProtocol.Start)
      ensures StopSafety.TotalCredit(View()) == old(StopSafety.TotalCredit(View())) + if ok then 10 else 0
      ensures Resting() && mAlive == old(mAlive)
    {
      InvStep(View(), ReceiverProtocol.Start);
      if mWorkQueue.Some? {
        StopSafety.CountAddsAppend(mWorkQueue.value, AddCredit);
        mWorkQueue := Some(mWorkQueue.value + [AddCredit]);
        mState := Started;
        ok := true;
      } else {
        ok := false;
      }
    }

    method Stop() returns (ok: bool, ghost es: seq<Event>)
      requires Resting()
      modifies this
      ensures ok == !Throws(old(View()), StopEnter)
      ensures !ok ==> View() == old(View())
      ensures ok ==> Waited(old(View()), StopEnter, es, StopReturn, View())
      ensures ok && StopSafety.StopGuard(old(View())) ==> StopSafety.Quiet(View())
      ensures ok && old(mState) == Started && StopSafety.StopGuard(old(View())) ==>
                !DrainOutstanding(View()) && View().work == []
      ensures ok ==> mState == Stopped && mWorkQueue.Some?
      ensures Resting() && mAlive == old(mAlive)
    {
      es := [];
      ok := mWorkQueue.Some?;
      if ok {
        ghost var c := View();
        InvStep(c, StopEnter);
        mWorkQueue := Some(mWorkQueue.value + [Drain]);
        mCall := InStop;
        es := AwaitStopped();
        GuardedStopEnds(c, es);
      }
    }

    method AwaitStopped() returns (ghost es: seq<Event>)
      requires Inv(View()) && mCall == InStop && mAlive
      modifies this
      ensures ProtonOnly(es) && IsRun(old(View()), es) && Enabled(Exec(old(View()), es), StopReturn)
      ensures View() == Step(Exec(old(View()), es), StopReturn)
      ensures Resting() && mState == Stopped && mWorkQueue.Some? && mAlive == old(mAlive)
    {
      hide Inv, Step;
      es := [];
      ghost var d := View();
      var deliveries: nat := *;
      while mState != Stopped
        invariant Inv(View()) && mCall == InStop && mAlive == old(mAlive)
        invariant ProtonOnly(es) && IsRun(d, es) && Exec(d, es) == View()
        decreases Weight(View()), deliveries
      {
        var deliver: bool := *;
        StoppingIsBusy(View());
        ghost var before := View();
        ghost var e := ProtonStep(deliver && deliveries > 0);
        if deliver && deliveries > 0 { deliveries := deliveries - 1; }
        KeepsCall(before, e);
        RunSnoc(d, es, e);
        es := es + [e];
      }
      InvStep(View(), StopReturn);
      StoppedIsAttached(View());
      ReturnStep(View(), StopReturn);
      mCall := Idle;
    }

    /** Closing always succeeds: a consumer whose queue is null is already closed. */
    method Close() returns (ok: bool, ghost es: seq<Event>)
      requires Resting()
      modifies this
      ensures ok && mState == Closed && mWorkQueue.None?
      ensures old(mWorkQueue).Some? ==> Waited(old(View()), CloseEnter, es, CloseReturn, View())
      ensures old(mWorkQueue).None? ==> View() == old(View())
      ensures Resting() && mAlive == old(mAlive)
    {
      ok, es := true, [];
      if mState == Closed { return; }
      if mWorkQueue.Some? {
        InvStep(View(), CloseEnter);
        mWorkQueue := Some(mWorkQueue.value + [CloseReceiver]);
        mCall := InClose;
        es := AwaitClosed();
      } else {
        ok := false;
      }
    }

    /** The destructor, behind the last handle. */
    method Destroy()
      requires Resting()
      modifies this
      ensures mState == Closed && mWorkQueue.None? && !mAlive && Resting()
      ensures old(mWorkQueue).None? ==> View() == old(View())
    {
      var ok, es := Close();
      mAlive := false;
    }

    method AwaitClosed() returns (ghost es: seq<Event>)
      requires Inv(View()) && mCall == InClose
      modifies this
      ensures ProtonOnly(es) && IsRun(old(View()), es) && Enabled(Exec(old(View()), es), CloseReturn)
      ensures View() == Step(Exec(old(View()), es), CloseReturn)
      ensures Resting() && mState == Closed && mWorkQueue.None? && mAlive == old(mAlive)
    {
      hide Inv, Step;
      es := [];
      ghost var d := View();
      var deliveries: nat := *;
      while mState != Closed
        invariant Inv(View()) && mCall == InClose && mAlive == old(mAlive)
        invariant ProtonOnly(es) && IsRun(d, es) && Exec(d, es) == View()
        decreases Weight(View()), deliveries
      {
        var deliver: bool := *;
        ClosingIsBusy(View());
        ghost var before := View();
        ghost var e := ProtonStep(deliver && deliveries > 0);
        if deliver && deliveries > 0 { deliveries := deliveries - 1; }
        KeepsCall(before, e);
        RunSnoc(d, es, e);
        es := es + [e];
      }
      InvStep(View(), CloseReturn);
      ClosedIsDetached(View());
      ReturnStep(View(), CloseReturn);
      mCall := Idle;
    }

    // ---------------------------------------------------------------- proton's thread

    /** One step of the proton thread, chosen freely among those that are enabled. */
    method ProtonStep(deliver: bool) returns (ghost e: Event)
      requires Inv(View()) && Busy(View()) && mWorkQueue.Some?
      modifies this
      ensures FromProton(e) && Enabled(old(View()), e) && View() == Step(old(View()), e)
      ensures Inv(View()) && mAlive == old(mAlive)
      ensures if e == Deliver then deliver
          && Weight(View()) <= Weight(old(View())) else Weight(View()) < Weight(old(View()))
    {
      hide Inv;
      var drainFirst: bool := *;
      var work := mWorkQueue.value;
      ghost var before := View();
      if mLink == Opening {
        e := OnOpen;
        OnReceiverOpen();
      } else if mLink == Closing {
        e := OnClose;
        ClosingHasNoWork(before);
        OnReceiverClose();
      } else if mLink == Active && deliver && mCredit > 0 {
        e := Deliver;
        OnMessage();
      } else if mLink == Active && mDraining && (drainFirst || work == [] || work[0] == Drain) {
        if mCredit > 0 {
          e := Forfeit;
          mCredit := 0;
        } else {
          e := OnDrainFinish;
          OnReceiverDrainFinish();
        }
      } else {
        e := RunWork;
        RunQueued();
      }
      InvStep(before, e);
    }

    /** Proton serves this consumer for any number of steps while the application waits elsewhere. */
    method ProtonRun() returns (ghost es: seq<Event>)
      requires Resting()
      modifies this
      ensures ProtonOnly(es) && IsRun(old(View()), es) && View() == Exec(old(View()), es)
      ensures Resting() && mAlive == old(mAlive)
    {
      hide Inv, Step;
      es := [];
      ghost var c := View();
      var steps: nat := *;
      while steps > 0 && mWorkQueue.Some?
        invariant Resting() && mAlive == old(mAlive)
        invariant ProtonOnly(es) && IsRun(c, es) && Exec(c, es) == View()
        decreases steps
      {
        var deliver: bool := *;
        ghost var before := View();
        ghost var e: Event;
        if deliver && mLink == Active && mCredit > 0 {
          e := Deliver;
          OnMessage();
          InvStep(before, e);
        } else if Busy(View()) {
          e := ProtonStep(deliver);
        } else {
          break;
        }
        KeepsCall(before, e);
        RunSnoc(c, es, e);
        es := es + [e];
        steps := steps - 1;
      }
    }

    method RunQueued()
      requires Enabled(View(), RunWork) && mWorkQueue.Some?
      modifies this
      ensures View() == Step(old(View()), RunWork) && mAlive == old(mAlive)
    {
      var work := mWorkQueue.value[0];
      mWorkQueue := Some(mWorkQueue.value[1..]);
      match work {
        case OpenReceiver => if mLink == Unopened { mLink := Opening; }
        case AddCredit =>
          if mLink == Active {
            if mDraining { mHeld := mHeld + CREDIT_PER_START; } else { mCredit := mCredit + CREDIT_PER_START; }
          }
        case Drain => if mLink == Active { mDraining := true; }
        case CloseReceiver => if mLink == Active { mLink := Closing; }
      }
    }

    method OnReceiverOpen()
      requires Enabled(View(), OnOpen) && mWorkQueue.Some?
      modifies this
      ensures View() == Step(old(View()), OnOpen) && mAlive == old(mAlive)
    {
      mLink := Active;
      mState := if mState == Uninitialized then Stopped else Started;
    }

    method OnReceiverClose()
      requires Enabled(View(), OnClose) && View().work == []
      modifies this
      ensures View() == Step(old(View()), OnClose) && mAlive == old(mAlive)
    {
      mLink := Ended;
      mWorkQueue := None;
      mState := Closed;
    }

    method OnReceiverDrainFinish()
      requires Enabled(View(), OnDrainFinish)
      modifies this
      ensures View() == Step(old(View()), OnDrainFinish) && mAlive == old(mAlive)
    {
      mDraining, mCredit, mHeld := false, mHeld, 0;
      mState := Stopped;
    }

    /** Proton has used one credit for this message. */
    method OnMessage()
      requires Enabled(View(), Deliver)
      modifies this
      ensures View() == Step(old(View()), Deliver) && mAlive == old(mAlive)
    {
      mCredit := mCredit - 1;
      if !mDraining {
        mCredit := mCredit + 1;
      }
      mDelivered := mDelivered + 1;
    }
  }
}
