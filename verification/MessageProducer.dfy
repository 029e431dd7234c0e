/** The producer object.  As with the consumer, every call is a run of the transition system in
    `SenderProtocol`; the messages on its queue are objects, so the contracts also say who shares them. */
module MessageProducers {
  import opened Prelude
  import opened ClientStates
  import opened Messages
  import opened SenderProtocol

  type Event = SenderProtocol.Event<ProtonMessage>

  predicate FromProton(e: Event) {
    e.RunWork? || e.OnOpen? || e.OnSendable? || e.OnClose?
  }

  predicate ProtonOnly(es: seq<Event>) {
    forall k :: 0 <= k < |es| ==> FromProton(es[k])
  }

  /** What proton still has to do before an open or a close is answered. */
  function Weight(p: Producer<ProtonMessage>): nat {
    2 * |p.work| + (if p.link == Opening || p.link == Closing then 1 else 0)
  }

  predicate Busy(p: Producer<ProtonMessage>) {
    p.link == Opening || p.link == Closing || Enabled(p, RunWork)
  }

  lemma OpeningIsBusy(p: Producer<ProtonMessage>)
    requires Inv(p) && p.call == InOpen && p.state == Uninitialized
    ensures Busy(p)
  {}

  lemma ClosingIsBusy(p: Producer<ProtonMessage>)
    requires Inv(p) && p.call == InClose && p.state != Closed
    ensures Busy(p) && p.attached
  {}

  lemma KeepsCall(p: Producer<ProtonMessage>, e: Event)
    requires FromProton(e) && Enabled(p, e)
    ensures Step(p, e).call == p.call
    ensures e != OnClose ==> Step(p, e).attached || !p.attached
  {}

  lemma IdleIsActive(p: Producer<ProtonMessage>)
    requires Inv(p) && p.call == Idle && p.attached
    ensures p.link == Active && p.state == Stopped
  {}

  /** Between calls proton only sends what is queued and grants permits. */
  lemma IdleStays(p: Producer<ProtonMessage>, e: Event)
    requires Inv(p) && p.call == Idle && p.attached && (e == RunWork || e == SenderProtocol.OnSendable) && Enabled(p, e)
    ensures Step(p, e).state == p.state && Step(p, e).attached && Step(p, e).accepted == p.accepted
  {}

  class MessageProducer {
    // the producer's context
    var mState: ClientState
    var mAttached: bool
    // proton's queue and sender
    var mWork: seq<Work<ProtonMessage>>
    var mLink: Link
    var mCanSend: bool
    var mCall: Call
    ghost var mAccepted: seq<Parcel<ProtonMessage>>
    ghost var mSent: seq<Parcel<ProtonMessage>>
    ghost var mLog: seq<Entry<ProtonMessage>>
    // some client handle still owns the producer
    var mAlive: bool

    ghost function View(): Producer<ProtonMessage>
      reads this
    {
      Producer(mState, mAttached, mWork, mCall, mLink, mCanSend, mAccepted, mSent, mLog)
    }

    ghost predicate Resting()
      reads this
    {
      Inv(View()) && Ordered(View()) && mCall == Idle
    }

    /** The constructor, for a session whose work queue is not null: request the link and wait. */
    constructor ()
      ensures Resting() && mAlive && mState == Stopped && mAttached && mAccepted == []
    {
      mState, mAttached, mWork, mCall := Uninitialized, true, [OpenSender], InOpen;
      mLink, mCanSend, mAlive := Unopened, false, true;
      mAccepted, mSent, mLog := [], [], [];
      new;
      FreshIsOrdered<ProtonMessage>();
      while mState == Uninitialized
        invariant Inv(View()) && Ordered(View()) && mCall == InOpen && mAlive && mAccepted == []
        decreases Weight(View())
      {
        OpeningIsBusy(View());
        ghost var before := View();
        ghost var e := ProtonStep();
        KeepsCall(before, e);
      }
      InvStep(View(), OpenReturn);
      mCall := Idle;
    }

    /** The message is cloned and converted before the queue pointer is looked at; then the call waits
        for the permit, takes it, and queues the closure. */
    method Send(m: AnyMessage, stamp: Stamp, onComplete: Option<nat>) returns (ok: bool, ghost es: seq<Event>,
        message: ProtonMessage)
      requires Resting() && StampOk(stamp)
      modifies this, SharedWith(m)
      ensures !m.Plain? ==> fresh(message)
      ensures m.Plain? ==> message == ProtonOf(m)
      ensures message.data == Stamped(old(Sendable(m)), stamp)
      ensures CarriesStamp(old(Sendable(m)), stamp, message.data)
      ensures ok == old(mAttached)
      ensures !ok ==> View() == old(View()) && mAccepted == old(mAccepted)
      ensures ok ==>
                && ProtonOnly(es) && IsRun(old(View()), es)
                && Enabled(Exec(old(View()), es), SenderProtocol.Send(Parcel(message, onComplete)))
                && View() == Step(Exec(old(View()), es), SenderProtocol.Send(Parcel(message, onComplete)))
                && mAccepted == old(mAccepted) + [Parcel(message, onComplete)]
      ensures Resting() && mAlive == old(mAlive)
    {
      hide CarriesStamp;
      message := Prepare(m, stamp);
      ok, es := mAttached, [];
      if mAttached {
        es := AwaitPermit();
        ghost var send := SenderProtocol.Send(Parcel(message, onComplete));
        InvStep(View(), send);
        OrderedStep(View(), send);
        mCanSend := false;
        mWork := mWork + [SendParcel(Parcel(message, onComplete))];
        mAccepted := mAccepted + [Parcel(message, onComplete)];
      }
    }

    /** The wait on the permit, for a sender that proton makes sendable in the end. */
    method AwaitPermit() returns (ghost es: seq<Event>)
      requires Resting() && mAttached
      modifies this
      ensures ProtonOnly(es) && IsRun(old(View()), es) && Exec(old(View()), es) == View()
      ensures Resting() && mAttached && mCanSend && mAccepted == old(mAccepted) && mAlive == old(mAlive)
    {
      hide Inv, Ordered;
      es := [];
      ghost var d := View();
      while !mCanSend
        invariant Resting() && mAttached && mAccepted == old(mAccepted) && mAlive == old(mAlive)
        invariant ProtonOnly(es) && IsRun(d, es) && Exec(d, es) == View()
        decreases !mCanSend, |mWork|
      {
        var sendFirst: bool := *;
        ghost var before := View();
        ghost var e: Event;
        IdleIsActive(before);
        if mWork != [] && !sendFirst {
          e := RunWork;
          RunQueued();
        } else {
          e := SenderProtocol.OnSendable;
          OnSendable();
        }
        InvStep(before, e);
        OrderedStep(before, e);
        KeepsCall(before, e);
        RunSnoc(d, es, e);
        es := es + [e];
      }
    }

    /** Closing always succeeds, and only after everything accepted has been handed over. */
    method Close() returns (ok: bool, ghost es: seq<Event>)
      requires Resting()
      modifies this
      ensures ok && mState == Closed && !mAttached && mAccepted == old(mAccepted)
      ensures old(mAttached) ==>
                && ProtonOnly(es) && IsRun(Step(old(View()), CloseEnter), es)
                && Enabled(Exec(Step(old(View()), CloseEnter), es), CloseReturn)
                && View() == Step(Exec(Step(old(View()), CloseEnter), es), CloseReturn)
                && mSent == mAccepted
      ensures !old(mAttached) ==> View() == old(View())
      ensures Resting() && mAlive == old(mAlive)
    {
      ok, es := true, [];
      if mState == Closed { return; }
      if mAttached {
        ghost var p := View();
        InvStep(p, CloseEnter);
        OrderedStep(p, CloseEnter);
        mWork := mWork + [CloseSender];
        mCall := InClose;
        es := AwaitClosed();
        CloseNeverOvertakes(p, es);
        HistoryGrows(Step(p, CloseEnter), es);
      } else {
        ok := false;
      }
    }

    /** The destructor, behind the last handle. */
    method Destroy()
      requires Resting()
      modifies this
      ensures mState == Closed && !mAttached && !mAlive && Resting()
      ensures mAccepted == old(mAccepted) && (old(mAttached) ==> mSent == mAccepted)
    {
      var ok, es := Close();
      mAlive := false;
    }

    method AwaitClosed() returns (ghost es: seq<Event>)
      requires Inv(View()) && Ordered(View()) && mCall == InClose
      modifies this
      ensures ProtonOnly(es) && IsRun(old(View()), es) && Enabled(Exec(old(View()), es), CloseReturn)
      ensures View() == Step(Exec(old(View()), es), CloseReturn)
      ensures Resting() && mState == Closed && !mAttached && mAlive == old(mAlive) && mAccepted == old(mAccepted)
    {
      hide Ordered;
      es := [];
      ghost var d := View();
      while mState != Closed
        invariant Inv(View()) && Ordered(View()) && mCall == InClose && mAlive == old(mAlive)
            && mAccepted == old(mAccepted)
        invariant ProtonOnly(es) && IsRun(d, es) && Exec(d, es) == View()
        decreases Weight(View())
      {
        ClosingIsBusy(View());
        ghost var before := View();
        ghost var e := ProtonStep();
        KeepsCall(before, e);
        RunSnoc(d, es, e);
        es := es + [e];
      }
      ghost var before := View();
      InvStep(before, CloseReturn);
      OrderedStep(before, CloseReturn);
      mCall := Idle;
    }

    // ---------------------------------------------------------------- proton's thread

    method ProtonStep() returns (ghost e: Event)
      requires Inv(View()) && Ordered(View()) && Busy(View())
      modifies this
      ensures FromProton(e) && Enabled(old(View()), e) && View() == Step(old(View()), e)
      ensures Inv(View()) && Ordered(View()) && mAlive == old(mAlive) && mAccepted == old(mAccepted)
      ensures Weight(View()) < Weight(old(View()))
    {
      hide Inv, Ordered;
      ghost var before := View();
      if mLink == Opening {
        e := OnOpen;
        OnSenderOpen();
      } else if mLink == Closing {
        e := OnClose;
        OnSenderClose();
      } else {
        e := RunWork;
        RunQueued();
      }
      InvStep(before, e);
      OrderedStep(before, e);
    }

    /** Proton serves this producer for any number of steps while the application waits elsewhere. */
    method ProtonRun() returns (ghost es: seq<Event>)
      requires Resting()
      modifies this
      ensures ProtonOnly(es) && IsRun(old(View()), es) && View() == Exec(old(View()), es)
      ensures Resting() && mAlive == old(mAlive) && mState == old(mState) && mAttached == old(mAttached)
      ensures mAccepted == old(mAccepted)
    {
      hide Inv, Ordered;
      es := [];
      ghost var p := View();
      var steps: nat := *;
      while steps > 0 && mAttached
        invariant Resting() && mAlive == old(mAlive) && mState == old(mState) && mAttached == old(mAttached)
        invariant mAccepted == old(mAccepted)
        invariant ProtonOnly(es) && IsRun(p, es) && Exec(p, es) == View()
        decreases steps
      {
        var sendable: bool := *;
        ghost var before := View();
        ghost var e: Event;
        IdleIsActive(before);
        if mWork != [] && !sendable {
          e := RunWork;
          RunQueued();
        } else {
          e := SenderProtocol.OnSendable;
          OnSendable();
        }
        IdleStays(before, e);
        InvStep(before, e);
        OrderedStep(before, e);
        KeepsCall(before, e);
        RunSnoc(p, es, e);
        es := es + [e];
        steps := steps - 1;
      }
    }

    method RunQueued()
      requires Enabled(View(), RunWork)
      modifies this
      ensures View() == Step(old(View()), RunWork) && mAlive == old(mAlive)
    {
      var work := mWork[0];
      mWork := mWork[1..];
      match work {
        case OpenSender => if mLink == Unopened { mLink := Opening; }
        case SendParcel(parcel) =>
          mSent := mSent + [parcel];
          mLog := mLog + Entries(parcel);
        case CloseSender => if mLink == Active { mLink := Closing; }
      }
    }

    method OnSendable()
      requires Enabled(View(), SenderProtocol.OnSendable)
      modifies this
      ensures View() == Step(old(View()), SenderProtocol.OnSendable) && mAlive == old(mAlive)
    {
      mCanSend := true;
    }

    method OnSenderOpen()
      requires Enabled(View(), OnOpen)
      modifies this
      ensures View() == Step(old(View()), OnOpen) && mAlive == old(mAlive)
    {
      mLink, mAttached := Active, true;
      mState := if mState == Uninitialized then Stopped else Started;
    }

    method OnSenderClose()
      requires Enabled(View(), OnClose)
      modifies this
      ensures View() == Step(old(View()), OnClose) && mAlive == old(mAlive)
    {
      mLink, mAttached := Ended, false;
      mState := Closed;
    }
  }
}
