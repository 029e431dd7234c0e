/** The send permit and the work queue of one producer, as a transition system.

    Any number of application threads may call `send`; each call is one step, enabled once its wait on
    the permit is over.  `M` is the type of the messages handed to proton. */
module SenderProtocol {
  import opened Prelude
  import opened ClientStates

  /** One accepted send: the converted message, and the callback to fire after it. */
  datatype Parcel<M> = Parcel(message: M, onComplete: Option<nat>)

  datatype Work<M> = OpenSender | SendParcel(parcel: Parcel<M>) | CloseSender

  datatype Link = Unopened | Opening | Active | Closing | Ended

  datatype Call = Idle | InOpen | InClose

  /** What proton's sender and the application's callbacks have seen, in order. */
  datatype Entry<M> = Handed(message: M) | Completed(callback: nat)

  /** `attached` says that the work queue pointer is not null.  `accepted` remembers the sends that
      went through the permit; `sent` and `log` are what the proton thread has done with them. */
  datatype Producer<M> = Producer(
    state: ClientState, attached: bool, work: seq<Work<M>>, call: Call, link: Link, canSend: bool,
    accepted: seq<Parcel<M>>, sent: seq<Parcel<M>>, log: seq<Entry<M>>)

  function Fresh<M>(): Producer<M> {
    Producer(Uninitialized, true, [OpenSender], InOpen, Unopened, false, [], [], [])
  }

  datatype Event<M> =
    // the application
    | OpenReturn | Send(parcel: Parcel<M>) | CloseEnter | CloseReturn
    // proton
    | RunWork | OnOpen | OnSendable | OnClose

  predicate Enabled<M>(p: Producer<M>, e: Event<M>) {
    match e
    case OpenReturn => p.call == InOpen && p.state != Uninitialized
    case Send(_) => p.call != InOpen && (p.attached ==> p.canSend)
    case CloseEnter => p.call == Idle
    case CloseReturn => p.call == InClose && p.state == Closed
    case RunWork => p.work != [] && (p.work[0].SendParcel? ==> p.link == Active)
    case OnOpen => p.link == Opening
    case OnSendable => p.link == Active
    case OnClose => p.link == Closing
  }

  predicate Throws<M>(p: Producer<M>, e: Event<M>) {
    !p.attached && (e.Send? || (e.CloseEnter? && p.state != Closed))
  }

  function Step<M>(p: Producer<M>, e: Event<M>): Producer<M>
    requires Enabled(p, e)
  {
    match e
    case OpenReturn => p.(call := Idle)
    case Send(parcel) =>
      if p.attached then
        p.(canSend := false, work := p.work + [SendParcel(parcel)], accepted := p.accepted + [parcel])
      else p
    case CloseEnter =>
      if p.state == Closed || !p.attached then p else p.(work := p.work + [CloseSender], call := InClose)
    case CloseReturn => p.(call := Idle)
    case RunWork => Run(p)
    case OnOpen =>
      p.(link := Active, attached := true, state := if p.state == Uninitialized then Stopped else Started)
    case OnSendable => p.(canSend := true)
    case OnClose => p.(link := Ended, attached := false, state := Closed)
  }

  /** Proton runs the oldest closure: a send hands the message over and then fires its callback. */
  function Run<M>(p: Producer<M>): Producer<M>
    requires p.work != []
  {
    var rest := p.(work := p.work[1..]);
    match p.work[0]
    case OpenSender => if p.link == Unopened then rest.(link := Opening) else rest
    case SendParcel(parcel) => rest.(sent := p.sent + [parcel], log := p.log + Entries(parcel))
    case CloseSender => if p.link == Active then rest.(link := Closing) else rest
  }

  function Entries<M>(parcel: Parcel<M>): seq<Entry<M>> {
    [Handed(parcel.message)] + (if parcel.onComplete.Some? then [Completed(parcel.onComplete.value)] else [])
  }

  predicate IsRun<M>(p: Producer<M>, es: seq<Event<M>>)
    decreases |es|
  {
    es == [] || (Enabled(p, es[0]) && IsRun(Step(p, es[0]), es[1..]))
  }

  function Exec<M>(p: Producer<M>, es: seq<Event<M>>): Producer<M>
    requires IsRun(p, es)
    decreases |es|
  {
    if es == [] then p else Exec(Step(p, es[0]), es[1..])
  }

  lemma {:induction false} RunConcat<M>(p: Producer<M>, es: seq<Event<M>>, fs: seq<Event<M>>)
    requires IsRun(p, es) && IsRun(Exec(p, es), fs)
    ensures IsRun(p, es + fs) && Exec(p, es + fs) == Exec(Exec(p, es), fs)
    decreases |es|
  {
    if es == [] {
      assert es + fs == fs;
    } else {
      assert (es + fs)[0] == es[0] && (es + fs)[1..] == es[1..] + fs;
      RunConcat(Step(p, es[0]), es[1..], fs);
    }
  }

  lemma RunSnoc<M>(p: Producer<M>, es: seq<Event<M>>, e: Event<M>)
    requires IsRun(p, es) && Enabled(Exec(p, es), e)
    ensures IsRun(p, es + [e]) && Exec(p, es + [e]) == Step(Exec(p, es), e)
  {
    var q := Exec(p, es);
    assert IsRun(q, [e]) && Exec(q, [e]) == Step(q, e) by {
      assert [e][1..] == [];
      assert IsRun(Step(q, e), []);
    }
    RunConcat(p, es, [e]);
  }

  // ---------------------------------------------------------------- exactly once, in order

  /** The messages still queued, oldest first. */
  function Queued<M>(work: seq<Work<M>>): seq<Parcel<M>> {
    if work == [] then [] else (if work[0].SendParcel? then [work[0].parcel] else []) + Queued(work[1..])
  }

  lemma {:induction false} QueuedConcat<M>(v: seq<Work<M>>, w: seq<Work<M>>)
    ensures Queued(v + w) == Queued(v) + Queued(w)
  {
    if v == [] {
      assert v + w == w;
    } else {
      assert (v + w)[0] == v[0] && (v + w)[1..] == v[1..] + w;
      QueuedConcat(v[1..], w);
    }
  }

  /** The log that a list of sends must leave: each message, then its callback, once each. */
  function LogOf<M>(parcels: seq<Parcel<M>>): seq<Entry<M>> {
    if parcels == [] then [] else LogOf(parcels[..|parcels| - 1]) + Entries(parcels[|parcels| - 1])
  }

  /** Every accepted send is in exactly one place, and in acceptance order. */
  ghost predicate Ordered<M>(p: Producer<M>) {
    p.sent + Queued(p.work) == p.accepted && p.log == LogOf(p.sent)
  }

  lemma QueuedSnoc<M>(work: seq<Work<M>>, w: Work<M>)
    ensures Queued(work + [w]) == Queued(work) + (if w.SendParcel? then [w.parcel] else [])
  {
    assert [w][1..] == [] && Queued([w][1..]) == [];
    QueuedConcat(work, [w]);
  }

  lemma OrderedStep<M>(p: Producer<M>, e: Event<M>)
    requires Ordered(p) && Enabled(p, e)
    ensures Ordered(Step(p, e))
  {
    match e {
      case Send(parcel) => QueuedSnoc(p.work, SendParcel(parcel));
      case CloseEnter => QueuedSnoc(p.work, CloseSender);
      case RunWork => OrderedRun(p);
      case _ =>
    }
  }

  lemma LogOfSnoc<M>(parcels: seq<Parcel<M>>, parcel: Parcel<M>)
    ensures LogOf(parcels + [parcel]) == LogOf(parcels) + Entries(parcel)
  {
    assert (parcels + [parcel])[..|parcels|] == parcels;
  }

  lemma Reassociate<T>(s: seq<T>, x: T, t: seq<T>)
    ensures s + ([x] + t) == (s + [x]) + t
  {}

  lemma OrderedRun<M>(p: Producer<M>)
    requires Ordered(p) && p.work != []
    ensures Ordered(Run(p))
  {
    var rest := Queued(p.work[1..]);
    if p.work[0].SendParcel? {
      var parcel := p.work[0].parcel;
      assert Queued(p.work) == [parcel] + rest;
      LogOfSnoc(p.sent, parcel);
      Reassociate(p.sent, parcel, rest);
    } else {
      assert Queued(p.work) == rest;
    }
  }

  /** Exactly once, first in first out: in every reachable state the messages handed to the sender
      followed by those still queued are the accepted sends in acceptance order, and the log shows
      each message once, directly followed by its own callback. */
  lemma {:induction false} ExactlyOnceInOrder<M>(p: Producer<M>, es: seq<Event<M>>)
    requires Ordered(p) && IsRun(p, es)
    ensures Ordered(Exec(p, es))
    decreases |es|
  {
    if es != [] {
      OrderedStep(p, es[0]);
      ExactlyOnceInOrder(Step(p, es[0]), es[1..]);
    }
  }

  /** How many of the sends ask to be told. */
  function Callbacks<M>(parcels: seq<Parcel<M>>): nat {
    if parcels == [] then 0
    else Callbacks(parcels[..|parcels| - 1]) + if parcels[|parcels| - 1].onComplete.Some? then 1 else 0
  }

  /** The log entry by entry: send `j` stands behind the messages and callbacks of the sends before it, first
      its message and then, if it has one, its callback; and there is nothing else in the log. */
  lemma {:induction false} LogShowsEachSend<M>(parcels: seq<Parcel<M>>, j: nat)
    requires j < |parcels|
    ensures |LogOf(parcels)| == |parcels| + Callbacks(parcels)
    ensures var at := j + Callbacks(parcels[..j]);
            && at < |LogOf(parcels)| && LogOf(parcels)[at] == Handed(parcels[j].message)
            && (parcels[j].onComplete.Some? ==>
                  at + 1 < |LogOf(parcels)| && LogOf(parcels)[at + 1] == Completed(parcels[j].onComplete.value))
    decreases |parcels|
  {
    var n := |parcels| - 1;
    LogLength(parcels[..n]);
    if j < n {
      LogShowsEachSend(parcels[..n], j);
      assert parcels[..n][..j] == parcels[..j];
    }
  }

  lemma {:induction false} LogLength<M>(parcels: seq<Parcel<M>>)
    ensures |LogOf(parcels)| == |parcels| + Callbacks(parcels)
    decreases |parcels|
  {
    if parcels != [] { LogLength(parcels[..|parcels| - 1]); }
  }

  lemma FreshIsOrdered<M>()
    ensures Ordered(Fresh<M>())
  {
    var p := Fresh<M>();
    assert p.work[1..] == [] && Queued(p.work) == [];
  }

  /** Nothing is ever taken back: what has been sent or accepted stays a prefix of what will be. */
  lemma {:induction false} HistoryGrows<M>(p: Producer<M>, es: seq<Event<M>>)
    requires IsRun(p, es)
    ensures p.accepted <= Exec(p, es).accepted && p.sent <= Exec(p, es).sent && p.log <= Exec(p, es).log
    decreases |es|
  {
    if es != [] { HistoryGrows(Step(p, es[0]), es[1..]); }
  }

  // ---------------------------------------------------------------- permits

  function CountSendable<M>(es: seq<Event<M>>): nat {
    if es == [] then 0 else (if es[0].OnSendable? then 1 else 0) + CountSendable(es[1..])
  }

  function Permit<M>(p: Producer<M>): nat {
    if p.canSend then 1 else 0
  }

  /** Every accepted send consumed a permit of its own: over any stretch of any run, the sends accepted
      in it are at most the `on_sendable` callbacks in it plus a permit left over from before.  Two
      accepted sends therefore always have a callback between them. */
  lemma {:induction false} EachSendHasItsPermit<M>(p: Producer<M>, es: seq<Event<M>>)
    requires IsRun(p, es)
    ensures |Exec(p, es).accepted| + Permit(Exec(p, es)) <= |p.accepted| + Permit(p) + CountSendable(es)
    decreases |es|
  {
    if es != [] { EachSendHasItsPermit(Step(p, es[0]), es[1..]); }
  }

  // ---------------------------------------------------------------- close

  /** The lifecycle part of the invariant. */
  ghost predicate Inv<M>(p: Producer<M>) {
    && (p.call == InOpen ==>
          && p.attached && p.accepted == []
          && (p.link == Unopened ==> p.work == [OpenSender] && p.state == Uninitialized)
          && (p.link == Opening ==> p.work == [] && p.state == Uninitialized)
          && (p.link == Active ==> p.work == [] && p.state == Stopped)
          && (p.link == Unopened || p.link == Opening || p.link == Active))
    && (p.call != InOpen ==> OpenSender !in p.work)
    && (p.call == Idle && p.attached ==> p.link == Active && CloseSender !in p.work && p.state == Stopped)
    && (p.call == InClose && p.attached && p.link == Active ==> CloseSender in p.work && p.state == Stopped)
    && (p.call == InClose && p.attached && p.link != Active ==> p.link == Closing && p.state == Stopped)
    && (!p.attached ==> p.link == Ended && p.state == Closed && p.call != InOpen)
  }

  lemma InvStep<M>(p: Producer<M>, e: Event<M>)
    requires Inv(p) && Enabled(p, e)
    ensures Inv(Step(p, e))
  {
    var q := Step(p, e);
    match e {
      case CloseEnter =>
        assert q.call == InClose && p.call == Idle ==> q.work[|p.work|] == CloseSender;
      case RunWork =>
        assert p.work == [p.work[0]] + q.work;
      case _ =>
    }
  }

  lemma {:induction false} InvRun<M>(p: Producer<M>, es: seq<Event<M>>)
    requires Inv(p) && IsRun(p, es)
    ensures Inv(Exec(p, es))
    decreases |es|
  {
    if es != [] {
      InvStep(p, es[0]);
      InvRun(Step(p, es[0]), es[1..]);
    }
  }

  /** A close request stands behind exactly the sends in `before`, or has already been run after them. */
  ghost predicate CloseBehind<M>(p: Producer<M>, before: seq<Parcel<M>>) {
    if p.link == Active then
      exists k :: 0 <= k < |p.work| && p.work[k] == CloseSender && CloseSender !in p.work[..k]
        && p.sent + Queued(p.work[..k]) == before
    else
      (p.link == Closing || p.link == Ended) && p.sent == before
  }

  lemma CloseBehindStep<M>(p: Producer<M>, e: Event<M>, before: seq<Parcel<M>>)
    requires CloseBehind(p, before) && Enabled(p, e)
    ensures CloseBehind(Step(p, e), before)
  {
    if p.link == Active {
      var k :| 0 <= k < |p.work| && p.work[k] == CloseSender && CloseSender !in p.work[..k]
        && p.sent + Queued(p.work[..k]) == before;
      if e == RunWork {
        CloseBehindRunWork(p, k, before);
      } else {
        var q := Step(p, e);
        assert q.work[..k] == p.work[..k] && q.work[k] == CloseSender;
      }
    }
  }

  lemma CloseBehindRunWork<M>(p: Producer<M>, k: nat, before: seq<Parcel<M>>)
    requires p.link == Active && k < |p.work| && p.work[k] == CloseSender && CloseSender !in p.work[..k]
    requires p.sent + Queued(p.work[..k]) == before
    ensures CloseBehind(Run(p), before)
  {
    var q := Run(p);
    if k == 0 {
      assert Queued(p.work[..0]) == [];
    } else {
      var w := p.work[0];
      assert p.work[..k] == [w] + q.work[..k - 1] && w in p.work[..k];
      assert q.link == Active && q.work[k - 1] == CloseSender;
      var rest := Queued(q.work[..k - 1]);
      assert ([w] + q.work[..k - 1])[1..] == q.work[..k - 1];
      if w.SendParcel? {
        assert Queued(p.work[..k]) == [w.parcel] + rest;
        Reassociate(p.sent, w.parcel, rest);
      }
    }
  }

  lemma {:induction false} CloseBehindRun<M>(p: Producer<M>, es: seq<Event<M>>, before: seq<Parcel<M>>)
    requires CloseBehind(p, before) && IsRun(p, es)
    ensures CloseBehind(Exec(p, es), before)
    decreases |es|
  {
    if es != [] {
      CloseBehindStep(p, es[0], before);
      CloseBehindRun(Step(p, es[0]), es[1..], before);
    }
  }

  /** A close never overtakes an accepted message: whatever happens after the call, by the time the
      link is closing or closed the sender has been handed exactly the sends accepted before it. */
  lemma CloseNeverOvertakes<M>(p: Producer<M>, es: seq<Event<M>>)
    requires Inv(p) && Ordered(p) && p.call == Idle && p.attached && IsRun(Step(p, CloseEnter), es)
    ensures var q := Exec(Step(p, CloseEnter), es);
            q.link == Closing || q.link == Ended ==> q.sent == p.accepted
    ensures Exec(Step(p, CloseEnter), es).state == Closed ==> Exec(Step(p, CloseEnter), es).sent == p.accepted
  {
    var d := Step(p, CloseEnter);
    var k := |p.work|;
    assert d.work[k] == CloseSender && d.work[..k] == p.work;
    CloseBehindRun(d, es, p.accepted);
    InvStep(p, CloseEnter);
    InvRun(d, es);
  }

  /** While a close waits, proton can always take a step towards its callback. */
  lemma CloseMakesProgress<M>(p: Producer<M>)
    requires Inv(p) && p.call == InClose && p.state != Closed
    ensures Enabled(p, RunWork) || Enabled(p, OnClose)
  {}

  /** After the close callback the pointer stays null, nothing more is queued, accepted or sent, and
      every further send throws. */
  lemma {:induction false} ClosedIsAbsorbing<M>(p: Producer<M>, es: seq<Event<M>>, next: Parcel<M>)
    requires Inv(p) && !p.attached && IsRun(p, es)
    ensures var q := Exec(p, es);
            && !q.attached && q.state == Closed && |q.work| <= |p.work| && q.accepted == p.accepted && q.sent == p.sent
            && Throws(q, Send(next)) && !Throws(q, CloseEnter)
    decreases |es|
  {
    if es != [] {
      InvStep(p, es[0]);
      ClosedIsAbsorbing(Step(p, es[0]), es[1..], next);
    }
  }
}
