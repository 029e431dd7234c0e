/** The session object: its calls fan out over the consumers and producers that are still alive, and do to
    the tree what `LifecycleTree` says. */
module Sessions {
  import opened Prelude
  import opened ClientStates
  import opened LifecycleTree
  import opened ConsumerLoop
  import opened Meanwhile
  import opened MessageConsumers
  import opened MessageProducers
  import R = ReceiverProtocol
  import StopSafety

  /** The closures a session puts on its queue. */
  datatype Work = OpenSession | CloseSession

  ghost function Seen(cs: seq<MessageConsumer>): (hs: seq<Held>)
    reads cs
    ensures |hs| == |cs| && forall k :: 0 <= k < |cs| ==> hs[k] == Held(cs[k].mAlive, cs[k].View())
  {
    if cs == [] then [] else Seen(cs[..|cs| - 1]) + [Held(cs[|cs| - 1].mAlive, cs[|cs| - 1].View())]
  }

  ghost function ProducerLeaf(p: MessageProducer): Leaf
    reads p
  {
    Leaf(p.mAlive, p.mState, p.mAttached)
  }

  ghost function ProducerLeaves(ps: seq<MessageProducer>): (ls: seq<Leaf>)
    reads ps
    ensures |ls| == |ps| && forall k :: 0 <= k < |ps| ==> ls[k] == ProducerLeaf(ps[k])
  {
    if ps == [] then [] else ProducerLeaves(ps[..|ps| - 1]) + [ProducerLeaf(ps[|ps| - 1])]
  }

  ghost predicate ProducersRest(ps: seq<MessageProducer>)
    reads ps
  {
    forall k :: 0 <= k < |ps| ==> ps[k].Resting()
  }

  ghost predicate Distinct<T>(s: seq<T>) {
    forall i, j :: 0 <= i < j < |s| ==> s[i] != s[j]
  }

  lemma RestMeans(c: MessageConsumer)
    ensures c.Resting() <==> Rest(Held(c.mAlive, c.View()))
  {}

  lemma StartOfDetached(c: R.Consumer)
    requires c.call == R.Idle && !c.attached
    ensures R.Step(c, R.Start) == c
  {}

  /** One call on a consumer that the loop has locked. */
  method Turn(a: Action, consumer: MessageConsumer) returns (ok: bool)
    requires consumer.Resting()
    modifies consumer
    ensures consumer.Resting() && consumer.mAlive == old(consumer.mAlive)
    ensures ok == !CallThrows(a, old(consumer.View()))
    ensures if ok then Called(a, old(consumer.View()), consumer.View()) else consumer.View() == old(consumer.View())
  {
    hide R.Inv, R.Step, StopSafety.StopGuard, StopSafety.Quiet;
    match a {
      case Start =>
        if consumer.mWorkQueue.None? { StartOfDetached(consumer.View()); }
        ok := consumer.Start();
      case Stop => ghost var es; ok, es := consumer.Stop();
      case Close => ghost var es; ok, es := consumer.Close();
    }
  }

  lemma OpenBranch(b: Branch)
    requires BranchOk(b)
    ensures b.attached ==> Open(b.state)
    ensures forall k :: 0 <= k < |b.producers| ==> LeafOk(b.producers[k])
  {}

  lemma BranchDestroyed(s: nat, b: Branch)
    requires BranchOk(b)
    ensures !CallBranch(Close, s, b).node.attached && BranchOk(CallBranch(Close, s, b).node.(alive := false))
  {
    hide CallBranch;
    CloseBranch(s, b);
  }

  lemma ProducerJoins(ps: seq<MessageProducer>, p: MessageProducer)
    requires ProducersRest(ps) && p.Resting()
    ensures ProducersRest(ps + [p]) && ProducerLeaves(ps + [p]) == ProducerLeaves(ps) + [ProducerLeaf(p)]
  {
    hide MessageProducer.Resting;
    assert ProducerLeaves(ps + [p]) == ProducerLeaves(ps) + [ProducerLeaf(p)];
  }

  lemma SettledAdded(b: Branch, c: Branch)
    requires SettledBranch(b, c)
    ensures SettledBranch(b.(consumers := b.consumers + [FRESH_LEAF]), c.(consumers := c.consumers + [FRESH_LEAF]))
  {}

  /** What a call on one consumer does to its session: the consumer is as the model says, and, unless the call
      is `start`, the others may have settled. */
  ghost predicate ConsumerCalled(a: Action, s: nat, k: nat, b: Branch, c: Branch, ok: bool) {
    && k < |b.consumers| == |c.consumers|
    && var o := CallLeaf(a, ConsumerOf(s, k), b.consumers[k]);
       && ok == o.ok && c.consumers[k] == o.node
       && SettledBranch(b.(consumers := b.consumers[k := o.node]), c)
       && (a == Start ==> c == b.(consumers := b.consumers[k := o.node]))
  }

  /** One turn of a loop, with the others served meanwhile. */
  ghost predicate TurnTaken(a: Action, hs: seq<Held>, gs: seq<Held>, i: nat, ok: bool) {
    && i < |hs| == |gs|
    && ok == !CallThrows(a, hs[i].consumer)
    && (forall k :: 0 <= k < |hs| && k != i ==> Aside(a, hs[k], gs[k]))
    && (if ok then Turned(a, hs[i], gs[i]) else Aside(a, hs[i], gs[i]))
  }

  lemma TurnTakenNext(a: Action, hs: seq<Held>, ms: seq<Held>, i: nat, gs: seq<Held>, ok: bool)
    requires AllRest(hs) && AllRest(ms) && TurnedTo(a, hs, ms, i) && TurnTaken(a, ms, gs, i, ok) && ms[i].alive
    ensures ok ==> TurnedTo(a, hs, gs, i + 1)
    ensures !ok ==> LoopDone(a, hs, gs, false)
  {
    hide Turned, Aside, Rest, CallThrows;
    if ok {
      TurnNext(a, hs, ms, i, gs);
    } else {
      TurnStays(a, hs, ms, i, gs);
      ThrowerWasClosed(a, hs[i], ms[i]);
    }
  }

  lemma SkippedNext(a: Action, hs: seq<Held>, ms: seq<Held>, i: nat)
    requires AllRest(hs) && AllRest(ms) && TurnedTo(a, hs, ms, i) && i < |hs| && !ms[i].alive
    ensures TurnedTo(a, hs, ms, i + 1)
  {
    hide Aside, Rest;
    forall k | 0 <= k < |ms| ensures Aside(a, ms[k], ms[k]) { AsideNothing(a, ms[k]); }
    TurnNext(a, hs, ms, i, ms);
  }

  /** A call on consumer `k`, with the others served meanwhile. */
  lemma ThroughOne(a: Action, s: nat, k: nat, b: Branch, hs: seq<Held>, gs: seq<Held>, ok: bool)
    requires BranchOk(b) && b.consumers == LeavesOf(hs) && AllRest(hs) && TurnTaken(a, hs, gs, k, ok) && hs[k].alive
    ensures ConsumerCalled(a, s, k, b, b.(consumers := LeavesOf(gs)), ok) && BranchOk(b.(consumers := LeavesOf(gs)))
  {
    hide CallLeaf, Rest, Turned, CallThrows, BranchOk, Aside, LeafOf, OnLeaf;
    LeafCalled(a, s, k, b.consumers[k]);
    AliveLeaf(hs[k]);
    if ok {
      LeafOfTurn(a, s, k, hs[k], gs[k]);
    } else {
      LeafOfThrow(a, s, k, hs[k]);
      ThrowerIsClosed(a, hs[k], gs[k]);
    }
    forall i | 0 <= i < |hs| && i != k
      ensures Settled(LeafOf(hs[i]), LeafOf(gs[i])) && (a == Start ==> LeafOf(gs[i]) == LeafOf(hs[i]))
    {
      LeafAside(a, hs[i], gs[i]);
    }
    var l := CallLeaf(a, ConsumerOf(s, k), b.consumers[k]).node;
    var c := b.(consumers := LeavesOf(gs));
    assert a == Start ==> c.consumers == b.consumers[k := l];
    LeafChanged(a, s, k, b);
    SettledOk(b.(consumers := b.consumers[k := l]), c);
  }

  lemma AliveLeaf(h: Held)
    ensures LeafOf(h).alive == h.alive
  {}

  lemma ThrowerIsClosed(a: Action, h: Held, g: Held)
    requires Rest(h) && Aside(a, h, g) && CallThrows(a, h.consumer)
    ensures g == h
  {
    if a != Start { ServedSettles(h, g); }
  }

  lemma LeafCalled(a: Action, s: nat, k: nat, l: Leaf)
    ensures l.alive ==> OnLeaf(a, Consumers, s)(k, l) == CallLeaf(a, ConsumerOf(s, k), l)
  {}

  lemma LeafChanged(a: Action, s: nat, k: nat, b: Branch)
    requires BranchOk(b) && k < |b.consumers|
    ensures BranchOk(b.(consumers := b.consumers[k := CallLeaf(a, ConsumerOf(s, k), b.consumers[k]).node]))
  {}

  lemma ProducerChanged(s: nat, k: nat, b: Branch)
    requires BranchOk(b) && k < |b.producers|
    ensures CallLeaf(Close, ProducerOf(s, k), b.producers[k]).ok
    ensures CallLeaf(Close, ProducerOf(s, k), b.producers[k]).node == ClosedLeaf(b.producers[k])
    ensures BranchOk(b.(producers := b.producers[k := ClosedLeaf(b.producers[k])]))
  {}

  lemma ConsumerAdded(b: Branch)
    requires BranchOk(b) && b.attached
    ensures BranchOk(b.(consumers := b.consumers + [FRESH_LEAF]))
  {}

  lemma ProducerAdded(b: Branch)
    requires BranchOk(b) && b.attached
    ensures BranchOk(b.(producers := b.producers + [FRESH_LEAF]))
  {}

  lemma ExpiredIsClosed(l: Leaf)
    requires LeafOk(l) && !l.alive
    ensures ClosedLeaf(l) == l
  {}

  method CloseLocked(producer: MessageProducer)
    requires producer.Resting() && producer.mAlive
    modifies producer
    ensures producer.Resting()
    ensures ProducerLeaf(producer) == ClosedLeaf(old(ProducerLeaf(producer)))
    ensures old(producer.mAttached) ==> producer.mSent == producer.mAccepted
  {
    var ok, es := producer.Close();
  }

  class Session {
    // the session's context
    var mState: ClientState
    var mAttached: bool
    // proton's queue and session
    var mWork: seq<Work>
    var mLink: R.Link
    // the children, behind weak pointers
    var mConsumers: seq<MessageConsumer>
    var mProducers: seq<MessageProducer>
    // some client handle still owns the session
    var mAlive: bool

    ghost function Footprint(): set<object>
      reads this`mConsumers, this`mProducers
    {
      {this} + (set c: object | c in mConsumers) + (set p: object | p in mProducers)
    }

    /** The consumers as they stand. */
    ghost function Crowd(): seq<Held>
      reads this`mConsumers, Footprint()
    {
      Seen(mConsumers)
    }

    ghost function View(): Branch
      reads this, Footprint()
    {
      Branch(mAlive, mState, mAttached, LeavesOf(Seen(mConsumers)), ProducerLeaves(mProducers))
    }

    /** No call is in progress anywhere in the session. */
    ghost predicate Valid()
      reads this, Footprint()
    {
      && Distinct(mConsumers) && Distinct(mProducers) && AllRest(Seen(mConsumers))
      && ProducersRest(mProducers) && BranchOk(View())
      && (mAttached ==> mLink == R.Active && mWork == [])
    }

    // ---------------------------------------------------------------- proton's thread

    function Weight(): nat
      reads this
    {
      2 * |mWork| + (if mLink == R.Opening || mLink == R.Closing then 1 else 0)
    }

    /** The session waits for its link to open. */
    predicate AwaitsOpen()
      reads this
    {
      && mAttached
      && match mLink
         case Unopened => mWork == [OpenSession] && mState == Uninitialized
         case Opening => mWork == [] && mState == Uninitialized
         case Active => mWork == [] && mState == Stopped
         case _ => false
    }

    predicate AwaitsClose()
      reads this
    {
      match mLink
      case Active => mWork == [CloseSession] && mAttached && Open(mState)
      case Closing => mWork == [] && mAttached && Open(mState)
      case Ended => mWork == [] && !mAttached && mState == Closed
      case _ => false
    }

    method ProtonStep()
      requires mWork != [] || mLink == R.Opening || mLink == R.Closing
      modifies this`mState, this`mAttached, this`mWork, this`mLink
      ensures old(AwaitsOpen()) ==> AwaitsOpen()
      ensures old(AwaitsClose()) ==> AwaitsClose()
      ensures Weight() < old(Weight())
    {
      if mLink == R.Opening {
        OnSessionOpen();
      } else if mLink == R.Closing {
        OnSessionClose();
      } else {
        var work := mWork[0];
        mWork := mWork[1..];
        match work {
          case OpenSession => if mLink == R.Unopened { mLink := R.Opening; }
          case CloseSession => if mLink == R.Active { mLink := R.Closing; }
        }
      }
    }

    method OnSessionOpen()
      modifies this`mState, this`mAttached, this`mLink
      ensures mAttached && mLink == R.Active
      ensures mState == if old(mState) == Uninitialized then Stopped else Started
    {
      mLink, mAttached := R.Active, true;
      mState := if mState == Uninitialized then Stopped else Started;
    }

    method OnSessionClose()
      modifies this`mState, this`mAttached, this`mLink
      ensures !mAttached && mLink == R.Ended && mState == Closed
    {
      mLink, mAttached := R.Ended, false;
      mState := Closed;
    }

    // ---------------------------------------------------------------- calls

    /** The constructor, for a connection whose work queue is not null. */
    constructor ()
      ensures Valid() && View() == FRESH_BRANCH && mConsumers == [] && mProducers == [] && Footprint() == {this}
    {
      mState, mAttached, mAlive := Uninitialized, true, true;
      mWork, mLink := [OpenSession], R.Unopened;
      mConsumers, mProducers := [], [];
      new;
      while mState == Uninitialized
        invariant AwaitsOpen() && mConsumers == [] && mProducers == [] && mAlive
        decreases Weight()
      {
        ProtonStep();
      }
    }

    // ---------------------------------------------------------------- proton serves the children

    method ServeConsumer(i: nat)
      requires i < |mConsumers| && Distinct(mConsumers) && Rest(Seen(mConsumers)[i])
      modifies mConsumers[i]
      ensures forall k :: 0 <= k < |mConsumers| && k != i ==> Seen(mConsumers)[k] == old(Seen(mConsumers)[k])
      ensures Rest(Seen(mConsumers)[i]) && Served(old(Seen(mConsumers)[i]), Seen(mConsumers)[i])
    {
      hide Seen, R.Inv, R.ProtonOnly, R.IsRun, R.Exec;
      var consumer := mConsumers[i];
      RestMeans(consumer);
      ghost var es := consumer.ProtonRun();
      RestMeans(consumer);
    }

    method ServeConsumers()
      requires Distinct(mConsumers) && AllRest(Seen(mConsumers))
      modifies mConsumers
      ensures AllRest(Seen(mConsumers)) && AllServed(old(Seen(mConsumers)), Seen(mConsumers))
    {
      hide Seen, Rest, Served;
      ghost var hs := Seen(mConsumers);
      var i := 0;
      while i < |mConsumers|
        invariant 0 <= i <= |mConsumers| && AllRest(Seen(mConsumers))
        invariant forall k :: 0 <= k < i ==> Served(hs[k], Seen(mConsumers)[k])
        invariant forall k :: i <= k < |mConsumers| ==> Seen(mConsumers)[k] == hs[k]
      {
        ServeConsumer(i);
        i := i + 1;
      }
    }

    method ServeProducer(i: nat)
      requires i < |mProducers| && Distinct(mProducers) && ProducersRest(mProducers)
      modifies mProducers[i]
      ensures ProducersRest(mProducers) && ProducerLeaves(mProducers) == old(ProducerLeaves(mProducers))
    {
      hide ProducerLeaves;
      ghost var es := mProducers[i].ProtonRun();
      assert ProducerLeaves(mProducers) == old(ProducerLeaves(mProducers));
    }

    method ServeProducers()
      requires Distinct(mProducers) && ProducersRest(mProducers)
      modifies mProducers
      ensures ProducersRest(mProducers) && ProducerLeaves(mProducers) == old(ProducerLeaves(mProducers))
    {
      hide ProducerLeaves, ProducersRest;
      for i := 0 to |mProducers|
        invariant ProducersRest(mProducers) && ProducerLeaves(mProducers) == old(ProducerLeaves(mProducers))
      {
        ServeProducer(i);
      }
    }

    method ServeChildren()
      requires Distinct(mConsumers) && AllRest(Seen(mConsumers)) && Distinct(mProducers) && ProducersRest(mProducers)
      modifies mConsumers, mProducers
      ensures AllRest(Seen(mConsumers)) && AllServed(old(Seen(mConsumers)), Seen(mConsumers))
      ensures ProducersRest(mProducers) && ProducerLeaves(mProducers) == old(ProducerLeaves(mProducers))
    {
      hide Seen, AllRest, AllServed, ProducersRest, ProducerLeaves, Distinct;
      ServeConsumers();
      ServeProducers();
    }

    /** The application waits, for something in this session or elsewhere, and the one proton thread serves
        every child for as long as it likes. */
    method Serve()
      requires Valid()
      modifies mConsumers, mProducers
      ensures Valid() && SettledBranch(old(View()), View()) && AllServed(old(Crowd()), Crowd())
    {
      hide Seen, AllRest, AllServed, BranchOk, ProducersRest, ProducerLeaves, Distinct, LeavesOf,
          SettledBranch;
      ghost var (b, hs) := (View(), Seen(mConsumers));
      ServeChildren();
      ServedBranch(b, hs, Seen(mConsumers));
    }

    // ---------------------------------------------------------------- calls on children

    method CallConsumer(a: Action, i: nat) returns (ok: bool)
      requires i < |mConsumers| && Distinct(mConsumers) && Rest(Seen(mConsumers)[i]) && mConsumers[i].mAlive
      modifies mConsumers[i]
      ensures forall k :: 0 <= k < |mConsumers| && k != i ==> Seen(mConsumers)[k] == old(Seen(mConsumers)[k])
      ensures Rest(Seen(mConsumers)[i])
      ensures ok == !CallThrows(a, old(Seen(mConsumers)[i]).consumer)
      ensures if ok then Turned(a, old(Seen(mConsumers)[i]), Seen(mConsumers)[i])
          else Seen(mConsumers)[i] == old(Seen(mConsumers)[i])
    {
      hide Seen, Called, CallThrows, R.Inv;
      var consumer := mConsumers[i];
      RestMeans(consumer);
      ok := Turn(a, consumer);
      RestMeans(consumer);
    }

    /** One turn of the loop; while `stop` and `close` wait, proton serves all children. */
    method TurnAt(a: Action, i: nat) returns (ok: bool)
      requires Distinct(mConsumers) && AllRest(Seen(mConsumers)) && Distinct(mProducers) && ProducersRest(mProducers)
      requires i < |mConsumers| && mConsumers[i].mAlive
      modifies mConsumers, if a == LifecycleTree.Start then [] else mProducers
      ensures AllRest(Seen(mConsumers))
      ensures ProducersRest(mProducers) && ProducerLeaves(mProducers) == old(ProducerLeaves(mProducers))
      ensures TurnTaken(a, old(Seen(mConsumers)), Seen(mConsumers), i, ok)
    {
      hide Seen, Rest, Turned, CallThrows, ProducersRest, ProducerLeaves, Served;
      ghost var hs := Seen(mConsumers);
      ok := CallConsumer(a, i);
      ghost var ms := Seen(mConsumers);
      assert AllRest(ms);
      if a != LifecycleTree.Start {
        ServeChildren();
        if ok { ServedAfter(a, hs[i], ms[i], Seen(mConsumers)[i]); }
      }
    }

    /** The loop over the consumers, the same in `start`, `stop` and `close`. */
    method CallConsumers(a: Action) returns (ok: bool)
      requires Distinct(mConsumers) && AllRest(Seen(mConsumers)) && Distinct(mProducers) && ProducersRest(mProducers)
      modifies mConsumers, if a == LifecycleTree.Start then [] else mProducers
      ensures AllRest(Seen(mConsumers))
      ensures ProducersRest(mProducers) && ProducerLeaves(mProducers) == old(ProducerLeaves(mProducers))
      ensures LoopDone(a, old(Seen(mConsumers)), Seen(mConsumers), ok)
    {
      hide Seen, AllRest, TurnTaken, TurnedTo, Distinct, ProducersRest, ProducerLeaves;
      ghost var hs := Seen(mConsumers);
      ok := true;
      var i := 0;
      NothingTurned(a, hs);
      while i < |mConsumers|
        invariant 0 <= i <= |mConsumers| && ok && AllRest(Seen(mConsumers))
        invariant ProducersRest(mProducers) && ProducerLeaves(mProducers) == old(ProducerLeaves(mProducers))
        invariant TurnedTo(a, hs, Seen(mConsumers), i)
      {
        ghost var ms := Seen(mConsumers);
        if mConsumers[i].mAlive {
          ok := TurnAt(a, i);
          TurnTakenNext(a, hs, ms, i, Seen(mConsumers), ok);
          if !ok {
            return;
          }
        } else {
          SkippedNext(a, hs, ms, i);
        }
        i := i + 1;
      }
    }

    method CloseProducerAt(i: nat)
      requires i < |mProducers| && Distinct(mProducers) && ProducersRest(mProducers) && mProducers[i].mAlive
      modifies mProducers
      ensures ProducersRest(mProducers)
      ensures var was := old(ProducerLeaves(mProducers)); ProducerLeaves(mProducers) == was[i := ClosedLeaf(was[i])]
    {
      hide ProducerLeaves, ClosedLeaf, ProducerLeaf;
      CloseLocked(mProducers[i]);
      assert ProducersRest(mProducers);
      hide ProducersRest;
      ServeProducers();
    }

    /** Entered only when the consumers are closed, so that proton has only the producers to serve. */
    method CloseProducers()
      requires forall k :: 0 <= k < |mConsumers| ==> mConsumers[k].mWorkQueue.None?
      requires Distinct(mProducers) && ProducersRest(mProducers)
      requires forall k :: 0 <= k < |mProducers| ==> LeafOk(ProducerLeaves(mProducers)[k])
      modifies mProducers
      ensures ProducersRest(mProducers)
      ensures forall k :: 0 <= k < |mProducers| ==>
          ProducerLeaves(mProducers)[k] == ClosedLeaf(old(ProducerLeaves(mProducers))[k])
    {
      hide ProducerLeaves, ClosedLeaf, ProducersRest, LeafOk;
      ghost var ls := ProducerLeaves(mProducers);
      var i := 0;
      while i < |mProducers|
        invariant 0 <= i <= |mProducers|
        invariant ProducersRest(mProducers)
        invariant forall k :: 0 <= k < |mProducers| ==>
            ProducerLeaves(mProducers)[k] == if k < i then ClosedLeaf(ls[k]) else ls[k]
      {
        if mProducers[i].mAlive {
          CloseProducerAt(i);
        } else {
          ExpiredIsClosed(ls[i]);
        }
        i := i + 1;
      }
    }

    /** The wait of `close`: entered only when every child is closed. */
    method AwaitClosed()
      requires AwaitsClose()
      requires forall k :: 0 <= k < |mConsumers| ==> mConsumers[k].mWorkQueue.None?
      requires forall k :: 0 <= k < |mProducers| ==> !mProducers[k].mAttached
      modifies this`mState, this`mAttached, this`mWork, this`mLink
      ensures !mAttached && mState == Closed
    {
      while mState != Closed
        invariant AwaitsClose()
        decreases Weight()
      {
        ProtonStep();
      }
    }

    // ---------------------------------------------------------------- the session's calls

    /** The two loops of `close`. */
    method CloseChildren(ghost s: nat) returns (ok: bool)
      requires Valid() && mAttached
      modifies mConsumers, mProducers
      ensures AllRest(Seen(mConsumers)) && ProducersRest(mProducers)
      ensures forall k :: 0 <= k < |mConsumers| ==> mConsumers[k].mWorkQueue.None?
      ensures forall k :: 0 <= k < |mProducers| ==> !mProducers[k].mAttached
      ensures var o := CallBranch(LifecycleTree.Close, s, old(View()));
              && ok && o.ok && BranchOk(o.node) && Open(mState)
              && o.node == Branch(mAlive, Closed, false, LeavesOf(Seen(mConsumers)), ProducerLeaves(mProducers))
    {
      hide Seen, AllRest, LoopDone, CallBranch, BranchOk, ProducersRest, ProducerLeaves, LeavesOf, ClosedLeaf, LeafOk;
      ghost var (b, hs) := (View(), Seen(mConsumers));
      OpenBranch(b);
      ok := CallConsumers(LifecycleTree.Close);
      ConsumersClosed(hs, Seen(mConsumers), ok);
      assert forall k :: 0 <= k < |mConsumers| ==> Seen(mConsumers)[k].consumer == mConsumers[k].View();
      CloseProducers();
      CloseDone(s, b, hs, Seen(mConsumers), ProducerLeaves(mProducers), ok);
      assert forall k :: 0 <= k < |mConsumers| ==> Seen(mConsumers)[k].consumer == mConsumers[k].View();
      AllDetached(b.producers, ProducerLeaves(mProducers));
      assert forall k :: 0 <= k < |mProducers| ==> ProducerLeaves(mProducers)[k] == ProducerLeaf(mProducers[k]);
    }

    /** Nothing happens on a null queue, whatever the state says; otherwise the consumers are closed, then
        the producers, then the session. */
    method Close(ghost s: nat) returns (ok: bool)
      requires Valid()
      modifies this`mState, this`mAttached, this`mWork, this`mLink, mConsumers, mProducers
      ensures Valid()
      ensures ok && CallBranch(LifecycleTree.Close, s, old(View())).ok
      ensures View() == CallBranch(LifecycleTree.Close, s, old(View())).node
    {
      hide Seen, AllRest, CallBranch, BranchOk, ProducersRest, ProducerLeaves, Distinct, LeavesOf;
      ok := true;
      if mAttached {
        ok := CloseChildren(s);
        mWork := mWork + [CloseSession];
        AwaitClosed();
      } else {
        CloseOfDetached(s, View());
      }
    }

    method Start(ghost s: nat) returns (ok: bool)
      requires Valid()
      modifies this`mState, mConsumers
      ensures Valid()
      ensures ok == CallBranch(LifecycleTree.Start, s, old(View())).ok
      ensures View() == CallBranch(LifecycleTree.Start, s, old(View())).node
      ensures LoopDone(LifecycleTree.Start, old(Crowd()), Crowd(), ok)
    {
      hide Seen, AllRest, LoopDone, CallBranch, BranchOk, ProducersRest, ProducerLeaves, Distinct, LeavesOf,
          SettledBranch;
      ghost var (b, hs) := (View(), Seen(mConsumers));
      ok := CallConsumers(LifecycleTree.Start);
      if ok {
        mState := Started;
      }
      FanOutDone(LifecycleTree.Start, s, b, hs, Seen(mConsumers), ok);
    }

    /** Does to the tree what the model says if it succeeds; if a consumer throws, those behind it may have
        settled meanwhile. */
    method Stop(ghost s: nat) returns (ok: bool)
      requires Valid()
      modifies this`mState, mConsumers, mProducers
      ensures Valid()
      ensures ok == CallBranch(LifecycleTree.Stop, s, old(View())).ok
      ensures BranchAgrees(LifecycleTree.Stop, CallBranch(LifecycleTree.Stop, s, old(View())), View())
      ensures LoopDone(LifecycleTree.Stop, old(Crowd()), Crowd(), ok)
    {
      hide Seen, AllRest, LoopDone, CallBranch, BranchOk, ProducersRest, ProducerLeaves, Distinct, LeavesOf,
          BranchAgrees;
      ghost var (b, hs) := (View(), Seen(mConsumers));
      ok := CallConsumers(LifecycleTree.Stop);
      if ok {
        mState := Stopped;
      }
      FanOutDone(LifecycleTree.Stop, s, b, hs, Seen(mConsumers), ok);
    }

    /** The destructor, behind the last handle. */
    method Destroy(ghost s: nat)
      requires Valid()
      modifies this`mState, this`mAttached, this`mWork, this`mLink, this`mAlive, mConsumers, mProducers
      ensures Valid()
      ensures View() == CallBranch(LifecycleTree.Close, s, old(View())).node.(alive := false)
    {
      hide Seen, AllRest, CallBranch, BranchOk, ProducersRest, ProducerLeaves, Distinct, LeavesOf;
      ghost var b := View();
      var ok := Close(s);
      BranchDestroyed(s, b);
      mAlive := false;
    }

    /** `createConsumer`: the check on the state, then the constructor, which throws on a null queue and
        otherwise waits. */
    method CreateConsumer() returns (r: Option<MessageConsumer>)
      requires Valid()
      modifies this`mConsumers, mConsumers, mProducers
      ensures Valid() && mProducers == old(mProducers)
      ensures r.Some? <==> old(mState) != Closed && old(mAttached)
      ensures if r.Some? then
                && fresh(r.value) && mConsumers == old(mConsumers) + [r.value]
                && SettledBranch(old(View()).(consumers := old(View()).consumers + [FRESH_LEAF]), View())
              else View() == old(View()) && mConsumers == old(mConsumers)
    {
      hide Seen, AllRest, BranchOk, ProducersRest, ProducerLeaves, LeavesOf, AllServed, SettledBranch, Distinct;
      if mState == Closed || !mAttached {
        return None;
      }
      ghost var before := View();
      Serve();
      SettledAdded(before, View());
      var consumer := AddConsumer();
      r := Some(consumer);
    }

    /** The new consumer, and `addConsumer`. */
    method AddConsumer() returns (consumer: MessageConsumer)
      requires Valid() && mAttached
      modifies this`mConsumers
      ensures Valid() && fresh(consumer) && mConsumers == old(mConsumers) + [consumer]
      ensures View() == old(View()).(consumers := old(View()).consumers + [FRESH_LEAF])
    {
      hide Seen, BranchOk, ProducersRest, ProducerLeaves, Rest;
      ghost var (b, hs) := (View(), Seen(mConsumers));
      consumer := new MessageConsumer();
      RestMeans(consumer);
      mConsumers := mConsumers + [consumer];
      assert Seen(mConsumers) == hs + [Held(true, consumer.View())];
      assert LeavesOf(Seen(mConsumers)) == b.consumers + [FRESH_LEAF];
      ConsumerAdded(b);
    }

    method CreateProducer() returns (r: Option<MessageProducer>)
      requires Valid()
      modifies this`mProducers, mConsumers, mProducers
      ensures Valid() && mConsumers == old(mConsumers)
      ensures r.Some? <==> old(mState) != Closed && old(mAttached)
      ensures if r.Some? then
                && fresh(r.value) && mProducers == old(mProducers) + [r.value]
                && SettledBranch(old(View()).(producers := old(View()).producers + [FRESH_LEAF]), View())
              else View() == old(View()) && mProducers == old(mProducers)
    {
      hide Seen, BranchOk, AllRest, ProducersRest, ProducerLeaves, LeavesOf, AllServed, Distinct;
      if mState == Closed || !mAttached {
        return None;
      }
      Serve();
      var producer := AddProducer();
      r := Some(producer);
    }

    method AddProducer() returns (producer: MessageProducer)
      requires Valid() && mAttached
      modifies this`mProducers
      ensures Valid() && fresh(producer) && mProducers == old(mProducers) + [producer]
      ensures View() == old(View()).(producers := old(View()).producers + [FRESH_LEAF])
    {
      hide Seen, BranchOk, AllRest, ProducersRest, ProducerLeaves, LeavesOf, MessageProducer.Resting;
      ghost var b := View();
      producer := new MessageProducer();
      ProducerJoins(mProducers, producer);
      mProducers := mProducers + [producer];
      ProducerAdded(b);
    }

    /** A call through the client's own handle on a consumer; the others may settle while it waits. */
    method ThroughConsumer(a: Action, k: nat, ghost s: nat) returns (ok: bool)
      requires Valid() && k < |mConsumers| && mConsumers[k].mAlive
      modifies mConsumers, if a == LifecycleTree.Start then [] else mProducers
      ensures Valid()
      ensures ConsumerCalled(a, s, k, old(View()), View(), ok)
    {
      hide Seen, AllRest, TurnTaken, ConsumerCalled, LeavesOf, ProducersRest, ProducerLeaves, BranchOk, Distinct;
      ghost var (b, hs) := (View(), Seen(mConsumers));
      ok := TurnAt(a, k);
      ThroughOne(a, s, k, b, hs, Seen(mConsumers), ok);
    }

    method ThroughProducer(k: nat, ghost s: nat)
      requires Valid() && k < |mProducers| && mProducers[k].mAlive
      modifies mConsumers, mProducers
      ensures Valid()
      ensures var o := CallLeaf(LifecycleTree.Close, ProducerOf(s, k), old(View()).producers[k]);
              o.ok && SettledBranch(old(View()).(producers := old(View()).producers[k := o.node]), View())
    {
      hide Seen, AllRest, ProducersRest, ProducerLeaves, BranchOk, LeavesOf, ClosedLeaf, CallLeaf;
      ghost var b := View();
      CloseProducerAt(k);
      ProducerChanged(s, k, b);
      assert Valid();
      Serve();
    }
  }
}
