/** The fan-out loop over a session's consumers, on values. */
module ConsumerLoop {
  import opened ClientStates
  import opened LifecycleTree
  import opened Meanwhile
  import opened Teardown
  import R = ReceiverProtocol
  import StopSafety

  /** A consumer behind a weak pointer, between two calls. */
  datatype Held = Held(alive: bool, consumer: R.Consumer)

  /** No call is in progress, and a consumer that nobody holds any more is closed. */
  ghost predicate Rest(h: Held) {
    R.Inv(h.consumer) && h.consumer.call == R.Idle && (h.alive || !h.consumer.attached)
  }

  ghost predicate AllRest(hs: seq<Held>) {
    forall k :: 0 <= k < |hs| ==> Rest(hs[k])
  }

  function LeafOf(h: Held): Leaf {
    Leaf(h.alive, h.consumer.state, h.consumer.attached)
  }

  function LeavesOf(hs: seq<Held>): (ls: seq<Leaf>)
    ensures |ls| == |hs| && forall k :: 0 <= k < |hs| ==> ls[k] == LeafOf(hs[k])
  {
    seq(|hs|, k requires 0 <= k < |hs| => LeafOf(hs[k]))
  }

  // ---------------------------------------------------------------- one turn

  /** What the loop's call does to a consumer that is still alive: `start` adds one credit request of ten;
      `stop` leaves it stopped, and quiet if its guard held; `close` leaves it closed. */
  ghost predicate Called(a: Action, c: R.Consumer, d: R.Consumer) {
    match a
    case Start => c.call == R.Idle && d == R.Step(c, R.Start)
    case Stop => d.attached && d.state == Stopped && (StopSafety.StopGuard(c) ==> StopSafety.Quiet(d))
    case Close => !d.attached && d.state == Closed && (!c.attached ==> d == c)
  }

  predicate CallThrows(a: Action, c: R.Consumer) {
    a != Close && !c.attached
  }

  ghost predicate Turned(a: Action, h: Held, g: Held) {
    if h.alive then g.alive && !CallThrows(a, h.consumer) && Called(a, h.consumer, g.consumer) else g == h
  }

  /** Proton has served the consumer while the application waited for another one. */
  ghost predicate Served(h: Held, g: Held) {
    g.alive == h.alive && R.Ran(h.consumer, g.consumer)
  }

  ghost predicate AllServed(hs: seq<Held>, gs: seq<Held>) {
    |gs| == |hs| && forall k :: 0 <= k < |hs| ==> Served(hs[k], gs[k])
  }

  /** What happens meanwhile: `start` does not wait, `stop` and `close` do. */
  ghost predicate Aside(a: Action, h: Held, g: Held) {
    if a == Start then g == h else Served(h, g)
  }

  /** The first `n` consumers have had their turn; all have been served as long as the loop has waited. */
  ghost predicate TurnedTo(a: Action, hs: seq<Held>, gs: seq<Held>, n: nat) {
    && n <= |hs| == |gs|
    && (forall k :: 0 <= k < n ==> Turned(a, hs[k], gs[k]))
    && (forall k :: n <= k < |hs| ==> Aside(a, hs[k], gs[k]))
  }

  /** How the whole loop ends: every consumer has had its turn, or the first one to throw ended it. */
  ghost predicate LoopDone(a: Action, hs: seq<Held>, gs: seq<Held>, ok: bool) {
    if ok then TurnedTo(a, hs, gs, |hs|)
    else exists n :: 0 <= n < |hs| && TurnedTo(a, hs, gs, n) && hs[n].alive && CallThrows(a, hs[n].consumer)
  }

  lemma ServedSettles(h: Held, g: Held)
    requires Rest(h) && Served(h, g)
    ensures Rest(g) && StopSafety.Settles(h.consumer, g.consumer) && Settled(LeafOf(h), LeafOf(g))
    ensures !h.alive || !h.consumer.attached ==> g == h
  {
    StopSafety.RanSettles(h.consumer, g.consumer);
  }

  lemma ServedNothing(h: Held)
    ensures Served(h, h)
  {
    R.RanNothing(h.consumer);
  }

  lemma ServedBefore(a: Action, h: Held, m: Held, g: Held)
    requires Rest(h) && Aside(a, h, m) && Turned(a, m, g)
    ensures Turned(a, h, g)
  {
    hide R.Inv, R.Step, StopSafety.StopGuard, StopSafety.Quiet;
    if a != Start { ServedSettles(h, m); }
  }

  lemma ServedAfter(a: Action, h: Held, m: Held, g: Held)
    requires Rest(h) && Rest(m) && Turned(a, h, m) && Aside(a, m, g)
    ensures Turned(a, h, g)
  {
    hide R.Inv, R.Step, StopSafety.StopGuard;
    if a != Start { ServedSettles(m, g); }
  }

  lemma ServedTwice(a: Action, h: Held, m: Held, g: Held)
    requires Aside(a, h, m) && Aside(a, m, g)
    ensures Aside(a, h, g)
  {
    if a != Start { R.RanTwice(h.consumer, m.consumer, g.consumer); }
  }

  lemma AsideNothing(a: Action, h: Held)
    ensures Aside(a, h, h)
  {
    ServedNothing(h);
  }

  /** While consumer `n` has its turn, the others are served. */
  lemma TurnNext(a: Action, hs: seq<Held>, gs: seq<Held>, n: nat, next: seq<Held>)
    requires AllRest(hs) && AllRest(gs) && TurnedTo(a, hs, gs, n) && n < |hs| && |next| == |gs|
    requires forall k :: 0 <= k < |gs| && k != n ==> Aside(a, gs[k], next[k])
    requires Turned(a, gs[n], next[n])
    ensures TurnedTo(a, hs, next, n + 1)
  {
    hide Turned, Aside, Rest;
    forall k | 0 <= k < n ensures Turned(a, hs[k], next[k]) { ServedAfter(a, hs[k], gs[k], next[k]); }
    ServedBefore(a, hs[n], gs[n], next[n]);
    forall k | n < k < |hs| ensures Aside(a, hs[k], next[k]) { ServedTwice(a, hs[k], gs[k], next[k]); }
  }

  lemma TurnStays(a: Action, hs: seq<Held>, gs: seq<Held>, n: nat, next: seq<Held>)
    requires AllRest(hs) && AllRest(gs) && TurnedTo(a, hs, gs, n) && |next| == |gs|
    requires forall k :: 0 <= k < |gs| ==> Aside(a, gs[k], next[k])
    ensures TurnedTo(a, hs, next, n)
  {
    hide Turned, Aside, Rest;
    forall k | 0 <= k < n ensures Turned(a, hs[k], next[k]) { ServedAfter(a, hs[k], gs[k], next[k]); }
    forall k | n <= k < |hs| ensures Aside(a, hs[k], next[k]) { ServedTwice(a, hs[k], gs[k], next[k]); }
  }

  lemma NothingTurned(a: Action, hs: seq<Held>)
    ensures TurnedTo(a, hs, hs, 0)
  {
    forall k | 0 <= k < |hs| ensures Aside(a, hs[k], hs[k]) { AsideNothing(a, hs[k]); }
  }

  /** The consumer at which the loop threw was closed from the beginning. */
  lemma ThrowerWasClosed(a: Action, h: Held, g: Held)
    requires Rest(h) && Aside(a, h, g) && CallThrows(a, g.consumer)
    ensures CallThrows(a, h.consumer) && h.alive == g.alive
  {
    if a != Start { ServedSettles(h, g); }
  }

  /** Consumers that are served before or after a loop that succeeded make no difference to it. */
  lemma LoopThenServed(a: Action, hs: seq<Held>, gs: seq<Held>, next: seq<Held>)
    requires a != Start && AllRest(hs) && AllRest(gs) && LoopDone(a, hs, gs, true) && AllServed(gs, next)
    ensures LoopDone(a, hs, next, true)
  {
    hide Turned, Rest;
    forall k | 0 <= k < |hs| ensures Turned(a, hs[k], next[k]) { ServedAfter(a, hs[k], gs[k], next[k]); }
  }

  lemma ServedThenLoop(a: Action, hs: seq<Held>, ms: seq<Held>, gs: seq<Held>)
    requires a != Start && AllRest(hs) && AllServed(hs, ms) && LoopDone(a, ms, gs, true)
    ensures LoopDone(a, hs, gs, true)
  {
    hide Turned, Rest;
    forall k | 0 <= k < |hs| ensures Turned(a, hs[k], gs[k]) { ServedBefore(a, hs[k], ms[k], gs[k]); }
  }

  // ---------------------------------------------------------------- what the loop does to the tree

  lemma LeafOfTurn(a: Action, s: nat, k: nat, h: Held, g: Held)
    requires Rest(h) && Turned(a, h, g)
    ensures OnLeaf(a, Consumers, s)(k, LeafOf(h)).ok && OnLeaf(a, Consumers, s)(k, LeafOf(h)).node == LeafOf(g)
  {}

  lemma LeafOfThrow(a: Action, s: nat, k: nat, h: Held)
    requires Rest(h) && h.alive && CallThrows(a, h.consumer)
    ensures !OnLeaf(a, Consumers, s)(k, LeafOf(h)).ok && OnLeaf(a, Consumers, s)(k, LeafOf(h)).node == LeafOf(h)
  {}

  lemma LeafAside(a: Action, h: Held, g: Held)
    requires Rest(h) && Aside(a, h, g)
    ensures Settled(LeafOf(h), LeafOf(g)) && (a == Start ==> LeafOf(g) == LeafOf(h))
  {
    if a != Start { ServedSettles(h, g); }
  }

  /** The tree after `n` turns, except that consumers still waiting for theirs may have settled. */
  ghost predicate LeavesAgree(a: Action, ls: seq<Leaf>, ms: seq<Leaf>) {
    |ms| == |ls| && (a == Start ==> ms == ls) && forall k :: 0 <= k < |ls| ==> Settled(ls[k], ms[k])
  }

  lemma TurnsRefineEach(a: Action, s: nat, hs: seq<Held>, gs: seq<Held>, n: nat)
    requires AllRest(hs) && TurnedTo(a, hs, gs, n)
    ensures Each(OnLeaf(a, Consumers, s), LeavesOf(hs), n).ok
    ensures LeavesAgree(a, Each(OnLeaf(a, Consumers, s), LeavesOf(hs), n).node, LeavesOf(gs))
    ensures n == |hs| ==> Each(OnLeaf(a, Consumers, s), LeavesOf(hs), n).node == LeavesOf(gs)
  {
    hide OnLeaf, Turned, Each, Rest, LeafOf, Aside;
    var op, ls := OnLeaf(a, Consumers, s), LeavesOf(hs);
    forall k | 0 <= k < n
      ensures op(k, ls[k]).ok && op(k, ls[k]).node == LeafOf(gs[k])
    {
      LeafOfTurn(a, s, k, hs[k], gs[k]);
    }
    EachAt(op, ls, n);
    var o := Each(op, ls, n).node;
    forall k | 0 <= k < |hs|
      ensures Settled(o[k], LeavesOf(gs)[k]) && (k < n || a == Start ==> o[k] == LeavesOf(gs)[k])
    {
      if k >= n { LeafAside(a, hs[k], gs[k]); }
    }
    assert n == |hs| || a == Start ==> o == LeavesOf(gs);
  }

  lemma ThrowEndsEach(a: Action, s: nat, hs: seq<Held>, gs: seq<Held>, n: nat)
    requires AllRest(hs) && TurnedTo(a, hs, gs, n) && n < |hs| && hs[n].alive && CallThrows(a, hs[n].consumer)
    ensures !Each(OnLeaf(a, Consumers, s), LeavesOf(hs), |hs|).ok
    ensures LeavesAgree(a, Each(OnLeaf(a, Consumers, s), LeavesOf(hs), |hs|).node, LeavesOf(gs))
  {
    TurnsRefineEach(a, s, hs, gs, n);
    hide OnLeaf, TurnedTo, Each, Rest, LeafOf, CallThrows, LeavesAgree;
    var op, ls := OnLeaf(a, Consumers, s), LeavesOf(hs);
    LeafOfThrow(a, s, n, hs[n]);
    EachThrows(op, ls, n);
    EachStops(op, ls, n + 1, |ls|);
  }

  /** The loop over objects does what `Each` does to the tree: exactly if it succeeds or does not wait, and
      otherwise but for consumers that settled before the exception. */
  lemma LoopRefinesEach(a: Action, s: nat, hs: seq<Held>, gs: seq<Held>, ok: bool)
    requires AllRest(hs) && LoopDone(a, hs, gs, ok)
    ensures Each(OnLeaf(a, Consumers, s), LeavesOf(hs), |hs|).ok == ok
    ensures LeavesAgree(a, Each(OnLeaf(a, Consumers, s), LeavesOf(hs), |hs|).node, LeavesOf(gs))
    ensures ok ==> Each(OnLeaf(a, Consumers, s), LeavesOf(hs), |hs|).node == LeavesOf(gs)
  {
    hide OnLeaf, TurnedTo, Each, AllRest, LeavesOf, CallThrows, LeavesAgree;
    if ok {
      TurnsRefineEach(a, s, hs, gs, |hs|);
    } else {
      var n :| 0 <= n < |hs| && TurnedTo(a, hs, gs, n) && hs[n].alive && CallThrows(a, hs[n].consumer);
      ThrowEndsEach(a, s, hs, gs, n);
    }
  }

  lemma EachThrows(op: (nat, Leaf) -> Outcome<Leaf>, ls: seq<Leaf>, n: nat)
    requires n < |ls| && Each(op, ls, n).ok && !op(n, ls[n]).ok && op(n, ls[n]).node == ls[n]
    ensures !Each(op, ls, n + 1).ok && Each(op, ls, n + 1).node == Each(op, ls, n).node
  {
    EachAt(op, ls, n);
  }

  /** How a session's call and the tree's agree. */
  ghost predicate BranchAgrees(a: Action, o: Outcome<Branch>, c: Branch) {
    SettledBranch(o.node, c) && (o.ok || a == Start ==> c == o.node)
  }

  /** The state a session is in after the loop of `start` or `stop`. */
  lemma FanOutDone(a: Action, s: nat, b: Branch, hs: seq<Held>, gs: seq<Held>, ok: bool)
    requires a != Close && BranchOk(b) && b.consumers == LeavesOf(hs) && AllRest(hs) && LoopDone(a, hs, gs, ok)
    ensures CallBranch(a, s, b).ok == ok && CallBranch(a, s, b).log == []
    ensures var c := b.(consumers := LeavesOf(gs), state := if ok then After(a) else b.state);
            BranchAgrees(a, CallBranch(a, s, b), c) && BranchOk(c)
  {
    hide Each, OnLeaf, LeavesOf, BranchOk, LoopDone, AllRest;
    LoopRefinesEach(a, s, hs, gs, ok);
    CalmSession(a, s, b);
    CalmHead(b, CallBranch(a, s, b).node);
    SettledOk(CallBranch(a, s, b).node, b.(consumers := LeavesOf(gs), state := if ok then After(a) else b.state));
  }

  /** Where the loops of `close` leave the children. */
  lemma CloseDone(s: nat, b: Branch, hs: seq<Held>, gs: seq<Held>, ps: seq<Leaf>, ok: bool)
    requires b.attached && BranchOk(b) && b.consumers == LeavesOf(hs) && AllRest(hs) && LoopDone(Close, hs, gs, ok)
    requires |ps| == |b.producers| && forall k :: 0 <= k < |ps| ==> ps[k] == ClosedLeaf(b.producers[k])
    ensures ok && CallBranch(Close, s, b).ok
    ensures CallBranch(Close, s, b).node == Branch(b.alive, Closed, false, LeavesOf(gs), ps)
    ensures BranchOk(CallBranch(Close, s, b).node)
    ensures |gs| == |hs| && forall k :: 0 <= k < |gs| ==> !gs[k].consumer.attached
  {
    hide Each, OnLeaf, LoopDone, AllRest, ClosedLeaf, LeafOk, LeavesAgree;
    LoopRefinesEach(Close, s, hs, gs, ok);
    CloseLeaves(Consumers, s, b.consumers);
    CloseLeaves(Producers, s, b.producers);
    CloseBranch(s, b);
    var o := Each(OnLeaf(Close, Producers, s), b.producers, |b.producers|);
    assert o.node == ps;
    AllDetached(b.consumers, LeavesOf(gs));
    assert forall k :: 0 <= k < |gs| ==> LeavesOf(gs)[k] == LeafOf(gs[k]);
  }

  lemma ConsumersClosed(hs: seq<Held>, gs: seq<Held>, ok: bool)
    requires LoopDone(Close, hs, gs, ok) && AllRest(hs)
    ensures ok && |gs| == |hs| && forall k :: 0 <= k < |gs| ==> !gs[k].consumer.attached
  {
    assert forall k :: 0 <= k < |hs| ==> Rest(hs[k]) && Turned(Close, hs[k], gs[k]);
  }

  lemma CloseOfDetached(s: nat, b: Branch)
    requires !b.attached
    ensures CallBranch(Close, s, b) == Outcome(true, b, [])
  {
    hide Each;
  }

  lemma AllDetached(ls: seq<Leaf>, ms: seq<Leaf>)
    requires |ms| == |ls| && forall k :: 0 <= k < |ls| ==> ms[k] == ClosedLeaf(ls[k])
    ensures forall k :: 0 <= k < |ms| ==> !ms[k].attached
  {}

  /** A session whose consumers have been served. */
  lemma ServedBranch(b: Branch, hs: seq<Held>, gs: seq<Held>)
    requires BranchOk(b) && b.consumers == LeavesOf(hs) && AllRest(hs) && AllServed(hs, gs)
    ensures SettledBranch(b, b.(consumers := LeavesOf(gs))) && BranchOk(b.(consumers := LeavesOf(gs)))
  {
    hide LeafOf, Rest, Served;
    forall k | 0 <= k < |hs| ensures Settled(LeafOf(hs[k]), LeafOf(gs[k])) { ServedSettles(hs[k], gs[k]); }
    SettledOk(b, b.(consumers := LeavesOf(gs)));
  }
}
