/** Starting and stopping from the connection down. */
module FanOut {
  import opened ClientStates
  import opened LifecycleTree
  import opened Teardown

  /** A consumer that somebody still holds although it is closed; starting or stopping it throws. */
  predicate HasClosedConsumer(b: Branch) {
    exists k :: 0 <= k < |b.consumers| && b.consumers[k].alive && !b.consumers[k].attached
  }

  predicate Blocked(r: Root) {
    exists s :: 0 <= s < |r.sessions| && r.sessions[s].alive && HasClosedConsumer(r.sessions[s])
  }

  /** Every live session and every live consumer has the state; everything else is as it was. */
  ghost predicate ReachesEveryone(state: ClientState, r: Root, t: Root) {
    && t == Root(r.alive, state, r.attached, t.sessions) && |t.sessions| == |r.sessions|
    && forall s :: 0 <= s < |r.sessions| ==>
         if r.sessions[s].alive then Reaches(state, r.sessions[s], t.sessions[s]) else t.sessions[s] == r.sessions[s]
  }

  ghost predicate Reaches(state: ClientState, b: Branch, c: Branch) {
    && c == Branch(b.alive, state, b.attached, c.consumers, b.producers) && |c.consumers| == |b.consumers|
    && forall k :: 0 <= k < |b.consumers| ==>
         c.consumers[k] == if b.consumers[k].alive then Leaf(true, state, true) else b.consumers[k]
  }

  lemma SessionFanOut(a: Action, s: nat, b: Branch)
    requires BranchOk(b) && a != Close
    ensures CallBranch(a, s, b).ok <==> !HasClosedConsumer(b)
    ensures CallBranch(a, s, b).ok ==> Reaches(if a == Start then Started else Stopped, b, CallBranch(a, s, b).node)
    ensures !CallBranch(a, s, b).ok ==> CallBranch(a, s, b).node.state == b.state
  {
    var op := OnLeaf(a, Consumers, s);
    EachAt(op, b.consumers, |b.consumers|);
    hide Each;
    assert forall k :: 0 <= k < |b.consumers| ==>
             (op(k, b.consumers[k]).ok <==> !(b.consumers[k].alive && !b.consumers[k].attached));
  }

  /** `start` and `stop` succeed exactly if no live session holds a live consumer that is closed (and, for
      `start`, the connection's state is not CLOSED); then they reach every live session and consumer. */
  lemma StartStopFanOut(a: Action, r: Root)
    requires RootOk(r) && a != Close
    ensures CallRoot(a, r).ok <==> !Blocked(r) && (a == Start ==> r.state != Closed)
    ensures CallRoot(a, r).ok ==> ReachesEveryone(if a == Start then Started else Stopped, r, CallRoot(a, r).node)
    ensures !CallRoot(a, r).ok ==> CallRoot(a, r).node.state == r.state
  {
    hide Each, BranchOk, CallBranch, HasClosedConsumer, Reaches;
    var op := OnSession(a);
    forall s | 0 <= s < |r.sessions|
      ensures op(s, r.sessions[s]).ok <==> !(r.sessions[s].alive && HasClosedConsumer(r.sessions[s]))
      ensures op(s, r.sessions[s]).ok ==>
                if r.sessions[s].alive then Reaches(After(a), r.sessions[s], op(s, r.sessions[s]).node)
                else op(s, r.sessions[s]).node == r.sessions[s]
    {
      SessionFanOut(a, s, r.sessions[s]);
    }
    EachAt(op, r.sessions, |r.sessions|);
  }

  lemma ReachesTwice(b: Branch, x: ClientState, c: Branch, y: ClientState, d: Branch, e: Branch)
    requires Reaches(x, b, c) && Reaches(y, c, d) && Reaches(y, b, e)
    ensures d == e
  {
    assert d.consumers == e.consumers;
  }

  lemma ReachesKeepsClosed(x: ClientState, b: Branch, c: Branch)
    requires Reaches(x, b, c) && !HasClosedConsumer(b)
    ensures !HasClosedConsumer(c) && c.alive == b.alive
  {}

  /** Starting and then stopping leaves exactly the tree that stopping alone leaves. */
  lemma StopAfterStart(r: Root)
    requires RootOk(r) && CallRoot(Start, r).ok
    ensures CallRoot(Stop, CallRoot(Start, r).node).ok
        && CallRoot(Stop, CallRoot(Start, r).node).node == CallRoot(Stop, r).node
  {
    hide CallRoot, RootOk, Reaches, HasClosedConsumer;
    var t := CallRoot(Start, r).node;
    StartStopFanOut(Start, r);
    StartStopFanOut(Stop, r);
    CalmWhole(Start, r);
    CalmMeans(r, t);
    StartStopFanOut(Stop, t);
    forall s | 0 <= s < |r.sessions| && r.sessions[s].alive
      ensures t.sessions[s].alive && !HasClosedConsumer(t.sessions[s])
    {
      ReachesKeepsClosed(Started, r.sessions[s], t.sessions[s]);
    }
    var (u, v) := (CallRoot(Stop, t).node, CallRoot(Stop, r).node);
    forall s | 0 <= s < |r.sessions|
      ensures u.sessions[s] == v.sessions[s]
    {
      if r.sessions[s].alive {
        ReachesTwice(r.sessions[s], Started, t.sessions[s], Stopped, u.sessions[s], v.sessions[s]);
      }
    }
    assert u.sessions == v.sessions;
  }
}
