/** A fan-out that waits gives every other consumer time to finish a leftover drain.  Where it succeeds this
    makes no difference in the end. */
module Meanwhile {
  import opened ClientStates
  import opened LifecycleTree
  import opened Teardown

  /** Loops over lists on which the calls do the same differ only where they did not get to. */
  lemma {:induction false} EachSame<N>(op: (nat, N) -> Outcome<N>, ns: seq<N>, ms: seq<N>, n: nat)
    requires n <= |ns| == |ms| && forall k :: 0 <= k < n ==> op(k, ns[k]) == op(k, ms[k])
    ensures Each(op, ms, n).ok == Each(op, ns, n).ok && Each(op, ms, n).log == Each(op, ns, n).log
    ensures forall k :: 0 <= k < |ns| ==>
              || Each(op, ms, n).node[k] == Each(op, ns, n).node[k]
              || (Each(op, ms, n).node[k] == ms[k] && Each(op, ns, n).node[k] == ns[k])
    ensures Each(op, ns, n).ok ==> forall k :: 0 <= k < n ==> Each(op, ms, n).node[k] == Each(op, ns, n).node[k]
    decreases n
  {
    if n > 0 { EachSame(op, ns, ms, n - 1); }
  }

  lemma SettledLeaf(a: Action, s: nat, k: nat, l: Leaf, m: Leaf)
    requires a != Start && LeafOk(l) && Settled(l, m)
    ensures OnLeaf(a, Consumers, s)(k, l) == OnLeaf(a, Consumers, s)(k, m)
  {}

  lemma SettledLeaves(a: Action, s: nat, ls: seq<Leaf>, ms: seq<Leaf>)
    requires a != Start && |ms| == |ls| && forall k :: 0 <= k < |ls| ==> LeafOk(ls[k]) && Settled(ls[k], ms[k])
    ensures var (o, p) := (Each(OnLeaf(a, Consumers, s), ls, |ls|), Each(OnLeaf(a, Consumers, s), ms, |ms|));
            && p.ok == o.ok && p.log == o.log && (o.ok ==> p.node == o.node)
            && forall k :: 0 <= k < |ls| ==> Settled(o.node[k], p.node[k])
  {
    var op := OnLeaf(a, Consumers, s);
    forall k | 0 <= k < |ls| ensures op(k, ls[k]) == op(k, ms[k]) {
      SettledLeaf(a, s, k, ls[k], ms[k]);
    }
    hide Each, OnLeaf, LeafOk;
    EachSame(op, ls, ms, |ls|);
    if Each(op, ls, |ls|).ok {
      assert Each(op, ms, |ms|).node == Each(op, ls, |ls|).node;
    }
  }

  lemma DetachedIsFirm(b: Branch)
    requires BranchOk(b) && !b.attached
    ensures Firm(b)
  {}

  /** A call on a session does the same before and after a leftover drain has ended in it. */
  lemma SettledCall(a: Action, s: nat, b: Branch, c: Branch)
    requires a != Start && BranchOk(b) && SettledBranch(b, c)
    ensures CallBranch(a, s, c).ok == CallBranch(a, s, b).ok
    ensures CallBranch(a, s, b).ok ==> CallBranch(a, s, c).node == CallBranch(a, s, b).node
    ensures SettledBranch(CallBranch(a, s, b).node, CallBranch(a, s, c).node)
  {
    if !b.attached {
      DetachedIsFirm(b);
      FirmStays(b, c);
      SettledItself(CallBranch(a, s, b).node);
    } else {
      hide Each, OnLeaf, LeafOk;
      SettledLeaves(a, s, b.consumers, c.consumers);
    }
  }

  /** After its turn no drain can end in a session. */
  lemma FirmAfterTurn(a: Action, s: nat, b: Branch)
    requires a != Start && BranchOk(b) && OnSession(a)(s, b).ok
    ensures Firm(OnSession(a)(s, b).node)
  {
    hide CallBranch, LeafOk;
    if !b.alive {
      DetachedIsFirm(b);
    } else if a == Close {
      CloseBranch(s, b);
      DetachedIsFirm(CallBranch(a, s, b).node);
    } else {
      FirmAfterStop(s, b);
    }
  }

  lemma FirmAfterStop(s: nat, b: Branch)
    requires BranchOk(b) && CallBranch(Stop, s, b).ok
    ensures Firm(CallBranch(Stop, s, b).node)
  {
    var op := OnLeaf(Stop, Consumers, s);
    EachAt(op, b.consumers, |b.consumers|);
    hide Each;
    assert forall k :: 0 <= k < |b.consumers| ==> op(k, b.consumers[k]).ok ==>
             (op(k, b.consumers[k]).node.attached ==> op(k, b.consumers[k]).node.state == Stopped);
  }
}
