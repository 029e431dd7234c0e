/** The tree of connection, sessions, consumers and producers, and what start, stop and close do to it.

    A child list holds weak pointers: a child whose last client handle is gone is not `alive`, and the
    fan-out loops skip it.  `attached` says that a node's own work queue pointer is not null.  A node
    whose close request is put on a work queue is entered in a log, so the order of requests shows. */
module LifecycleTree {
  import opened ClientStates

  /** Where a node sits; `Whole` is the connection. */
  datatype Node = ConsumerOf(session: nat, index: nat) | ProducerOf(session: nat, index: nat)
      | SessionOf(session: nat) | Whole

  datatype Leaf = Leaf(alive: bool, state: ClientState, attached: bool)

  datatype Branch = Branch(alive: bool, state: ClientState, attached: bool, consumers: seq<Leaf>, producers: seq<Leaf>)

  datatype Root = Root(alive: bool, state: ClientState, attached: bool, sessions: seq<Branch>)

  datatype Action = Start | Stop | Close

  datatype Kind = Consumers | Producers

  /** What a call leaves behind; it threw if not `ok`. */
  datatype Outcome<T> = Outcome(ok: bool, node: T, log: seq<Node>)

  // ---------------------------------------------------------------- the calls

  /** A loop over the first `n` children, ended by the first exception. */
  function Each<N>(op: (nat, N) -> Outcome<N>, ns: seq<N>, n: nat): (r: Outcome<seq<N>>)
    requires n <= |ns|
    ensures |r.node| == |ns|
    decreases n
  {
    if n == 0 then Outcome(true, ns, [])
    else
      var before := Each(op, ns, n - 1);
      if !before.ok then before
      else
        var one := op(n - 1, ns[n - 1]);
        Outcome(one.ok, before.node[n - 1 := one.node], before.log + one.log)
  }

  function CallLeaf(a: Action, at: Node, l: Leaf): Outcome<Leaf> {
    match a
    case Start => if l.attached then Outcome(true, l.(state := Started), []) else Outcome(false, l, [])
    case Stop => if l.attached then Outcome(true, l.(state := Stopped), []) else Outcome(false, l, [])
    case Close =>
      if l.state == Closed then Outcome(true, l, [])
      else if l.attached then Outcome(true, l.(state := Closed, attached := false), [at])
      else Outcome(false, l, [])
  }

  function At(kind: Kind, s: nat, k: nat): Node {
    if kind == Consumers then ConsumerOf(s, k) else ProducerOf(s, k)
  }

  /** One turn of a session's loop over its consumers or its producers. */
  function OnLeaf(a: Action, kind: Kind, s: nat): (nat, Leaf) -> Outcome<Leaf> {
    (k: nat, l: Leaf) => if l.alive then CallLeaf(a, At(kind, s, k), l) else Outcome(true, l, [])
  }

  /** `start` and `stop` of a session and of a connection overwrite whatever state they find. */
  function After(a: Action): ClientState {
    match a case Start => Started case Stop => Stopped case Close => Closed
  }

  function CallBranch(a: Action, s: nat, b: Branch): Outcome<Branch> {
    if a == Close && !b.attached then Outcome(true, b, [])
    else
      var cs := Each(OnLeaf(a, Consumers, s), b.consumers, |b.consumers|);
      if !cs.ok then Outcome(false, b.(consumers := cs.node), cs.log)
      else if a != Close then Outcome(true, b.(consumers := cs.node, state := After(a)), cs.log)
      else
        var ps := Each(OnLeaf(Close, Producers, s), b.producers, |b.producers|);
        if !ps.ok then Outcome(false, b.(consumers := cs.node, producers := ps.node), cs.log + ps.log)
        else Outcome(true, Branch(b.alive, Closed, false, cs.node, ps.node), cs.log + ps.log + [SessionOf(s)])
  }

  function OnSession(a: Action): (nat, Branch) -> Outcome<Branch> {
    (s: nat, b: Branch) => if b.alive then CallBranch(a, s, b) else Outcome(true, b, [])
  }

  function CallRoot(a: Action, r: Root): Outcome<Root> {
    if a == Start && r.state == Closed then Outcome(false, r, [])
    else if a == Close && !r.attached then Outcome(true, r, [])
    else
      var bs := Each(OnSession(a), r.sessions, |r.sessions|);
      if !bs.ok then Outcome(false, r.(sessions := bs.node), bs.log)
      else if a != Close then Outcome(true, r.(sessions := bs.node, state := After(a)), bs.log)
      else Outcome(true, Root(r.alive, Closed, false, bs.node), bs.log + [Whole])
  }

  // ---------------------------------------------------------------- nodes of a tree

  predicate BranchHas(b: Branch, x: Node) {
    match x
    case ConsumerOf(_, k) => k < |b.consumers|
    case ProducerOf(_, k) => k < |b.producers|
    case SessionOf(_) => true
    case Whole => false
  }

  predicate Has(r: Root, x: Node) {
    x.Whole? || (x.session < |r.sessions| && BranchHas(r.sessions[x.session], x))
  }

  /** The node has a work queue of its own. */
  predicate BranchUp(b: Branch, x: Node) {
    match x
    case ConsumerOf(_, k) => k < |b.consumers| && b.consumers[k].attached
    case ProducerOf(_, k) => k < |b.producers| && b.producers[k].attached
    case SessionOf(_) => b.attached
    case Whole => false
  }

  predicate Up(r: Root, x: Node) {
    if x.Whole? then r.attached else x.session < |r.sessions| && BranchUp(r.sessions[x.session], x)
  }

  predicate Alive(r: Root, x: Node)
    requires Has(r, x)
  {
    match x
    case ConsumerOf(s, k) => r.sessions[s].consumers[k].alive
    case ProducerOf(s, k) => r.sessions[s].producers[k].alive
    case SessionOf(s) => r.sessions[s].alive
    case Whole => r.alive
  }

  /** `y` hangs somewhere below `x`. */
  predicate Below(x: Node, y: Node) {
    match x
    case Whole => !y.Whole?
    case SessionOf(s) => (y.ConsumerOf? || y.ProducerOf?) && y.session == s
    case _ => false
  }

  // ---------------------------------------------------------------- well-formed trees

  predicate Open(state: ClientState) {
    state == Started || state == Stopped
  }

  predicate LeafOk(l: Leaf) {
    (if l.attached then Open(l.state) else l.state == Closed) && (l.attached ==> l.alive)
  }

  /** A closed session keeps no child open, whatever its state field says. */
  predicate BranchOk(b: Branch) {
    && (b.attached ==> Open(b.state) && b.alive)
    && (forall k :: 0 <= k < |b.consumers| ==> LeafOk(b.consumers[k]) && (b.consumers[k].attached ==> b.attached))
    && (forall k :: 0 <= k < |b.producers| ==> LeafOk(b.producers[k]) && (b.producers[k].attached ==> b.attached))
  }

  predicate RootOk(r: Root) {
    && (r.attached ==> Open(r.state) && r.alive)
    && (forall s :: 0 <= s < |r.sessions| ==> BranchOk(r.sessions[s]) && (r.sessions[s].attached ==> r.attached))
  }

  // ---------------------------------------------------------------- meanwhile

  /** While the application waits for one node, a drain left over in an open consumer may end, which writes
      STOPPED into its state.  A stop through the consumer's own handle has the same effect on the tree. */
  predicate Settled(l: Leaf, m: Leaf) {
    m == l || (l.attached && m == l.(state := Stopped))
  }

  ghost predicate SettledBranch(b: Branch, c: Branch) {
    && |c.consumers| == |b.consumers| && c == b.(consumers := c.consumers)
    && forall k :: 0 <= k < |b.consumers| ==> Settled(b.consumers[k], c.consumers[k])
  }

  ghost predicate SettledBranches(bs: seq<Branch>, cs: seq<Branch>) {
    |cs| == |bs| && forall s :: 0 <= s < |bs| ==> SettledBranch(bs[s], cs[s])
  }

  ghost predicate SettledRoot(r: Root, t: Root) {
    t == r.(sessions := t.sessions) && SettledBranches(r.sessions, t.sessions)
  }

  /** No drain can end here any more. */
  ghost predicate Firm(b: Branch) {
    forall k :: 0 <= k < |b.consumers| && b.consumers[k].attached ==> b.consumers[k].state == Stopped
  }

  lemma FirmStays(b: Branch, c: Branch)
    requires Firm(b) && SettledBranch(b, c)
    ensures c == b
  {
    assert c.consumers == b.consumers;
  }

  lemma SettledItself(b: Branch)
    ensures SettledBranch(b, b)
  {}

  lemma SettledTwice(b: Branch, c: Branch, d: Branch)
    requires SettledBranch(b, c) && SettledBranch(c, d)
    ensures SettledBranch(b, d)
  {}

  lemma SettledOk(b: Branch, c: Branch)
    requires BranchOk(b) && SettledBranch(b, c)
    ensures BranchOk(c)
  {}

  // ---------------------------------------------------------------- loops

  lemma {:induction false} EachAt<N>(op: (nat, N) -> Outcome<N>, ns: seq<N>, n: nat)
    requires n <= |ns|
    ensures Each(op, ns, n).ok <==> forall k :: 0 <= k < n ==> op(k, ns[k]).ok
    ensures Each(op, ns, n).ok ==> forall k :: 0 <= k < n ==> Each(op, ns, n).node[k] == op(k, ns[k]).node
    ensures forall k :: n <= k < |ns| ==> Each(op, ns, n).node[k] == ns[k]
    decreases n
  {
    if n > 0 { EachAt(op, ns, n - 1); }
  }

  lemma {:induction false} EachTouches<N>(op: (nat, N) -> Outcome<N>, ns: seq<N>, n: nat)
    requires n <= |ns|
    ensures forall k :: 0 <= k < |ns| ==>
        Each(op, ns, n).node[k] == ns[k] || Each(op, ns, n).node[k] == op(k, ns[k]).node
    decreases n
  {
    if n > 0 {
      EachTouches(op, ns, n - 1);
      EachAt(op, ns, n - 1);
    }
  }

  lemma {:induction false} EachStops<N>(op: (nat, N) -> Outcome<N>, ns: seq<N>, m: nat, n: nat)
    requires m <= n <= |ns| && !Each(op, ns, m).ok
    ensures Each(op, ns, n) == Each(op, ns, m)
    decreases n
  {
    if m < n { EachStops(op, ns, m, n - 1); }
  }

  lemma {:induction false} EachLog<N>(op: (nat, N) -> Outcome<N>, ns: seq<N>, n: nat, x: Node)
    requires n <= |ns| && Each(op, ns, n).ok
    ensures x in Each(op, ns, n).log <==> exists k :: 0 <= k < n && x in op(k, ns[k]).log
    decreases n
  {
    if n > 0 {
      EachLog(op, ns, n - 1, x);
      var (before, one) := (Each(op, ns, n - 1), op(n - 1, ns[n - 1]));
      assert x in before.log + one.log <==> x in before.log || x in one.log;
    }
  }

  // ---------------------------------------------------------------- the order of close requests

  /** No node is entered twice, and none before a node below it. */
  ghost predicate Orderly(log: seq<Node>) {
    forall i, j :: 0 <= i < j < |log| ==> log[i] != log[j] && !Below(log[i], log[j])
  }

  ghost predicate Apart(log: seq<Node>, next: seq<Node>) {
    forall x, y :: x in log && y in next ==> x != y && !Below(x, y)
  }

  lemma OrderlyConcat(log: seq<Node>, next: seq<Node>)
    requires Orderly(log) && Orderly(next) && Apart(log, next)
    ensures Orderly(log + next)
  {
    forall i, j | 0 <= i < j < |log + next|
      ensures (log + next)[i] != (log + next)[j] && !Below((log + next)[i], (log + next)[j])
    {
      assert i < |log| ==> log[i] in log;
      assert |log| <= j ==> next[j - |log|] in next;
    }
  }

  /** In one call: session by session, in each the consumers in their order, then the producers, then the
      session itself, and the connection last. */
  predicate Sooner(x: Node, y: Node) {
    if x.Whole? || y.Whole? then !x.Whole?
    else if x.session != y.session then x.session < y.session
    else
      match x
      case ConsumerOf(_, k) => y.ConsumerOf? ==> k < y.index
      case ProducerOf(_, k) => !y.ConsumerOf? && (y.ProducerOf? ==> k < y.index)
      case SessionOf(_) => false
  }

  ghost predicate InCloseOrder(log: seq<Node>) {
    forall i, j :: 0 <= i < j < |log| ==> Sooner(log[i], log[j])
  }

  ghost predicate AllSooner(log: seq<Node>, next: seq<Node>) {
    forall x, y :: x in log && y in next ==> Sooner(x, y)
  }

  lemma InOrderIsOrderly(log: seq<Node>)
    requires InCloseOrder(log)
    ensures Orderly(log)
  {}

  lemma InOrderConcat(log: seq<Node>, next: seq<Node>)
    requires InCloseOrder(log) && InCloseOrder(next) && AllSooner(log, next)
    ensures InCloseOrder(log + next)
  {
    hide Sooner;
    forall i, j | 0 <= i < j < |log + next|
      ensures Sooner((log + next)[i], (log + next)[j])
    {
      assert i < |log| ==> log[i] in log;
      assert |log| <= j ==> next[j - |log|] in next;
    }
  }

  lemma {:induction false} EachInOrder<N>(op: (nat, N) -> Outcome<N>, ns: seq<N>, n: nat)
    requires n <= |ns| && Each(op, ns, n).ok
    requires forall k :: 0 <= k < n ==> InCloseOrder(op(k, ns[k]).log)
    requires forall j, k :: 0 <= j < k < n ==> AllSooner(op(j, ns[j]).log, op(k, ns[k]).log)
    ensures InCloseOrder(Each(op, ns, n).log)
    decreases n
  {
    hide Sooner;
    if n > 0 {
      EachInOrder(op, ns, n - 1);
      var (before, one) := (Each(op, ns, n - 1).log, op(n - 1, ns[n - 1]).log);
      forall x, y | x in before && y in one
        ensures Sooner(x, y)
      {
        EachLog(op, ns, n - 1, x);
        var k :| 0 <= k < n - 1 && x in op(k, ns[k]).log;
        assert AllSooner(op(k, ns[k]).log, one);
      }
      InOrderConcat(before, one);
    }
  }

  // ---------------------------------------------------------------- closing from the top

  /** A leaf that the close loop has passed. */
  function ClosedLeaf(l: Leaf): Leaf {
    l.(state := Closed, attached := false)
  }

  predicate LeafUp(kind: Kind, s: nat, ls: seq<Leaf>, x: Node) {
    && (if kind == Consumers then x.ConsumerOf? else x.ProducerOf?)
    && x.session == s && x.index < |ls| && ls[x.index].attached
  }

  lemma CloseOneLeaf(kind: Kind, s: nat, k: nat, l: Leaf)
    requires LeafOk(l)
    ensures var o := OnLeaf(Close, kind, s)(k, l);
            && o.ok && o.node == ClosedLeaf(l) && InCloseOrder(o.log)
            && o.log == if l.attached then [At(kind, s, k)] else []
  {}

  lemma LeavesInOrder(kind: Kind, s: nat, j: nat, k: nat, log: seq<Node>, next: seq<Node>)
    requires j < k && (forall x :: x in log ==> x == At(kind, s, j)) && (forall x :: x in next ==> x == At(kind, s, k))
    ensures AllSooner(log, next)
  {}

  lemma CloseLeaves(kind: Kind, s: nat, ls: seq<Leaf>)
    requires forall k :: 0 <= k < |ls| ==> LeafOk(ls[k])
    ensures Each(OnLeaf(Close, kind, s), ls, |ls|).ok
    ensures forall k :: 0 <= k < |ls| ==> Each(OnLeaf(Close, kind, s), ls, |ls|).node[k] == ClosedLeaf(ls[k])
    ensures InCloseOrder(Each(OnLeaf(Close, kind, s), ls, |ls|).log)
    ensures forall x :: x in Each(OnLeaf(Close, kind, s), ls, |ls|).log <==> LeafUp(kind, s, ls, x)
  {
    hide OnLeaf, Each, LeafOk, ClosedLeaf, At, InCloseOrder, AllSooner, LeafUp;
    var op := OnLeaf(Close, kind, s);
    forall k | 0 <= k < |ls|
      ensures op(k, ls[k]).ok && op(k, ls[k]).node == ClosedLeaf(ls[k]) && InCloseOrder(op(k, ls[k]).log)
      ensures op(k, ls[k]).log == if ls[k].attached then [At(kind, s, k)] else []
    {
      CloseOneLeaf(kind, s, k, ls[k]);
    }
    EachAt(op, ls, |ls|);
    forall j, k | 0 <= j < k < |ls|
      ensures AllSooner(op(j, ls[j]).log, op(k, ls[k]).log)
    {
      LeavesInOrder(kind, s, j, k, op(j, ls[j]).log, op(k, ls[k]).log);
    }
    EachInOrder(op, ls, |ls|);
    forall x
      ensures x in Each(op, ls, |ls|).log <==> LeafUp(kind, s, ls, x)
    {
      EachLog(op, ls, |ls|, x);
      LeafUpMeans(kind, s, ls, x);
      if LeafUp(kind, s, ls, x) {
        assert x in op(x.index, ls[x.index]).log;
      }
    }
  }

  lemma LeafUpMeans(kind: Kind, s: nat, ls: seq<Leaf>, x: Node)
    ensures LeafUp(kind, s, ls, x) ==>
        !x.Whole? && !x.SessionOf? && x.index < |ls| && ls[x.index].attached && x == At(kind, s, x.index)
    ensures forall k :: 0 <= k < |ls| && ls[k].attached && x == At(kind, s, k) ==> LeafUp(kind, s, ls, x)
  {}

  /** A closed session: same children, all of them closed. */
  ghost predicate AllClosed(before: Branch, after: Branch) {
    && !after.attached && after.alive == before.alive && BranchOk(after)
    && |after.consumers| == |before.consumers| && |after.producers| == |before.producers|
    && (forall k :: 0 <= k < |before.consumers| ==> after.consumers[k] == ClosedLeaf(before.consumers[k]))
    && (forall k :: 0 <= k < |before.producers| ==> after.producers[k] == ClosedLeaf(before.producers[k]))
  }

  lemma CloseBranch(s: nat, b: Branch)
    requires BranchOk(b)
    ensures CallBranch(Close, s, b).ok && AllClosed(b, CallBranch(Close, s, b).node)
    ensures InCloseOrder(CallBranch(Close, s, b).log)
    ensures forall x :: x in CallBranch(Close, s, b).log <==> !x.Whole? && x.session == s && BranchUp(b, x)
  {
    if b.attached {
      hide Each;
      CloseLeaves(Consumers, s, b.consumers);
      CloseLeaves(Producers, s, b.producers);
      var cs := Each(OnLeaf(Close, Consumers, s), b.consumers, |b.consumers|).log;
      var ps := Each(OnLeaf(Close, Producers, s), b.producers, |b.producers|).log;
      InOrderConcat(cs, ps);
      InOrderConcat(cs + ps, [SessionOf(s)]);
    }
  }

  lemma CloseOneSession(s: nat, b: Branch)
    requires BranchOk(b)
    ensures OnSession(Close)(s, b).ok && AllClosed(b, OnSession(Close)(s, b).node)
    ensures InCloseOrder(OnSession(Close)(s, b).log)
    ensures forall x :: x in OnSession(Close)(s, b).log <==> !x.Whole? && x.session == s && BranchUp(b, x)
  {
    hide CallBranch;
    CloseBranch(s, b);
  }

  lemma UnfoldClose(r: Root)
    ensures !r.attached ==> CallRoot(Close, r) == Outcome(true, r, [])
    ensures var bs := Each(OnSession(Close), r.sessions, |r.sessions|);
            r.attached && bs.ok ==> CallRoot(Close, r) == Outcome(true, Root(r.alive, Closed, false, bs.node),
                bs.log + [Whole])
  {
    hide Each, OnSession;
  }

  lemma DetachedHasNothingUp(r: Root, x: Node)
    requires RootOk(r) && !r.attached
    ensures !Up(r, x)
  {}

  lemma CloseRoot(r: Root)
    requires RootOk(r)
    ensures CallRoot(Close, r).ok && RootOk(CallRoot(Close, r).node)
    ensures !CallRoot(Close, r).node.attached && CallRoot(Close, r).node.alive == r.alive
    ensures InCloseOrder(CallRoot(Close, r).log)
    ensures forall x :: x in CallRoot(Close, r).log <==> Up(r, x)
  {
    hide Each, OnSession, CallRoot, RootOk, Up, InCloseOrder, AllClosed;
    UnfoldClose(r);
    if r.attached {
      SessionsOk(r);
      CloseSessions(r.sessions);
      var bs := Each(OnSession(Close), r.sessions, |r.sessions|);
      ClosedRootOk(r, bs.node);
      WholeLast(r, bs.log);
    } else {
      forall x ensures !Up(r, x) { DetachedHasNothingUp(r, x); }
      assert InCloseOrder([]) by { NothingInOrder(); }
    }
  }

  lemma NothingInOrder()
    ensures InCloseOrder([])
  {}

  lemma SessionsOk(r: Root)
    requires RootOk(r)
    ensures forall s :: 0 <= s < |r.sessions| ==> BranchOk(r.sessions[s])
  {}

  lemma ClosedRootOk(r: Root, after: seq<Branch>)
    requires |after| == |r.sessions| && forall s :: 0 <= s < |after| ==> AllClosed(r.sessions[s], after[s])
    ensures RootOk(Root(r.alive, Closed, false, after))
  {
    hide BranchOk;
  }

  lemma WholeLast(r: Root, log: seq<Node>)
    requires r.attached && InCloseOrder(log)
    requires forall x :: x in log <==> !x.Whole? && x.session < |r.sessions| && BranchUp(r.sessions[x.session], x)
    ensures InCloseOrder(log + [Whole]) && forall x :: x in log + [Whole] <==> Up(r, x)
  {
    hide BranchUp;
    InOrderConcat(log, [Whole]);
    assert forall x :: x in log + [Whole] <==> x in log || x == Whole;
  }

  lemma CloseSessions(bs: seq<Branch>)
    requires forall s :: 0 <= s < |bs| ==> BranchOk(bs[s])
    ensures Each(OnSession(Close), bs, |bs|).ok
    ensures forall s :: 0 <= s < |bs| ==> AllClosed(bs[s], Each(OnSession(Close), bs, |bs|).node[s])
    ensures InCloseOrder(Each(OnSession(Close), bs, |bs|).log)
    ensures forall x :: x in Each(OnSession(Close), bs, |bs|).log <==>
                          !x.Whole? && x.session < |bs| && BranchUp(bs[x.session], x)
  {
    var op := OnSession(Close);
    hide OnSession, Each, BranchOk, AllClosed, BranchUp, InCloseOrder, Sooner;
    forall s | 0 <= s < |bs|
      ensures op(s, bs[s]).ok && AllClosed(bs[s], op(s, bs[s]).node) && InCloseOrder(op(s, bs[s]).log)
      ensures forall x :: x in op(s, bs[s]).log <==> !x.Whole? && x.session == s && BranchUp(bs[s], x)
    {
      CloseOneSession(s, bs[s]);
    }
    EachAt(op, bs, |bs|);
    forall j, k | 0 <= j < k < |bs|
      ensures AllSooner(op(j, bs[j]).log, op(k, bs[k]).log)
    {
      SessionsInOrder(op(j, bs[j]).log, j, op(k, bs[k]).log, k);
    }
    EachInOrder(op, bs, |bs|);
    forall x
      ensures x in Each(op, bs, |bs|).log <==> !x.Whole? && x.session < |bs| && BranchUp(bs[x.session], x)
    {
      EachLog(op, bs, |bs|, x);
      if !x.Whole? && x.session < |bs| && BranchUp(bs[x.session], x) {
        assert x in op(x.session, bs[x.session]).log;
      }
    }
  }

  lemma SessionsInOrder(log: seq<Node>, j: nat, next: seq<Node>, k: nat)
    requires j < k
    requires forall x :: x in log ==> !x.Whole? && x.session == j
    requires forall x :: x in next ==> !x.Whole? && x.session == k
    ensures AllSooner(log, next)
  {}

  // ---------------------------------------------------------------- runs

  /** What the application does: a call through a live handle, the destructor behind the last handle of
      a node, or the creation of a child. */
  datatype Op = Call(at: Node, action: Action) | Drop(at: Node) | NewSession | NewConsumer(session: nat)
      | NewProducer(session: nat)

  predicate Enabled(r: Root, op: Op) {
    match op
    case Call(x, a) => Has(r, x) && Alive(r, x) && (x.ProducerOf? ==> a == Close)
    case Drop(x) => Has(r, x) && Alive(r, x)
    case NewSession => r.alive
    case NewConsumer(s) => s < |r.sessions| && r.sessions[s].alive
    case NewProducer(s) => s < |r.sessions| && r.sessions[s].alive
  }

  function CallAt(r: Root, x: Node, a: Action): Outcome<Root>
    requires Has(r, x)
  {
    match x
    case Whole => CallRoot(a, r)
    case SessionOf(s) =>
      var o := CallBranch(a, s, r.sessions[s]);
      Outcome(o.ok, WithBranch(r, s, o.node), o.log)
    case ConsumerOf(s, k) =>
      var b := r.sessions[s];
      var o := CallLeaf(a, x, b.consumers[k]);
      Outcome(o.ok, WithBranch(r, s, b.(consumers := b.consumers[k := o.node])), o.log)
    case ProducerOf(s, k) =>
      var b := r.sessions[s];
      var o := CallLeaf(a, x, b.producers[k]);
      Outcome(o.ok, WithBranch(r, s, b.(producers := b.producers[k := o.node])), o.log)
  }

  function WithBranch(r: Root, s: nat, b: Branch): Root
    requires s < |r.sessions|
  {
    r.(sessions := r.sessions[s := b])
  }

  /** The handle is gone, and every weak pointer to the node has expired. */
  function Release(r: Root, x: Node): Root
    requires Has(r, x)
  {
    match x
    case Whole => r.(alive := false)
    case SessionOf(s) => WithBranch(r, s, r.sessions[s].(alive := false))
    case ConsumerOf(s, k) =>
      var b := r.sessions[s];
      WithBranch(r, s, b.(consumers := b.consumers[k := b.consumers[k].(alive := false)]))
    case ProducerOf(s, k) =>
      var b := r.sessions[s];
      WithBranch(r, s, b.(producers := b.producers[k := b.producers[k].(alive := false)]))
  }

  const FRESH_LEAF := Leaf(true, Stopped, true)
  const FRESH_BRANCH := Branch(true, Stopped, true, [], [])
  const FRESH_ROOT := Root(true, Stopped, true, [])

  /** The same nodes, with the same handles. */
  ghost predicate SameShape(r: Root, t: Root) {
    forall x :: Has(r, x) == Has(t, x) && (Has(r, x) ==> Alive(r, x) == Alive(t, x))
  }

  ghost predicate SameBranchShape(b: Branch, c: Branch) {
    && |b.consumers| == |c.consumers| && |b.producers| == |c.producers| && b.alive == c.alive
    && (forall k :: 0 <= k < |b.consumers| ==> b.consumers[k].alive == c.consumers[k].alive)
    && (forall k :: 0 <= k < |b.producers| ==> b.producers[k].alive == c.producers[k].alive)
  }

  lemma LeavesKeepHandles(a: Action, kind: Kind, s: nat, ls: seq<Leaf>)
    ensures forall k :: 0 <= k < |ls| ==> Each(OnLeaf(a, kind, s), ls, |ls|).node[k].alive == ls[k].alive
  {
    EachTouches(OnLeaf(a, kind, s), ls, |ls|);
  }

  lemma BranchKeepsShape(a: Action, s: nat, b: Branch)
    ensures SameBranchShape(b, CallBranch(a, s, b).node)
  {
    hide Each, OnLeaf;
    LeavesKeepHandles(a, Consumers, s, b.consumers);
    LeavesKeepHandles(Close, Producers, s, b.producers);
  }

  lemma BranchesKeepShape(a: Action, bs: seq<Branch>)
    ensures forall s :: 0 <= s < |bs| ==> SameBranchShape(bs[s], Each(OnSession(a), bs, |bs|).node[s])
  {
    EachTouches(OnSession(a), bs, |bs|);
    forall s | 0 <= s < |bs|
      ensures SameBranchShape(bs[s], OnSession(a)(s, bs[s]).node)
    {
      BranchKeepsShape(a, s, bs[s]);
    }
  }

  ghost predicate SameRootShape(r: Root, t: Root) {
    && r.alive == t.alive && |r.sessions| == |t.sessions|
    && forall s :: 0 <= s < |r.sessions| ==> SameBranchShape(r.sessions[s], t.sessions[s])
  }

  lemma SameNodes(r: Root, t: Root)
    requires SameRootShape(r, t)
    ensures SameShape(r, t)
  {
    forall x: Node | !x.Whole? && x.session < |r.sessions|
      ensures Has(r, x) == Has(t, x) && (Has(r, x) ==> Alive(r, x) == Alive(t, x))
    {
      assert SameBranchShape(r.sessions[x.session], t.sessions[x.session]);
    }
  }

  lemma WithBranchShape(r: Root, s: nat, b: Branch)
    requires s < |r.sessions| && SameBranchShape(r.sessions[s], b)
    ensures SameRootShape(r, WithBranch(r, s, b))
  {}

  lemma RootKeepsShape(r: Root, a: Action)
    ensures SameRootShape(r, CallRoot(a, r).node)
  {
    hide Each, OnSession;
    BranchesKeepShape(a, r.sessions);
  }

  lemma KeepsShape(r: Root, x: Node, a: Action)
    requires Has(r, x)
    ensures SameShape(r, CallAt(r, x, a).node)
  {
    hide CallBranch, CallRoot, SameRootShape, WithBranch, SameShape;
    match x {
      case Whole => RootKeepsShape(r, a);
      case SessionOf(s) =>
        BranchKeepsShape(a, s, r.sessions[s]);
        WithBranchShape(r, s, CallBranch(a, s, r.sessions[s]).node);
      case ConsumerOf(s, k) =>
        var b := r.sessions[s];
        WithBranchShape(r, s, b.(consumers := b.consumers[k := CallLeaf(a, x, b.consumers[k]).node]));
      case ProducerOf(s, k) =>
        var b := r.sessions[s];
        WithBranchShape(r, s, b.(producers := b.producers[k := CallLeaf(a, x, b.producers[k]).node]));
    }
    SameNodes(r, CallAt(r, x, a).node);
  }

  /** A constructor throws on a null queue; a session also refuses while its state is CLOSED. */
  function Apply(r: Root, op: Op): Outcome<Root>
    requires Enabled(r, op)
  {
    match op
    case Call(x, a) => CallAt(r, x, a)
    case Drop(x) =>
      var o := CallAt(r, x, Close);
      KeepsShape(r, x, Close);
      Outcome(o.ok, Release(o.node, x), o.log)
    case NewSession =>
      if r.attached then Outcome(true, r.(sessions := r.sessions + [FRESH_BRANCH]), []) else Outcome(false, r, [])
    case NewConsumer(s) =>
      var b := r.sessions[s];
      if b.state == Closed || !b.attached then Outcome(false, r, [])
      else Outcome(true, WithBranch(r, s, b.(consumers := b.consumers + [FRESH_LEAF])), [])
    case NewProducer(s) =>
      var b := r.sessions[s];
      if b.state == Closed || !b.attached then Outcome(false, r, [])
      else Outcome(true, WithBranch(r, s, b.(producers := b.producers + [FRESH_LEAF])), [])
  }

  // ---------------------------------------------------------------- closing, from anywhere

  predicate Closes(op: Op) {
    (op.Call? && op.action == Close) || op.Drop?
  }

  /** The call or destructor closes this node: its own, or one above it. */
  predicate Covers(op: Op, y: Node) {
    Closes(op) && (op.at == y || Below(op.at, y))
  }

  ghost predicate ClosesExactly(r: Root, x: Node, o: Outcome<Root>) {
    && o.ok && RootOk(o.node) && InCloseOrder(o.log)
    && (forall y :: Up(o.node, y) <==> Up(r, y) && y != x && !Below(x, y))
    && (forall y :: y in o.log <==> Up(r, y) && (y == x || Below(x, y)))
  }

  lemma CloseWhole(r: Root)
    requires RootOk(r)
    ensures ClosesExactly(r, Whole, CallRoot(Close, r))
  {
    hide CallRoot;
    CloseRoot(r);
    forall y ensures !Up(CallRoot(Close, r).node, y) { DetachedHasNothingUp(CallRoot(Close, r).node, y); }
  }

  lemma CloseSession(r: Root, s: nat)
    requires RootOk(r) && s < |r.sessions|
    ensures ClosesExactly(r, SessionOf(s), CallAt(r, SessionOf(s), Close))
  {
    hide CallBranch;
    CloseBranch(s, r.sessions[s]);
  }

  lemma CloseConsumer(r: Root, s: nat, k: nat)
    requires RootOk(r) && Has(r, ConsumerOf(s, k))
    ensures ClosesExactly(r, ConsumerOf(s, k), CallAt(r, ConsumerOf(s, k), Close))
  {}

  lemma CloseProducer(r: Root, s: nat, k: nat)
    requires RootOk(r) && Has(r, ProducerOf(s, k))
    ensures ClosesExactly(r, ProducerOf(s, k), CallAt(r, ProducerOf(s, k), Close))
  {}

  lemma CloseAt(r: Root, x: Node)
    requires RootOk(r) && Has(r, x)
    ensures ClosesExactly(r, x, CallAt(r, x, Close))
  {
    hide CallRoot, CallAt, RootOk, Has;
    match x {
      case Whole => CloseWhole(r); CallWhole(r);
      case SessionOf(s) => SessionThere(r, s); CloseSession(r, s);
      case ConsumerOf(s, k) => CloseConsumer(r, s, k);
      case ProducerOf(s, k) => CloseProducer(r, s, k);
    }
  }

  lemma CallWhole(r: Root)
    ensures Has(r, Whole) && CallAt(r, Whole, Close) == CallRoot(Close, r)
  {}

  lemma SessionThere(r: Root, s: nat)
    requires Has(r, SessionOf(s))
    ensures s < |r.sessions|
  {}
}
