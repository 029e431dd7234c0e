/** Runs of the whole tree: closing in any order, the order of the close requests, and what a closed node
    can never do again. */
module Teardown {
  import opened ClientStates
  import opened LifecycleTree

  // ---------------------------------------------------------------- start and stop open and close nothing

  lemma {:induction false} EachSilent<N>(op: (nat, N) -> Outcome<N>, ns: seq<N>, n: nat)
    requires n <= |ns| && forall k :: 0 <= k < n ==> op(k, ns[k]).log == []
    ensures Each(op, ns, n).log == []
    decreases n
  {
    if n > 0 { EachSilent(op, ns, n - 1); }
  }

  /** Nothing but the state fields of open nodes, and of sessions and connections, has changed. */
  ghost predicate CalmBranch(b: Branch, c: Branch) {
    && SameBranchShape(b, c) && BranchOk(c) && b.attached == c.attached
    && (forall k :: 0 <= k < |b.consumers| ==> b.consumers[k].attached == c.consumers[k].attached)
    && c.producers == b.producers
  }

  lemma CalmConsumers(a: Action, s: nat, ls: seq<Leaf>)
    requires a != Close && forall k :: 0 <= k < |ls| ==> LeafOk(ls[k])
    ensures Each(OnLeaf(a, Consumers, s), ls, |ls|).log == []
    ensures var after := Each(OnLeaf(a, Consumers, s), ls, |ls|).node;
            forall k :: 0 <= k < |ls| ==>
              LeafOk(after[k]) && after[k].attached == ls[k].attached && after[k].alive == ls[k].alive
  {
    var op := OnLeaf(a, Consumers, s);
    EachTouches(op, ls, |ls|);
    EachSilent(op, ls, |ls|);
    hide Each;
  }

  lemma CalmSession(a: Action, s: nat, b: Branch)
    requires BranchOk(b) && a != Close
    ensures CalmBranch(b, CallBranch(a, s, b).node) && CallBranch(a, s, b).log == []
  {
    hide Each, OnLeaf, LeafOk;
    CalmConsumers(a, s, b.consumers);
  }

  ghost predicate CalmRoot(r: Root, t: Root) {
    && t.alive == r.alive && t.attached == r.attached && (t.attached ==> Open(t.state)) && |t.sessions| == |r.sessions|
    && forall s :: 0 <= s < |r.sessions| ==> CalmBranch(r.sessions[s], t.sessions[s])
  }

  lemma UpAcross(b: Branch, c: Branch, y: Node)
    requires CalmBranch(b, c)
    ensures BranchUp(b, y) == BranchUp(c, y)
  {}

  lemma CalmMeans(r: Root, t: Root)
    requires RootOk(r) && CalmRoot(r, t)
    ensures RootOk(t) && forall y :: Up(t, y) <==> Up(r, y)
  {
    hide BranchOk, CalmBranch, BranchUp;
    forall s | 0 <= s < |r.sessions|
      ensures BranchOk(t.sessions[s]) && t.sessions[s].attached == r.sessions[s].attached
    {
      assert CalmBranch(r.sessions[s], t.sessions[s]);
      CalmHead(r.sessions[s], t.sessions[s]);
    }
    forall y: Node | !y.Whole? && y.session < |r.sessions|
      ensures Up(t, y) == Up(r, y)
    {
      UpAcross(r.sessions[y.session], t.sessions[y.session], y);
    }
  }

  lemma CalmHead(b: Branch, c: Branch)
    requires CalmBranch(b, c)
    ensures BranchOk(c) && b.attached == c.attached
  {}

  lemma CalmItself(b: Branch)
    requires BranchOk(b)
    ensures CalmBranch(b, b)
  {}

  lemma CalmWhole(a: Action, r: Root)
    requires RootOk(r) && a != Close
    ensures CalmRoot(r, CallRoot(a, r).node) && CallRoot(a, r).log == []
  {
    var op := OnSession(a);
    hide BranchOk, CalmBranch, CallBranch, Each;
    forall s | 0 <= s < |r.sessions|
      ensures op(s, r.sessions[s]).log == [] && CalmBranch(r.sessions[s], op(s, r.sessions[s]).node)
      ensures CalmBranch(r.sessions[s], r.sessions[s])
    {
      CalmSession(a, s, r.sessions[s]);
      CalmItself(r.sessions[s]);
    }
    EachTouches(op, r.sessions, |r.sessions|);
    EachSilent(op, r.sessions, |r.sessions|);
  }

  lemma CalmOne(r: Root, s: nat, b: Branch)
    requires RootOk(r) && s < |r.sessions| && CalmBranch(r.sessions[s], b)
    ensures CalmRoot(r, WithBranch(r, s, b))
  {
    hide BranchOk, CalmBranch;
    forall i | 0 <= i < |r.sessions|
      ensures CalmBranch(r.sessions[i], WithBranch(r, s, b).sessions[i])
    {
      CalmItself(r.sessions[i]);
    }
  }

  lemma CalmLeaf(a: Action, x: Node, b: Branch)
    requires BranchOk(b) && a != Close && x.ConsumerOf? && x.index < |b.consumers|
    ensures CalmBranch(b, b.(consumers := b.consumers[x.index := CallLeaf(a, x, b.consumers[x.index]).node]))
  {}

  lemma CalmAt(r: Root, x: Node, a: Action)
    requires RootOk(r) && Has(r, x) && a != Close && !x.ProducerOf?
    ensures CalmRoot(r, CallAt(r, x, a).node) && CallAt(r, x, a).log == []
  {
    hide CallBranch, CallRoot, CalmRoot, WithBranch, CalmBranch, BranchOk;
    match x {
      case Whole => CalmWhole(a, r);
      case SessionOf(s) =>
        CalmSession(a, s, r.sessions[s]);
        CalmOne(r, s, CallBranch(a, s, r.sessions[s]).node);
      case ConsumerOf(s, k) =>
        var b := r.sessions[s];
        CalmLeaf(a, x, b);
        CalmOne(r, s, b.(consumers := b.consumers[k := CallLeaf(a, x, b.consumers[k]).node]));
    }
  }

  // ---------------------------------------------------------------- one step of the application

  lemma ReleaseKeeps(r: Root, x: Node)
    requires RootOk(r) && Has(r, x) && !Up(r, x)
    ensures RootOk(Release(r, x))
    ensures forall y :: Has(Release(r, x), y) == Has(r, y) && Up(Release(r, x), y) == Up(r, y)
  {
    hide LeafOk, BranchOk;
    match x {
      case Whole =>
      case SessionOf(s) => ReleaseInSession(r.sessions[s], x, r.sessions[s].(alive := false));
      case ConsumerOf(s, k) =>
        var b := r.sessions[s];
        ReleaseInSession(b, x, b.(consumers := b.consumers[k := b.consumers[k].(alive := false)]));
      case ProducerOf(s, k) =>
        var b := r.sessions[s];
        ReleaseInSession(b, x, b.(producers := b.producers[k := b.producers[k].(alive := false)]));
    }
  }

  lemma ReleaseInSession(b: Branch, x: Node, c: Branch)
    requires BranchOk(b) && !BranchUp(b, x) && BranchHas(b, x)
    requires match x
      case ConsumerOf(_, k) => c == b.(consumers := b.consumers[k := b.consumers[k].(alive := false)])
      case ProducerOf(_, k) => c == b.(producers := b.producers[k := b.producers[k].(alive := false)])
      case _ => c == b.(alive := false)
    ensures BranchOk(c) && c.attached == b.attached
    ensures forall y :: BranchUp(c, y) == BranchUp(b, y) && BranchHas(c, y) == BranchHas(b, y)
  {}

  /** New nodes are open, and nothing else changes. */
  ghost predicate Grows(r: Root, t: Root) {
    && RootOk(t)
    && (forall y :: Has(r, y) ==> Has(t, y) && Up(t, y) == Up(r, y))
    && (forall y :: Has(t, y) && !Has(r, y) ==> Up(t, y))
  }

  lemma NewSessionGrows(r: Root)
    requires RootOk(r) && r.attached
    ensures Grows(r, r.(sessions := r.sessions + [FRESH_BRANCH]))
  {}

  lemma NewConsumerGrows(r: Root, s: nat)
    requires RootOk(r) && s < |r.sessions| && r.sessions[s].attached
    ensures Grows(r, WithBranch(r, s, r.sessions[s].(consumers := r.sessions[s].consumers + [FRESH_LEAF])))
  {}

  lemma NewProducerGrows(r: Root, s: nat)
    requires RootOk(r) && s < |r.sessions| && r.sessions[s].attached
    ensures Grows(r, WithBranch(r, s, r.sessions[s].(producers := r.sessions[s].producers + [FRESH_LEAF])))
  {}

  /** One step, of any kind: what it closes is what it covers, each once and children first; a closing
      step never throws. */
  ghost predicate StepsWell(r: Root, op: Op, o: Outcome<Root>) {
    && RootOk(o.node) && Orderly(o.log)
    && (forall y :: Has(r, y) ==> Has(o.node, y) && (Up(o.node, y) <==> Up(r, y) && !Covers(op, y)))
    && (forall y :: Has(o.node, y) && !Has(r, y) ==> Up(o.node, y))
    && (forall y :: y in o.log <==> Up(r, y) && Covers(op, y))
    && (Closes(op) ==> o.ok)
  }

  lemma NothingIsOrderly()
    ensures Orderly([])
  {}

  lemma StepCall(r: Root, x: Node, a: Action)
    requires RootOk(r) && Enabled(r, Call(x, a))
    ensures StepsWell(r, Call(x, a), CallAt(r, x, a))
  {
    hide CallAt, Up, RootOk, Orderly, CalmRoot, Has, Alive;
    KeepsShape(r, x, a);
    if a == Close {
      CloseAt(r, x);
      InOrderIsOrderly(CallAt(r, x, a).log);
    } else {
      CalmAt(r, x, a);
      CalmMeans(r, CallAt(r, x, a).node);
      assert Orderly([]) by { NothingIsOrderly(); }
    }
  }

  lemma StepDrop(r: Root, x: Node)
    requires RootOk(r) && Enabled(r, Drop(x))
    ensures StepsWell(r, Drop(x), Apply(r, Drop(x)))
  {
    hide CallAt, Up, RootOk, Orderly, Has, Release, Alive;
    KeepsShape(r, x, Close);
    CloseAt(r, x);
    InOrderIsOrderly(CallAt(r, x, Close).log);
    ReleaseKeeps(CallAt(r, x, Close).node, x);
  }

  lemma StepNew(r: Root, op: Op)
    requires RootOk(r) && Enabled(r, op) && !op.Call? && !op.Drop?
    ensures StepsWell(r, op, Apply(r, op))
  {
    NothingIsOrderly();
    hide Up, RootOk, Orderly, Has, WithBranch;
    var grown := Apply(r, op).ok;
    match op {
      case NewSession => if grown { NewSessionGrows(r); }
      case NewConsumer(s) => if grown { NewConsumerGrows(r, s); }
      case NewProducer(s) => if grown { NewProducerGrows(r, s); }
    }
  }

  lemma StepAny(r: Root, op: Op)
    requires RootOk(r) && Enabled(r, op)
    ensures StepsWell(r, op, Apply(r, op))
  {
    hide CallAt, StepsWell, RootOk, Has, Alive;
    match op {
      case Call(x, a) => StepCall(r, x, a);
      case Drop(x) => StepDrop(r, x);
      case _ => StepNew(r, op);
    }
  }

  // ---------------------------------------------------------------- runs

  predicate IsRun(r: Root, ops: seq<Op>)
    decreases |ops|
  {
    ops == [] || (Enabled(r, ops[0]) && IsRun(Apply(r, ops[0]).node, ops[1..]))
  }

  /** An exception does not end the run: the application may catch it and go on. */
  function Exec(r: Root, ops: seq<Op>): Root
    requires IsRun(r, ops)
    decreases |ops|
  {
    if ops == [] then r else Exec(Apply(r, ops[0]).node, ops[1..])
  }

  /** The close requests of the whole run, in order. */
  function Log(r: Root, ops: seq<Op>): seq<Node>
    requires IsRun(r, ops)
    decreases |ops|
  {
    if ops == [] then [] else Apply(r, ops[0]).log + Log(Apply(r, ops[0]).node, ops[1..])
  }

  predicate NoCloseThrows(r: Root, ops: seq<Op>)
    requires IsRun(r, ops)
    decreases |ops|
  {
    ops == [] || ((Closes(ops[0]) ==> Apply(r, ops[0]).ok) && NoCloseThrows(Apply(r, ops[0]).node, ops[1..]))
  }

  predicate Covered(ops: seq<Op>, x: Node) {
    exists k :: 0 <= k < |ops| && Covers(ops[k], x)
  }

  lemma CoveredHead(ops: seq<Op>, x: Node)
    requires ops != []
    ensures Covered(ops, x) <==> Covers(ops[0], x) || Covered(ops[1..], x)
  {
    if Covered(ops, x) && !Covers(ops[0], x) {
      var k :| 0 <= k < |ops| && Covers(ops[k], x);
      assert Covers(ops[1..][k - 1], x);
    } else if Covered(ops[1..], x) {
      var k :| 0 <= k < |ops[1..]| && Covers(ops[1..][k], x);
      assert Covers(ops[k + 1], x);
    }
  }

  lemma StepFacts(r: Root, op: Op)
    requires RootOk(r) && Enabled(r, op)
    ensures RootOk(Apply(r, op).node) && Orderly(Apply(r, op).log)
    ensures Closes(op) ==> Apply(r, op).ok
  {
    hide RootOk, Orderly, Apply;
    StepAny(r, op);
  }

  lemma StepAt(r: Root, op: Op, x: Node)
    requires RootOk(r) && Enabled(r, op)
    ensures Has(r, x) ==> Has(Apply(r, op).node, x) && (Up(Apply(r, op).node, x) <==> Up(r, x) && !Covers(op, x))
    ensures Has(Apply(r, op).node, x) && !Has(r, x) ==> Up(Apply(r, op).node, x)
    ensures x in Apply(r, op).log <==> Up(r, x) && Covers(op, x)
  {
    hide RootOk, Orderly, Apply, Has, Up, Covers;
    StepAny(r, op);
  }

  /** Teardown in any order: whatever calls a run makes, no close or destructor ever throws, and a node
      that was there at the start is open at the end exactly if it was open and the run closed neither
      it nor anything above it. */
  lemma {:induction false} TeardownInAnyOrder(r: Root, ops: seq<Op>, x: Node)
    requires RootOk(r) && IsRun(r, ops)
    ensures RootOk(Exec(r, ops)) && NoCloseThrows(r, ops)
    ensures Has(r, x) ==> Has(Exec(r, ops), x) && (Up(Exec(r, ops), x) <==> Up(r, x) && !Covered(ops, x))
    decreases |ops|
  {
    hide RootOk, Has, Up, Apply, Covered, Covers;
    if ops == [] {
      NothingCovered(x);
    } else {
      StepFacts(r, ops[0]);
      StepAt(r, ops[0], x);
      CoveredHead(ops, x);
      TeardownInAnyOrder(Apply(r, ops[0]).node, ops[1..], x);
    }
  }

  lemma NothingCovered(x: Node)
    ensures !Covered([], x)
  {}

  /** Every closed node's request was queued, exactly once, and after those of everything below it. */
  ghost predicate LogOk(r: Root, log: seq<Node>) {
    Orderly(log) && forall x :: x in log <==> Has(r, x) && !Up(r, x)
  }

  lemma UpAbove(r: Root, x: Node, y: Node)
    requires RootOk(r) && Below(x, y) && Up(r, y)
    ensures Up(r, x)
  {}

  lemma LogStep(r: Root, log: seq<Node>, op: Op)
    requires RootOk(r) && LogOk(r, log) && Enabled(r, op)
    ensures LogOk(Apply(r, op).node, log + Apply(r, op).log)
  {
    hide RootOk, Orderly, Apply, Has, Up, Covers, Below;
    var o := Apply(r, op);
    StepFacts(r, op);
    forall x, y | x in log && y in o.log
      ensures x != y && !Below(x, y)
    {
      StepAt(r, op, y);
      if Below(x, y) { UpAbove(r, x, y); }
    }
    OrderlyConcat(log, o.log);
    forall x
      ensures x in log + o.log <==> Has(o.node, x) && !Up(o.node, x)
    {
      StepAt(r, op, x);
      UpIsThere(r, x);
      assert x in log + o.log <==> x in log || x in o.log;
    }
  }

  lemma UpIsThere(r: Root, x: Node)
    ensures Up(r, x) ==> Has(r, x)
  {}

  lemma {:induction false} LogRun(r: Root, log: seq<Node>, ops: seq<Op>)
    requires RootOk(r) && LogOk(r, log) && IsRun(r, ops)
    ensures LogOk(Exec(r, ops), log + Log(r, ops))
    decreases |ops|
  {
    hide RootOk, LogOk, Apply;
    if ops == [] {
      assert log + [] == log;
    } else {
      var o := Apply(r, ops[0]);
      StepFacts(r, ops[0]);
      LogStep(r, log, ops[0]);
      LogRun(o.node, log + o.log, ops[1..]);
      assert log + (o.log + Log(o.node, ops[1..])) == log + o.log + Log(o.node, ops[1..]);
    }
  }

  /** From a new connection on: a node's close request is queued once if the node is closed in the end and
      never otherwise, and children come before their parents. */
  lemma CloseRequestsAreOrderly(ops: seq<Op>)
    requires IsRun(FRESH_ROOT, ops)
    ensures LogOk(Exec(FRESH_ROOT, ops), Log(FRESH_ROOT, ops))
  {
    assert LogOk(FRESH_ROOT, []);
    LogRun(FRESH_ROOT, [], ops);
    assert [] + Log(FRESH_ROOT, ops) == Log(FRESH_ROOT, ops);
  }

  // ---------------------------------------------------------------- closed for good

  /** Everything that needs the node's work queue throws. */
  predicate Refuses(t: Root, x: Node) {
    match x
    case Whole => Enabled(t, NewSession) ==> !Apply(t, NewSession).ok
    case SessionOf(s) =>
      && (Enabled(t, NewConsumer(s)) ==> !Apply(t, NewConsumer(s)).ok)
      && (Enabled(t, NewProducer(s)) ==> !Apply(t, NewProducer(s)).ok)
    case ConsumerOf(_, _) => Has(t, x) && !CallAt(t, x, Start).ok && !CallAt(t, x, Stop).ok
    case ProducerOf(_, _) => true
  }

  /** Once closed, a node stays closed whatever the application calls: its queue stays null, its close
      request is never queued again, no child is ever added below it, nothing below it is open, and
      calls that need the queue throw, even when start or stop has overwritten the state field. */
  lemma {:induction false} ClosedIsAbsorbing(r: Root, x: Node, ops: seq<Op>)
    requires RootOk(r) && Has(r, x) && !Up(r, x) && IsRun(r, ops)
    ensures Has(Exec(r, ops), x) && !Up(Exec(r, ops), x) && x !in Log(r, ops) && Refuses(Exec(r, ops), x)
    ensures forall y :: Below(x, y) && Has(Exec(r, ops), y) ==> Has(r, y) && !Up(Exec(r, ops), y)
    decreases |ops|
  {
    hide RootOk, Has, Up, Apply, Covers, Below, Refuses;
    if ops == [] {
      NullQueueRefuses(r, x);
      forall y | Below(x, y) ensures !Up(r, y) { if Up(r, y) { UpAbove(r, x, y); } }
    } else {
      var t := Apply(r, ops[0]).node;
      StepFacts(r, ops[0]);
      StepAt(r, ops[0], x);
      ClosedIsAbsorbing(t, x, ops[1..]);
      forall y | Below(x, y) && Has(Exec(r, ops), y)
        ensures Has(r, y)
      {
        StepAt(r, ops[0], y);
        if Up(t, y) { UpAbove(t, x, y); }
      }
    }
  }

  lemma NullQueueRefuses(r: Root, x: Node)
    requires RootOk(r) && Has(r, x) && !Up(r, x)
    ensures Refuses(r, x)
  {}

  // ---------------------------------------------------------------- handles

  lemma ReleaseAlive(r: Root, y: Node, x: Node)
    requires Has(r, y) && Has(r, x)
    ensures Has(Release(r, y), x) && (Alive(Release(r, y), x) <==> Alive(r, x) && x != y)
  {}

  lemma GrowthAlive(r: Root, op: Op, x: Node)
    requires Enabled(r, op) && Has(r, x) && !op.Call? && !op.Drop?
    ensures Has(Apply(r, op).node, x) && Alive(Apply(r, op).node, x) == Alive(r, x)
  {}

  /** Only the destructor takes a node's last handle, and it takes no other's. */
  lemma HandleStep(r: Root, op: Op, x: Node)
    requires Enabled(r, op) && Has(r, x)
    ensures Has(Apply(r, op).node, x) && (Alive(Apply(r, op).node, x) <==> Alive(r, x) && op != Drop(x))
  {
    hide CallAt, Has, Alive, Release;
    match op {
      case Call(y, a) => KeepsShape(r, y, a);
      case Drop(y) =>
        KeepsShape(r, y, Close);
        ReleaseAlive(CallAt(r, y, Close).node, y, x);
      case _ => GrowthAlive(r, op, x);
    }
  }

  /** A dropped node stays dropped: no run calls it again, and none brings its handle back. */
  lemma {:induction false} DroppedForGood(r: Root, x: Node, ops: seq<Op>)
    requires Has(r, x) && !Alive(r, x) && IsRun(r, ops)
    ensures Has(Exec(r, ops), x) && !Alive(Exec(r, ops), x)
    ensures forall k :: 0 <= k < |ops| ==> !(ops[k].Call? && ops[k].at == x) && ops[k] != Drop(x)
    decreases |ops|
  {
    hide Has, Alive, Apply;
    if ops != [] {
      HandleStep(r, ops[0], x);
      DroppedForGood(Apply(r, ops[0]).node, x, ops[1..]);
      assert forall k :: 0 < k < |ops| ==> ops[k] == ops[1..][k - 1];
    }
  }

  /** The state field alone does not tell: a closed session that is started again reads STARTED, and
      still refuses a consumer. */
  const CLOSE_THEN_START: seq<Op> := [NewSession, Call(SessionOf(0), Close), Call(SessionOf(0), Start)]

  lemma Before(r: Root, op: Op, t: Root, rest: seq<Op>, ops: seq<Op>, last: Root)
    requires Enabled(r, op) && Apply(r, op).node == t && IsRun(t, rest) && Exec(t, rest) == last
    requires ops != [] && ops[0] == op && ops[1..] == rest
    ensures IsRun(r, ops) && Exec(r, ops) == last
  {
    hide Apply, Enabled;
  }

  lemma NoSteps(r: Root)
    ensures IsRun(r, []) && Exec(r, []) == r
  {}

  const CLOSED_SESSION := Branch(true, Closed, false, [], [])
  const STARTED_SESSION := Branch(true, Started, false, [], [])

  lemma NewSessionStep()
    ensures Enabled(FRESH_ROOT, NewSession)
    ensures Apply(FRESH_ROOT, NewSession).node == FRESH_ROOT.(sessions := [FRESH_BRANCH])
  {
    assert [] + [FRESH_BRANCH] == [FRESH_BRANCH];
  }

  lemma SessionStep(b: Branch, a: Action)
    requires b.alive
    ensures var r := FRESH_ROOT.(sessions := [b]);
            && Enabled(r, Call(SessionOf(0), a))
            && Apply(r, Call(SessionOf(0), a)).node == FRESH_ROOT.(sessions := [CallBranch(a, 0, b).node])
  {
    hide CallBranch;
    assert [b][0 := CallBranch(a, 0, b).node] == [CallBranch(a, 0, b).node];
  }

  lemma StateIsOverwritten()
    ensures IsRun(FRESH_ROOT, CLOSE_THEN_START)
    ensures Exec(FRESH_ROOT, CLOSE_THEN_START).sessions == [STARTED_SESSION]
    ensures Refuses(Exec(FRESH_ROOT, CLOSE_THEN_START), SessionOf(0))
  {
    var ops := CLOSE_THEN_START;
    var last := FRESH_ROOT.(sessions := [STARTED_SESSION]);
    assert CallBranch(Close, 0, FRESH_BRANCH).node == CLOSED_SESSION;
    assert CallBranch(Start, 0, CLOSED_SESSION).node == STARTED_SESSION;
    assert Refuses(last, SessionOf(0));
    hide Apply, Enabled, IsRun, Exec, CallBranch, Refuses;
    NewSessionStep();
    SessionStep(FRESH_BRANCH, Close);
    SessionStep(CLOSED_SESSION, Start);
    NoSteps(last);
    var closed := FRESH_ROOT.(sessions := [CLOSED_SESSION]);
    Before(closed, ops[2], last, [], ops[2..], last);
    Before(FRESH_ROOT.(sessions := [FRESH_BRANCH]), ops[1], closed, ops[2..], ops[1..], last);
    Before(FRESH_ROOT, ops[0], FRESH_ROOT.(sessions := [FRESH_BRANCH]), ops[1..], ops, last);
  }
}
