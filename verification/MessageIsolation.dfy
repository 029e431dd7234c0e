/** Who can change a message that has been sent: a store of proton messages, the client's handles on
    them, and the queue of captured messages, over any run of client operations. */
module MessageIsolation {
  import opened Prelude
  import opened NumberText
  import opened Messages

  datatype HandleKind = TextHandle | BytesHandle | PlainHandle

  /** A message object of the client: which proton message it wraps, and the body a bytes message keeps. */
  datatype Handle = Handle(kind: HandleKind, cell: nat, body: seq<byte>)

  /** A captured message, with what it contained when it was sent. */
  datatype Captured = Captured(cell: nat, snapshot: MessageData)

  datatype World = World(cells: seq<MessageData>, handles: map<nat, Handle>, queue: seq<Captured>)

  datatype Op =
    | New(h: nat, kind: HandleKind, data: MessageData, body: seq<byte>)
    | Change(h: nat, data: MessageData)
    | ChangeBody(h: nat, body: seq<byte>)
    | Clone(h: nat, copy: nat)
    | Send(h: nat, stamp: Stamp)
    | Delete(h: nat)

  predicate Allowed(w: World, op: Op) {
    match op
    case New(_, _, _, _) => true
    case Send(h, stamp) => h in w.handles && StampOk(stamp)
    case _ => op.h in w.handles
  }

  /** The wrapper's copy constructor: a new proton message, except for a plain message. */
  function CopyOf(w: World, h: Handle): (World, Handle)
    requires h.cell < |w.cells|
  {
    if h.kind == PlainHandle then (w, h)
    else (w.(cells := w.cells + [w.cells[h.cell]]), h.(cell := |w.cells|))
  }

  function Content(w: World, h: Handle): MessageData
    requires h.cell < |w.cells|
  {
    if h.kind == BytesHandle then w.cells[h.cell].(body := BinaryBody(h.body)) else w.cells[h.cell]
  }

  function Apply(w: World, op: Op): World
    requires Allowed(w, op) && WellFormed(w)
  {
    match op
    case New(h, kind, data, body) =>
      World(w.cells + [data], w.handles[h := Handle(kind, |w.cells|, body)], w.queue)
    case Change(h, data) => w.(cells := w.cells[w.handles[h].cell := data])
    case ChangeBody(h, body) => w.(handles := w.handles[h := w.handles[h].(body := body)])
    case Clone(h, copy) =>
      var (v, c) := CopyOf(w, w.handles[h]);
      v.(handles := v.handles[copy := c])
    case Send(h, stamp) =>
      var (v, c) := CopyOf(w, w.handles[h]);
      var data := Stamped(Content(v, c), stamp);
      World(v.cells[c.cell := data], v.handles, v.queue + [Captured(c.cell, data)])
    case Delete(h) => w.(handles := w.handles - {h})
  }

  predicate WellFormed(w: World) {
    && (forall h :: h in w.handles ==> w.handles[h].cell < |w.cells|)
    && (forall k :: 0 <= k < |w.queue| ==> w.queue[k].cell < |w.cells|)
  }

  ghost predicate Does(w: World, op: Op, v: World) {
    WellFormed(w) && Allowed(w, op) && v == Apply(w, op)
  }

  /** A send that the producer refuses has captured nothing, but has stamped a plain message. */
  ghost predicate Refused(w: World, h: nat, stamp: Stamp, v: World) {
    && WellFormed(w) && Allowed(w, Send(h, stamp))
    && v == if w.handles[h].kind == PlainHandle then Apply(w, Send(h, stamp)).(queue := w.queue) else w
  }

  /** No handle reaches a captured message, and no two captured messages are one. */
  predicate Isolated(w: World) {
    && WellFormed(w)
    && (forall h, k :: h in w.handles && 0 <= k < |w.queue| ==> w.handles[h].cell != w.queue[k].cell)
    && (forall j, k :: 0 <= j < k < |w.queue| ==> w.queue[j].cell != w.queue[k].cell)
  }

  /** Every captured message still contains what it contained when it was sent. */
  predicate Intact(w: World) {
    && (forall k :: 0 <= k < |w.queue| ==> w.queue[k].cell < |w.cells|)
    && (forall k :: 0 <= k < |w.queue| ==> w.cells[w.queue[k].cell] == w.queue[k].snapshot)
  }

  predicate SendsPlain(w: World, op: Op) {
    op.Send? && op.h in w.handles && w.handles[op.h].kind == PlainHandle
  }

  lemma StepWellFormed(w: World, op: Op)
    requires WellFormed(w) && Allowed(w, op)
    ensures WellFormed(Apply(w, op))
  {}

  /** A send keeps the messages apart exactly when the message is not a plain one. */
  lemma SendIsolatesIff(w: World, h: nat, stamp: Stamp)
    requires Isolated(w) && Allowed(w, Send(h, stamp))
    ensures Isolated(Apply(w, Send(h, stamp))) <==> w.handles[h].kind != PlainHandle
  {
    var v := Apply(w, Send(h, stamp));
    StepWellFormed(w, Send(h, stamp));
    if w.handles[h].kind == PlainHandle {
      assert v.handles[h].cell == v.queue[|w.queue|].cell;
    } else {
      assert forall k :: 0 <= k < |w.queue| ==> v.queue[k] == w.queue[k] && w.queue[k].cell < |w.cells|;
    }
  }

  /** Sending leaves the caller's message as it was, unless it is a plain one. */
  lemma SendLeavesTheCallersMessage(w: World, h: nat, stamp: Stamp)
    requires WellFormed(w) && Allowed(w, Send(h, stamp)) && w.handles[h].kind != PlainHandle
    ensures var v := Apply(w, Send(h, stamp));
            && v.handles == w.handles
            && forall g :: g in w.handles ==>
                 w.handles[g].cell < |v.cells| && Content(v, w.handles[g]) == Content(w, w.handles[g])
  {}

  lemma StepKeepsIsolation(w: World, op: Op)
    requires Isolated(w) && Intact(w) && Allowed(w, op) && !SendsPlain(w, op)
    ensures Isolated(Apply(w, op)) && Intact(Apply(w, op))
  {
    StepWellFormed(w, op);
    if op.Send? { SendIsolatesIff(w, op.h, op.stamp); }
  }

  /** A run of client operations in which no plain message is sent. */
  predicate CleanRun(w: World, ops: seq<Op>)
    requires WellFormed(w)
    decreases |ops|
  {
    ops == [] ||
    (&& Allowed(w, ops[0]) && !SendsPlain(w, ops[0])
     && (StepWellFormed(w, ops[0]); CleanRun(Apply(w, ops[0]), ops[1..])))
  }

  function After(w: World, ops: seq<Op>): (v: World)
    requires WellFormed(w) && CleanRun(w, ops)
    ensures WellFormed(v)
    decreases |ops|
  {
    if ops == [] then w else StepWellFormed(w, ops[0]); After(Apply(w, ops[0]), ops[1..])
  }

  /** Isolation over whole runs: however the client creates, changes, clones, sends, re-sends and deletes
      its text and bytes messages, a captured message never changes, and none is lost from the queue. */
  lemma {:induction false} SentMessagesNeverChange(w: World, ops: seq<Op>)
    requires Isolated(w) && Intact(w) && CleanRun(w, ops)
    ensures Isolated(After(w, ops)) && Intact(After(w, ops)) && w.queue <= After(w, ops).queue
    decreases |ops|
  {
    if ops != [] {
      StepWellFormed(w, ops[0]);
      StepKeepsIsolation(w, ops[0]);
      SentMessagesNeverChange(Apply(w, ops[0]), ops[1..]);
    }
  }

  /** A plain message is really different: change it after sending it, and the captured message changes. */
  lemma PlainMessageIsShared(w: World, h: nat, stamp: Stamp, data: MessageData)
    requires Isolated(w) && Allowed(w, Send(h, stamp)) && w.handles[h].kind == PlainHandle
    requires data != Stamped(w.cells[w.handles[h].cell], stamp)
    ensures WellFormed(Apply(w, Send(h, stamp)))
    ensures !Intact(Apply(Apply(w, Send(h, stamp)), Change(h, data)))
  {
    StepWellFormed(w, Send(h, stamp));
    var v := Apply(Apply(w, Send(h, stamp)), Change(h, data));
    var k := |w.queue|;
    assert v.queue[k].cell == w.handles[h].cell && v.cells[v.queue[k].cell] == data;
  }
}
