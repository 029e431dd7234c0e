/** A client with its message objects and a producer, and how it carries out the store of `MessageIsolation`. */
module Clients {
  import opened Prelude
  import opened NumberText
  import opened Messages
  import I = MessageIsolation
  import P = MessageProducers
  import S = SenderProtocol

  function KindOf(m: AnyMessage): I.HandleKind {
    match m
    case Text(_) => I.TextHandle
    case Bytes(_) => I.BytesHandle
    case Plain(_) => I.PlainHandle
  }

  /** The message object, seen as a handle on the proton message in `cell`. */
  ghost function HandleOf(m: AnyMessage, cell: nat): I.Handle
    reads if m.Bytes? then {m.bytes} else {}
  {
    I.Handle(KindOf(m), cell, if m.Bytes? then m.bytes.mMessageBody else [])
  }

  ghost function BytesIn(handles: map<nat, AnyMessage>): set<BytesMessage> {
    set h | h in handles && handles[h].Bytes? :: handles[h].bytes
  }

  ghost function Handles(handles: map<nat, AnyMessage>, cellOf: map<nat, nat>): (hs: map<nat, I.Handle>)
    requires handles.Keys == cellOf.Keys
    reads BytesIn(handles)
    ensures hs.Keys == handles.Keys && forall h :: h in hs ==> hs[h] == HandleOf(handles[h], cellOf[h])
  {
    map h | h in handles :: HandleOf(handles[h], cellOf[h])
  }

  ghost function DataOf(cells: seq<ProtonMessage>): (data: seq<MessageData>)
    reads cells
    ensures |data| == |cells| && forall k :: 0 <= k < |cells| ==> data[k] == cells[k].data
  {
    if cells == [] then [] else DataOf(cells[..|cells| - 1]) + [cells[|cells| - 1].data]
  }

  /** Every handle points to the cell of the proton message it wraps, and no two share a bytes message. */
  ghost predicate HandlesLinked(handles: map<nat, AnyMessage>, cells: seq<ProtonMessage>, cellOf: map<nat, nat>) {
    && handles.Keys == cellOf.Keys
    && (forall h :: h in handles ==> cellOf[h] < |cells| && cells[cellOf[h]] == ProtonOf(handles[h]))
    && (forall g, h :: g in handles && h in handles && g != h && handles[g].Bytes? && handles[h].Bytes? ==>
          handles[g].bytes != handles[h].bytes)
  }

  ghost predicate Distinct(cells: seq<ProtonMessage>) {
    forall i, j :: 0 <= i < j < |cells| ==> cells[i] != cells[j]
  }

  /** The captured messages are those that were accepted. */
  ghost predicate CapturedLinked(captured: seq<I.Captured>, cells: seq<ProtonMessage>,
      accepted: seq<S.Parcel<ProtonMessage>>) {
    |captured| == |accepted| && forall k :: 0 <= k < |captured| ==>
      captured[k].cell < |cells| && cells[captured[k].cell] == accepted[k].message
  }

  lemma CellAdded(cells: seq<ProtonMessage>, c: ProtonMessage, captured: seq<I.Captured>,
      accepted: seq<S.Parcel<ProtonMessage>>)
    requires Distinct(cells) && c !in cells && CapturedLinked(captured, cells, accepted)
    ensures Distinct(cells + [c]) && CapturedLinked(captured, cells + [c], accepted)
  {}

  lemma HandleAdded(handles: map<nat, AnyMessage>, cells: seq<ProtonMessage>, cellOf: map<nat, nat>,
      h: nat, m: AnyMessage, cell: nat)
    requires HandlesLinked(handles, cells, cellOf) && cell < |cells| && cells[cell] == ProtonOf(m)
    requires m.Bytes? ==> m.bytes !in BytesIn(handles)
    ensures HandlesLinked(handles[h := m], cells, cellOf[h := cell])
  {}

  lemma HandlesKept(handles: map<nat, AnyMessage>, cells: seq<ProtonMessage>, cellOf: map<nat, nat>, c: ProtonMessage)
    requires HandlesLinked(handles, cells, cellOf)
    ensures HandlesLinked(handles, cells + [c], cellOf)
  {}

  lemma HandleRemoved(handles: map<nat, AnyMessage>, cells: seq<ProtonMessage>, cellOf: map<nat, nat>, h: nat)
    requires HandlesLinked(handles, cells, cellOf)
    ensures HandlesLinked(handles - {h}, cells, cellOf - {h})
  {}

  lemma CaptureAdded(captured: seq<I.Captured>, cells: seq<ProtonMessage>, accepted: seq<S.Parcel<ProtonMessage>>,
      c: I.Captured, parcel: S.Parcel<ProtonMessage>)
    requires CapturedLinked(captured, cells, accepted) && c.cell < |cells| && cells[c.cell] == parcel.message
    ensures CapturedLinked(captured + [c], cells, accepted + [parcel])
  {}

  // ---------------------------------------------------------------- the steps of the store, spelled out

  lemma NewStep(w: I.World, h: nat, kind: I.HandleKind, data: MessageData, body: seq<byte>)
    requires I.WellFormed(w)
    ensures Keeps(w, I.New(h, kind, data, body))
    ensures I.Apply(w, I.New(h, kind, data, body)) ==
              I.World(w.cells + [data], w.handles[h := I.Handle(kind, |w.cells|, body)], w.queue)
  {
    Refined(w, I.New(h, kind, data, body));
  }

  lemma CloneStep(w: I.World, h: nat, copy: nat)
    requires I.WellFormed(w) && h in w.handles
    ensures Keeps(w, I.Clone(h, copy))
    ensures var handle := w.handles[h];
            I.Apply(w, I.Clone(h, copy)) ==
              if handle.kind == I.PlainHandle then w.(handles := w.handles[copy := handle])
              else I.World(w.cells + [w.cells[handle.cell]], w.handles[copy := handle.(cell := |w.cells|)], w.queue)
  {
    Refined(w, I.Clone(h, copy));
  }

  /** A clone that shares nothing is a new message with the same contents. */
  lemma CloneIsNew(w: I.World, h: nat, copy: nat)
    requires I.WellFormed(w) && h in w.handles && w.handles[h].kind != I.PlainHandle
    ensures var handle := w.handles[h];
            I.Apply(w, I.Clone(h, copy)) == I.Apply(w, I.New(copy, handle.kind, w.cells[handle.cell], handle.body))
  {}

  lemma ChangeStep(w: I.World, h: nat, data: MessageData)
    requires I.WellFormed(w) && h in w.handles
    ensures Keeps(w, I.Change(h, data))
    ensures I.Apply(w, I.Change(h, data)) == w.(cells := w.cells[w.handles[h].cell := data])
  {
    Refined(w, I.Change(h, data));
  }

  lemma ChangeBodyStep(w: I.World, h: nat, body: seq<byte>)
    requires I.WellFormed(w) && h in w.handles
    ensures Keeps(w, I.ChangeBody(h, body))
    ensures I.Apply(w, I.ChangeBody(h, body)) == w.(handles := w.handles[h := w.handles[h].(body := body)])
  {
    Refined(w, I.ChangeBody(h, body));
  }

  lemma DeleteStep(w: I.World, h: nat)
    requires I.WellFormed(w) && h in w.handles
    ensures Keeps(w, I.Delete(h))
    ensures I.Apply(w, I.Delete(h)) == w.(handles := w.handles - {h})
  {
    Refined(w, I.Delete(h));
  }

  lemma SendStep(w: I.World, h: nat, stamp: Stamp)
    requires I.WellFormed(w) && h in w.handles && StampOk(stamp)
    ensures Keeps(w, I.Send(h, stamp))
    ensures var handle := w.handles[h];
            var data := Stamped(I.Content(w, handle), stamp);
            var cell := if handle.kind == I.PlainHandle then handle.cell else |w.cells|;
            I.Apply(w, I.Send(h, stamp)) ==
              I.World(if handle.kind == I.PlainHandle then w.cells[cell := data] else w.cells + [data],
                w.handles, w.queue + [I.Captured(cell, data)])
  {
    hide Stamped;
    Refined(w, I.Send(h, stamp));
    var handle := w.handles[h];
    var data := Stamped(I.Content(w, handle), stamp);
    if handle.kind != I.PlainHandle {
      assert (w.cells + [w.cells[handle.cell]])[|w.cells| := data] == w.cells + [data];
    }
  }

  /** The step is allowed, and keeps the store isolated and intact unless it sends a plain message. */
  ghost predicate Keeps(w: I.World, op: I.Op) {
    && I.WellFormed(w) && I.Allowed(w, op)
    && (I.Isolated(w) && I.Intact(w) && !I.SendsPlain(w, op) ==>
          I.Isolated(I.Apply(w, op)) && I.Intact(I.Apply(w, op)))
  }

  lemma HandlesUpdate(handles: map<nat, AnyMessage>, cellOf: map<nat, nat>, h: nat, m: AnyMessage, cell: nat)
    requires handles.Keys == cellOf.Keys
    ensures handles[h := m].Keys == cellOf[h := cell].Keys
    ensures Handles(handles[h := m], cellOf[h := cell]) == Handles(handles, cellOf)[h := HandleOf(m, cell)]
  {}

  lemma DataSnoc(cells: seq<ProtonMessage>, c: ProtonMessage)
    ensures DataOf(cells + [c]) == DataOf(cells) + [c.data]
  {}

  twostate lemma HandlesSame(handles: map<nat, AnyMessage>, new cellOf: map<nat, nat>)
    requires handles.Keys == cellOf.Keys && forall b :: b in BytesIn(handles) ==> unchanged(b)
    ensures Handles(handles, cellOf) == old(Handles(handles, cellOf))
  {
    hide Handles;
    assert Handles(handles, cellOf) == old(Handles(handles, cellOf));
  }

  /** After a send, only a shared message has changed, and a new one has been added. */
  twostate lemma SentCells(cells: seq<ProtonMessage>, new message: ProtonMessage, new cell: nat, new shared: bool)
    requires Distinct(cells) && forall k :: 0 <= k < |cells| && cells[k] != message ==> unchanged(cells[k])
    requires if shared then cell < |cells| && cells[cell] == message else message !in cells
    ensures if shared then DataOf(cells) == old(DataOf(cells))[cell := message.data]
            else DataOf(cells) == old(DataOf(cells)) && DataOf(cells + [message]) == old(DataOf(cells)) + [message.data]
  {
    hide DataOf;
    if shared {
      assert DataOf(cells) == old(DataOf(cells))[cell := message.data];
    } else {
      assert DataOf(cells) == old(DataOf(cells));
      DataSnoc(cells, message);
    }
  }

  lemma OldObjects(handles: map<nat, AnyMessage>, cells: seq<ProtonMessage>)
    ensures forall b :: b in BytesIn(handles) ==> allocated(b)
    ensures forall c :: c in cells ==> allocated(c)
  {}

  lemma LinkedFacts(handles: map<nat, AnyMessage>, cells: seq<ProtonMessage>, cellOf: map<nat, nat>, h: nat)
    requires HandlesLinked(handles, cells, cellOf) && h in handles
    ensures h in cellOf && cellOf[h] < |cells| && cells[cellOf[h]] == ProtonOf(handles[h])
  {}

  /** What one step of the store keeps. */
  lemma Refined(w: I.World, op: I.Op)
    requires I.WellFormed(w) && I.Allowed(w, op)
    ensures I.Isolated(w) && I.Intact(w) && !I.SendsPlain(w, op) ==>
              I.Isolated(I.Apply(w, op)) && I.Intact(I.Apply(w, op))
  {
    hide I.Isolated, I.Intact, I.Apply, I.Allowed, I.WellFormed;
    if I.Isolated(w) && I.Intact(w) && !I.SendsPlain(w, op) { I.StepKeepsIsolation(w, op); }
  }

  class Client {
    const mProducer: P.MessageProducer
    // the messages the application holds
    var mHandles: map<nat, AnyMessage>
    // every proton message there is, where each handle points, and what was sent
    ghost var mCells: seq<ProtonMessage>
    ghost var mCellOf: map<nat, nat>
    ghost var mCaptured: seq<I.Captured>

    ghost function View(): I.World
      requires mHandles.Keys == mCellOf.Keys
      reads this, mCells, BytesIn(mHandles)
    {
      I.World(DataOf(mCells), Handles(mHandles, mCellOf), mCaptured)
    }

    /** The store describes the objects. */
    ghost predicate Linked()
      reads this, mProducer
    {
      && mProducer.Resting()
      && HandlesLinked(mHandles, mCells, mCellOf) && Distinct(mCells)
      && CapturedLinked(mCaptured, mCells, mProducer.mAccepted)
    }

    /** No message object reaches an accepted message, no two accepted messages are one, and each still holds
        what it held when it was sent. */
    ghost predicate Valid()
      reads this, mCells, BytesIn(mHandles), mProducer
    {
      Linked() && I.Isolated(View()) && I.Intact(View())
    }

    lemma LinkedIsWellFormed()
      requires Linked()
      ensures mHandles.Keys == mCellOf.Keys && I.WellFormed(View()) && View().handles.Keys == mHandles.Keys
    {}

    /** What is sent for a message is what its handle stands for. */
    lemma SendableIsContent(h: nat)
      requires Linked() && h in mHandles
      ensures h in View().handles && View().handles[h].cell < |View().cells|
      ensures View().handles[h].cell == mCellOf[h] && View().handles[h].kind == KindOf(mHandles[h])
      ensures I.Content(View(), View().handles[h]) == Sendable(mHandles[h])
    {}

    /** In terms of the objects. */
    lemma ValidMeans()
      requires Valid()
      ensures forall h, k :: h in mHandles && 0 <= k < |mProducer.mAccepted| ==>
                ProtonOf(mHandles[h]) != mProducer.mAccepted[k].message
      ensures forall k :: 0 <= k < |mProducer.mAccepted| ==>
                k < |mCaptured| && mProducer.mAccepted[k].message.data == mCaptured[k].snapshot
    {
      assert forall h :: h in mHandles ==> View().handles[h].cell == mCellOf[h];
    }

    constructor ()
      ensures Valid() && fresh(mProducer) && View() == I.World([], map[], [])
    {
      mProducer := new P.MessageProducer();
      mHandles, mCells, mCellOf, mCaptured := map[], [], map[], [];
    }

    /** A new message object on a proton message that nothing else uses. */
    method Add(h: nat, m: AnyMessage)
      requires Linked() && ProtonOf(m) !in mCells && (m.Bytes? ==> m.bytes !in BytesIn(mHandles))
      modifies this`mHandles, this`mCells, this`mCellOf
      ensures Linked()
      ensures I.Does(old(View()), I.New(h, KindOf(m), ProtonOf(m).data, HandleOf(m, 0).body), View())
      ensures old(Valid()) ==> Valid()
    {
      hide I.Isolated, I.Intact, I.WellFormed, I.Apply, P.MessageProducer.Resting;
      hide HandlesLinked, Distinct, CapturedLinked, DataOf, Handles, BytesIn;
      LinkedIsWellFormed();
      ghost var w := View();
      ghost var cell := |mCells|;
      CellAdded(mCells, ProtonOf(m), mCaptured, mProducer.mAccepted);
      HandlesKept(mHandles, mCells, mCellOf, ProtonOf(m));
      HandleAdded(mHandles, mCells + [ProtonOf(m)], mCellOf, h, m, cell);
      HandlesUpdate(mHandles, mCellOf, h, m, cell);
      DataSnoc(mCells, ProtonOf(m));
      NewStep(w, h, KindOf(m), ProtonOf(m).data, HandleOf(m, 0).body);
      ghost var hs := Handles(mHandles[h := m], mCellOf[h := cell]);
      assert hs == w.handles[h := I.Handle(KindOf(m), cell, HandleOf(m, 0).body)];
      label Before:
      mHandles, mCells, mCellOf := mHandles[h := m], mCells + [ProtonOf(m)], mCellOf[h := cell];
      HandlesSame@Before(mHandles, mCellOf);
    }

    /** Any setter of the message: the proton message's data becomes `data`. */
    method Change(h: nat, data: MessageData)
      requires Linked() && h in mHandles
      modifies ProtonOf(mHandles[h])
      ensures Linked() && I.Does(old(View()), I.Change(h, data), View())
      ensures old(Valid()) ==> Valid()
    {
      hide I.Isolated, I.Intact, I.WellFormed, I.Apply, P.MessageProducer.Resting;
      hide HandlesLinked, CapturedLinked, DataOf, Handles;
      LinkedIsWellFormed();
      LinkedFacts(mHandles, mCells, mCellOf, h);
      ghost var w := View();
      ProtonOf(mHandles[h]).data := data;
      assert DataOf(mCells) == w.cells[mCellOf[h] := data];
      assert Handles(mHandles, mCellOf) == w.handles;
      ChangeStep(w, h, data);
    }

    method ChangeBody(h: nat, bytes: seq<byte>)
      requires Linked() && h in mHandles && mHandles[h].Bytes?
      modifies mHandles[h].bytes
      ensures Linked() && I.Does(old(View()), I.ChangeBody(h, bytes), View())
      ensures old(Valid()) ==> Valid()
    {
      hide I.Isolated, I.Intact, I.WellFormed, I.Apply, P.MessageProducer.Resting;
      hide Distinct, CapturedLinked, DataOf, Handles;
      LinkedIsWellFormed();
      ghost var w := View();
      mHandles[h].bytes.SetBodyBytes(bytes);
      assert DataOf(mCells) == w.cells;
      assert Handles(mHandles, mCellOf) == w.handles[h := w.handles[h].(body := bytes)];
      ChangeBodyStep(w, h, bytes);
    }

    /** A second object on the same proton message. */
    method Share(h: nat, copy: nat, m: PlainMessage)
      requires Linked() && h in mHandles && mHandles[h].Plain? && m.mMessage == mHandles[h].plain.mMessage
      modifies this`mHandles, this`mCellOf
      ensures Linked() && I.Does(old(View()), I.Clone(h, copy), View())
      ensures old(Valid()) ==> Valid()
    {
      hide I.Isolated, I.Intact, I.WellFormed, I.Apply, P.MessageProducer.Resting;
      hide HandlesLinked, Distinct, CapturedLinked, DataOf, Handles, BytesIn;
      LinkedIsWellFormed();
      LinkedFacts(mHandles, mCells, mCellOf, h);
      ghost var w := View();
      HandleAdded(mHandles, mCells, mCellOf, copy, Plain(m), mCellOf[h]);
      HandlesUpdate(mHandles, mCellOf, copy, Plain(m), mCellOf[h]);
      mHandles, mCellOf := mHandles[copy := Plain(m)], mCellOf[copy := mCellOf[h]];
      CloneStep(w, h, copy);
    }

    method Clone(h: nat, copy: nat)
      requires Linked() && h in mHandles
      modifies this`mHandles, this`mCells, this`mCellOf
      ensures Linked() && I.Does(old(View()), I.Clone(h, copy), View())
      ensures old(Valid()) ==> Valid()
    {
      hide I.Isolated, I.Intact, I.WellFormed, I.Apply, P.MessageProducer.Resting;
      hide HandlesLinked, Distinct, CapturedLinked, DataOf, Handles, BytesIn;
      LinkedIsWellFormed();
      LinkedFacts(mHandles, mCells, mCellOf, h);
      ghost var w := View();
      var m := mHandles[h];
      OldObjects(mHandles, mCells);
      var c := CloneOf(m);
      if m.Plain? {
        Share(h, copy, c.plain);
      } else {
        CloneIsNew(w, h, copy);
        Add(copy, c);
      }
    }

    method Delete(h: nat)
      requires Linked() && h in mHandles
      modifies this`mHandles, this`mCellOf
      ensures Linked() && I.Does(old(View()), I.Delete(h), View())
      ensures old(Valid()) ==> Valid()
    {
      hide I.Isolated, I.Intact, I.WellFormed, I.Apply, P.MessageProducer.Resting;
      hide HandlesLinked, Distinct, CapturedLinked, DataOf, Handles, BytesIn;
      LinkedIsWellFormed();
      ghost var w := View();
      HandleRemoved(mHandles, mCells, mCellOf, h);
      mHandles, mCellOf := mHandles - {h}, mCellOf - {h};
      assert Handles(mHandles, mCellOf) == w.handles - {h};
      DeleteStep(w, h);
    }

    /** What was sent is entered in the store. */
    ghost method Capture(message: ProtonMessage, parcel: S.Parcel<ProtonMessage>,
        accepted: seq<S.Parcel<ProtonMessage>>, cell: nat)
      requires HandlesLinked(mHandles, mCells, mCellOf) && Distinct(mCells)
      requires CapturedLinked(mCaptured, mCells, accepted)
      requires parcel.message == message && mHandles.Keys == mCellOf.Keys
      requires if message in mCells then cell < |mCells| && mCells[cell] == message else cell == |mCells|
      modifies this`mCells, this`mCaptured
      ensures HandlesLinked(mHandles, mCells, mCellOf) && Distinct(mCells)
      ensures CapturedLinked(mCaptured, mCells, accepted + [parcel])
      ensures mCells == if message in old(mCells) then old(mCells) else old(mCells) + [message]
      ensures View() == I.World(DataOf(mCells), old(View()).handles, mCaptured)
      ensures mCaptured == old(mCaptured) + [I.Captured(cell, message.data)]
    {
      hide HandlesLinked, Distinct, CapturedLinked, DataOf, Handles, BytesIn;
      if message !in mCells {
        CellAdded(mCells, message, mCaptured, accepted);
        HandlesKept(mHandles, mCells, mCellOf, message);
        mCells := mCells + [message];
      }
      CaptureAdded(mCaptured, mCells, accepted, I.Captured(cell, message.data), parcel);
      mCaptured := mCaptured + [I.Captured(cell, message.data)];
      HandlesSame(mHandles, mCellOf);
    }

    /** The producer's own `send`, and which proton messages it writes to. */
    method Post(h: nat, stamp: Stamp, onComplete: Option<nat>) returns (ok: bool, ghost message: ProtonMessage)
      requires Linked() && h in mHandles && StampOk(stamp)
      modifies mProducer, SharedWith(mHandles[h])
      ensures mProducer.Resting() && ok == old(mProducer.mAttached)
      ensures mProducer.mAccepted == if ok then old(mProducer.mAccepted) + [S.Parcel(message, onComplete)]
              else old(mProducer.mAccepted)
      ensures h in mCellOf && mCellOf[h] < |mCells| && message.data == Stamped(old(Sendable(mHandles[h])), stamp)
      ensures mHandles.Keys == mCellOf.Keys && Handles(mHandles, mCellOf) == old(View()).handles
      ensures if mHandles[h].Plain? then
                message == mCells[mCellOf[h]] && DataOf(mCells) == old(View()).cells[mCellOf[h] := message.data]
              else
                && message !in mCells && DataOf(mCells) == old(View()).cells
                && DataOf(mCells + [message]) == old(View()).cells + [message.data]
    {
      hide P.MessageProducer.Resting, P.MessageProducer.View, P.ProtonOnly, S.IsRun, S.Exec, S.Step, S.Enabled;
      hide HandlesLinked, CapturedLinked, DataOf, Handles, BytesIn, Distinct, Stamped, Sendable;
      LinkedIsWellFormed();
      LinkedFacts(mHandles, mCells, mCellOf, h);
      OldObjects(mHandles, mCells);
      var m := mHandles[h];
      ghost var es;
      label Sending:
      ok, es, message := mProducer.Send(m, stamp, onComplete);
      HandlesSame@Sending(mHandles, mCellOf);
      SentCells@Sending(mCells, message, mCellOf[h], m.Plain?);
    }

    /** A send that is refused leaves everything as it was, except that a plain message has been stamped. */
    method Send(h: nat, stamp: Stamp, onComplete: Option<nat>) returns (ok: bool)
      requires Linked() && h in mHandles && StampOk(stamp)
      modifies this`mCells, this`mCaptured, mProducer, SharedWith(mHandles[h])
      ensures Linked() && ok == old(mProducer.mAttached)
      ensures ok ==> I.Does(old(View()), I.Send(h, stamp), View())
      ensures !ok ==> I.Refused(old(View()), h, stamp, View())
      ensures old(Valid()) && !mHandles[h].Plain? ==> Valid()
    {
      hide I.Isolated, I.Intact, I.WellFormed, I.Apply, P.MessageProducer.Resting, P.MessageProducer.View, Stamped;
      hide HandlesLinked, CapturedLinked, DataOf, Handles, BytesIn, Distinct;
      LinkedIsWellFormed();
      SendableIsContent(h);
      hide I.Content, Sendable;
      ghost var w := View();
      SendStep(w, h, stamp);
      ghost var accepted := mProducer.mAccepted;
      ghost var message;
      ok, message := Post(h, stamp, onComplete);
      if ok {
        Capture(message, S.Parcel(message, onComplete), accepted,
          if mHandles[h].Plain? then mCellOf[h] else |mCells|);
      }
    }
  }
}
