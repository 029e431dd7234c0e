/** The connection object: the same fan-out one level up, over the sessions that are still alive. */
module Connections {
  import opened Prelude
  import opened ClientStates
  import opened LifecycleTree
  import opened Teardown
  import opened Meanwhile
  import opened ConsumerLoop
  import opened SessionLoop
  import opened Sessions
  import R = ReceiverProtocol

  /** Everything the sessions and their children may change. */
  ghost function Land(ss: seq<Session>): set<object>
    reads ss
  {
    set s, o | s in ss && o in s.Footprint() :: o
  }

  ghost function SeatOf(session: Session): Seat
    reads session, session.Footprint()
  {
    Seat(session.View(), session.Crowd())
  }

  /** The sessions as they stand. */
  ghost function Seats(ss: seq<Session>): (ts: seq<Seat>)
    reads ss, Land(ss)
    ensures |ts| == |ss| && forall k :: 0 <= k < |ss| ==> ts[k] == SeatOf(ss[k])
  {
    seq(|ss|, k requires 0 <= k < |ss| reads if 0 <= k < |ss| then {ss[k]} + ss[k].Footprint() else {} => SeatOf(ss[k]))
  }

  /** Sessions share neither objects nor children. */
  ghost predicate Separate(ss: seq<Session>)
    reads ss
  {
    forall i, j :: 0 <= i < j < |ss| ==> ss[i].Footprint() !! ss[j].Footprint()
  }

  ghost predicate AllValid(ss: seq<Session>)
    reads ss, Land(ss)
  {
    forall k :: 0 <= k < |ss| ==> ss[k].Valid()
  }

  lemma ValidSeats(ss: seq<Session>)
    requires AllValid(ss)
    ensures SeatsOk(Seats(ss))
  {
    hide Seats;
    forall k | 0 <= k < |ss| ensures SeatOk(Seats(ss)[k]) { ValidSeat(ss[k]); }
  }

  lemma ValidSeat(session: Session)
    requires session.Valid()
    ensures SeatOk(SeatOf(session))
  {}

  /** What `CallRoot` makes of the loop's outcome. */
  lemma RootFanOut(a: Action, r: Root)
    requires a != Close && RootOk(r)
    ensures RootOk(CallRoot(a, r).node) && (r.attached ==> Open(r.state))
    ensures var bs := Each(OnSession(a), r.sessions, |r.sessions|);
            CallRoot(a, r) == if a == Start && r.state == Closed then Outcome(false, r, [])
                              else Outcome(bs.ok, r.(sessions := bs.node, state := if bs.ok then After(a)
                                  else r.state), [])
  {
    hide Each, OnSession;
    CalmWhole(a, r);
    CalmMeans(r, CallRoot(a, r).node);
  }

  lemma RootClosing(r: Root)
    requires RootOk(r)
    ensures CallRoot(Close, r).ok && RootOk(CallRoot(Close, r).node) && (r.attached ==> Open(r.state))
    ensures CallRoot(Close, r).node ==
            if r.attached then Root(r.alive, Closed, false, Each(OnSession(Close), r.sessions,
                |r.sessions|).node) else r
    ensures r.attached ==> Each(OnSession(Close), r.sessions, |r.sessions|).ok
    ensures forall s :: 0 <= s < |CallRoot(Close, r).node.sessions| ==> !CallRoot(Close, r).node.sessions[s].attached
    ensures !CallRoot(Close, r).node.attached
  {
    hide Each, OnSession, CallRoot;
    CloseRoot(r);
    UnfoldClose(r);
    if r.attached { CloseSessions(r.sessions); }
  }

  lemma HandleGone(r: Root)
    requires RootOk(r) && !r.attached
    ensures RootOk(r.(alive := false))
  {}

  lemma StaysOk(a: Action, i: nat, r: Root)
    requires RootOk(r) && i < |r.sessions| && r.sessions[i].alive
    ensures RootOk(WithBranch(r, i, CallBranch(a, i, r.sessions[i]).node))
  {
    hide CallBranch, RootOk;
    StepCall(r, SessionOf(i), a);
  }

  lemma SettledRootAdded(r: Root, t: Root)
    requires SettledRoot(r, t)
    ensures SettledRoot(r.(sessions := r.sessions + [FRESH_BRANCH]), t.(sessions := t.sessions + [FRESH_BRANCH]))
  {
    hide SettledBranch;
    SettledItself(FRESH_BRANCH);
  }

  /** What a call on one session does to the connection: the session is as the model says, and, unless the call
      is `start`, the others may have settled; so may the session itself if the call threw. */
  ghost predicate SessionCalled(a: Action, i: nat, r: Root, t: Root, ok: bool) {
    && i < |r.sessions| == |t.sessions|
    && var o := CallBranch(a, i, r.sessions[i]);
       && ok == o.ok && BranchAgrees(a, o, t.sessions[i])
       && SettledRoot(WithBranch(r, i, o.node), t)
       && (a == Start ==> t == WithBranch(r, i, o.node))
  }

  lemma ThroughOneSession(a: Action, i: nat, r: Root, ts: seq<Seat>, us: seq<Seat>, ok: bool)
    requires RootOk(r) && r.sessions == BranchesOf(ts) && SeatTaken(a, ts, us, i, ok) && ts[i].branch.alive
    ensures SessionCalled(a, i, r, r.(sessions := BranchesOf(us)), ok) && RootOk(r.(sessions := BranchesOf(us)))
  {
    hide CallBranch, RootOk, SettledBranch, LoopDone;
    var o := CallBranch(a, i, ts[i].branch);
    var (w, t) := (WithBranch(r, i, o.node), r.(sessions := BranchesOf(us)));
    if ok { SettledItself(o.node); }
    forall k | 0 <= k < |ts| && k != i
      ensures SettledBranch(ts[k].branch, us[k].branch) && (a == Start ==> us[k] == ts[k])
    {
      AsideBranch(a, ts[k], us[k]);
    }
    assert SettledRoot(w, t);
    assert a == Start ==> t.sessions == w.sessions;
    StaysOk(a, i, r);
    SettledRootOk(w, t);
  }

  lemma SessionAdded(r: Root)
    requires RootOk(r) && r.attached
    ensures RootOk(r.(sessions := r.sessions + [FRESH_BRANCH]))
  {}

  lemma SameQueues(ss: seq<Session>)
    ensures forall k :: 0 <= k < |ss| ==> Seats(ss)[k].branch.attached == ss[k].mAttached
  {}

  lemma SameHandle(ss: seq<Session>, i: nat)
    requires i < |ss|
    ensures Seats(ss)[i].branch.alive == ss[i].mAlive
  {}

  lemma ExpiredTurn(a: Action, s: nat, t: Seat)
    ensures !t.branch.alive ==> SeatTurned(a, s, t, t)
  {}

  lemma SeatsAside(a: Action, ts: seq<Seat>)
    ensures forall k :: 0 <= k < |ts| ==> SeatAside(a, ts[k], ts[k])
  {
    forall k | 0 <= k < |ts| ensures SeatAside(a, ts[k], ts[k]) { SeatServedNothing(a, ts[k]); }
  }

  /** One turn of the loop, with the other sessions served meanwhile. */
  ghost predicate SeatTaken(a: Action, ts: seq<Seat>, us: seq<Seat>, i: nat, ok: bool) {
    && i < |ts| == |us|
    && (forall k :: 0 <= k < |ts| && k != i ==> SeatAside(a, ts[k], us[k]))
    && (if ok then SeatTurned(a, i, ts[i], us[i]) else SeatThrew(a, i, ts[i], us[i]))
  }

  lemma SeatSkipped(a: Action, ts: seq<Seat>, i: nat)
    requires i < |ts| && !ts[i].branch.alive
    ensures SeatTaken(a, ts, ts, i, true)
  {
    hide SeatAside;
    SeatsAside(a, ts);
    ExpiredTurn(a, i, ts[i]);
  }

  lemma SeatTakenNext(a: Action, ts: seq<Seat>, ms: seq<Seat>, i: nat, us: seq<Seat>, ok: bool)
    requires SeatsOk(ts) && SeatsOk(ms) && SeatsTo(a, ts, ms, i) && SeatTaken(a, ms, us, i, ok) && |ms| == |ts|
    ensures ok ==> SeatsTo(a, ts, us, i + 1)
    ensures !ok ==> SeatsThrown(a, ts, us, i)
  {
    hide SeatTurned, SeatAside, SeatThrew, SeatOk, SeatsTo, SeatsThrown;
    SeatNext(a, ts, ms, i, us);
  }

  lemma ThrewAfter(a: Action, s: nat, t: Seat, m: Seat, u: Seat)
    requires a != Start && SeatThrew(a, s, t, m) && SeatServed(m, u)
    ensures SeatThrew(a, s, t, u)
  {
    hide CallBranch, SettledBranch;
    SettledTwice(CallBranch(a, s, t.branch).node, m.branch, u.branch);
  }

  lemma SettledRootOk(r: Root, t: Root)
    requires RootOk(r) && SettledRoot(r, t)
    ensures RootOk(t)
  {
    hide BranchOk, SettledBranch;
    forall k | 0 <= k < |r.sessions|
      ensures BranchOk(t.sessions[k]) && t.sessions[k].attached == r.sessions[k].attached
    {
      SettledOk(r.sessions[k], t.sessions[k]);
      SameQueue(r.sessions[k], t.sessions[k]);
    }
  }

  lemma SameQueue(b: Branch, c: Branch)
    requires SettledBranch(b, c)
    ensures c.attached == b.attached
  {}

  lemma ServedSeats(r: Root, ts: seq<Seat>)
    requires |ts| == |r.sessions| && forall k :: 0 <= k < |ts| ==> SettledBranch(r.sessions[k], ts[k].branch)
    ensures SettledRoot(r, r.(sessions := BranchesOf(ts)))
  {}

  lemma FootprintInLand(ss: seq<Session>, i: nat)
    requires i < |ss|
    ensures ss[i].Footprint() <= Land(ss)
  {}

  twostate lemma LandKept(ss: seq<Session>)
    requires forall k :: 0 <= k < |ss| ==> ss[k].Footprint() == old(ss[k].Footprint())
    ensures Land(ss) == old(Land(ss)) && (old(Separate(ss)) ==> Separate(ss))
  {}

  /** Objects that do not belong to a session cannot change it. */
  twostate lemma Undisturbed(t: Session, new changed: set<object>)
    requires old(t.Footprint()) !! changed
    requires forall o :: o in old(t.Footprint()) && o !in changed ==> unchanged(o)
    ensures t.Footprint() == old(t.Footprint()) && SeatOf(t) == old(SeatOf(t))
    ensures old(t.Valid()) ==> t.Valid()
  {}

  lemma LandIsOld(ss: seq<Session>)
    ensures forall o :: o in Land(ss) ==> allocated(o)
  {}

  lemma Outside(ss: seq<Session>, o: object)
    requires o !in Land(ss)
    ensures forall k :: 0 <= k < |ss| ==> o !in ss[k].Footprint()
  {}

  twostate lemma Untouched(ss: seq<Session>)
    requires forall k :: 0 <= k < |ss| ==> forall o :: o in old(ss[k].Footprint()) ==> unchanged(o)
    ensures Land(ss) == old(Land(ss)) && Seats(ss) == old(Seats(ss))
    ensures old(Separate(ss)) ==> Separate(ss)
    ensures old(AllValid(ss)) ==> AllValid(ss)
  {
    hide Seats, SeatOf, Session.Valid;
    forall k | 0 <= k < |ss|
      ensures ss[k].Footprint() == old(ss[k].Footprint()) && SeatOf(ss[k]) == old(SeatOf(ss[k]))
      ensures old(ss[k].Valid()) ==> ss[k].Valid()
    {
      Undisturbed(ss[k], {});
    }
    LandKept(ss);
  }

  /** A new session shares nothing with the others. */
  lemma Joined(ss: seq<Session>, t: Session)
    requires Separate(ss) && AllValid(ss) && t.Valid() && t.Footprint() == {t} && t !in Land(ss)
    requires SeatOf(t).branch == FRESH_BRANCH
    ensures Separate(ss + [t]) && AllValid(ss + [t]) && Land(ss + [t]) == Land(ss) + {t}
    ensures BranchesOf(Seats(ss + [t])) == BranchesOf(Seats(ss)) + [FRESH_BRANCH]
  {
    hide Seats, SeatOf, Session.Valid, Session.Footprint;
    assert forall k :: 0 <= k < |ss| ==> ss[k].Footprint() <= Land(ss);
    assert BranchesOf(Seats(ss + [t])) == BranchesOf(Seats(ss)) + [FRESH_BRANCH];
  }

  /** One call on a session that the loop has locked. */
  method TurnSession(a: Action, session: Session, ghost s: nat) returns (ok: bool)
    requires session.Valid() && session.mAlive
    modifies session.Footprint()
    ensures session.Valid() && session.Footprint() == old(session.Footprint())
    ensures ok == CallBranch(a, s, old(session.View())).ok
    ensures ok ==> SeatTurned(a, s, old(SeatOf(session)), SeatOf(session))
    ensures !ok ==> SeatThrew(a, s, old(SeatOf(session)), SeatOf(session))
  {
    hide CallBranch, LoopDone, Session.Valid, Session.Crowd, BranchOk;
    match a {
      case Start =>
        ok := session.Start(s);
        SettledItself(session.View());
      case Stop => ok := session.Stop(s);
      case Close => ok := session.Close(s);
    }
  }

  method ServeOne(session: Session)
    requires session.Valid()
    modifies session.Footprint()
    ensures session.Valid() && session.Footprint() == old(session.Footprint())
    ensures SeatServed(old(SeatOf(session)), SeatOf(session))
  {
    hide Session.Valid, Session.View, Session.Crowd, SettledBranch, AllServed;
    session.Serve();
  }

  method MakeSession(ghost ss: seq<Session>) returns (session: Session)
    requires Separate(ss) && AllValid(ss)
    ensures fresh(session) && session.Valid() && session.Footprint() == {session}
    ensures SeatOf(session).branch == FRESH_BRANCH
    ensures session !in Land(ss) && Land(ss) == old(Land(ss)) && Seats(ss) == old(Seats(ss))
    ensures Separate(ss) && AllValid(ss)
  {
    hide Seats, Separate, AllValid, Land, Session.View, Session.Valid;
    LandIsOld(ss);
    label Before:
    session := new Session();
    Untouched@Before(ss);
  }

  class Connection {
    // the connection's context
    var mState: ClientState
    var mAttached: bool
    // proton's queue, which only ever holds the close request, and proton's connection
    var mClosing: bool
    var mLink: R.Link
    // the children, behind weak pointers
    var mSessions: seq<Session>
    // some client handle still owns the connection
    var mAlive: bool

    ghost function View(): Root
      reads this, mSessions, Land(mSessions)
    {
      Root(mAlive, mState, mAttached, BranchesOf(Seats(mSessions)))
    }

    ghost predicate Valid()
      reads this, mSessions, Land(mSessions)
    {
      && Separate(mSessions) && AllValid(mSessions) && this !in Land(mSessions)
      && RootOk(View())
      && (mAttached ==> mLink == R.Active && !mClosing)
    }

    // ---------------------------------------------------------------- one session among the others

    method ServeSession(i: nat)
      requires i < |mSessions| && Separate(mSessions) && AllValid(mSessions)
      modifies mSessions[i].Footprint()
      ensures mSessions == old(mSessions) && Land(mSessions) == old(Land(mSessions))
      ensures Separate(mSessions) && AllValid(mSessions)
      ensures forall k :: 0 <= k < |mSessions| && k != i ==> Seats(mSessions)[k] == old(Seats(mSessions))[k]
      ensures SeatServed(old(Seats(mSessions))[i], Seats(mSessions)[i])
    {
      hide Seats, SeatOf, SeatServed, Session.Valid;
      ghost var changed := mSessions[i].Footprint();
      ServeOne(mSessions[i]);
      forall k | 0 <= k < |mSessions| && k != i
        ensures mSessions[k].Footprint() == old(mSessions[k].Footprint()) && mSessions[k].Valid()
        ensures SeatOf(mSessions[k]) == old(SeatOf(mSessions[k]))
      {
        Undisturbed(mSessions[k], changed);
      }
      LandKept(mSessions);
    }

    /** The application waits, and the one proton thread serves every session. */
    method ServeSessions()
      requires Separate(mSessions) && AllValid(mSessions) && this !in Land(mSessions)
      modifies Land(mSessions)
      ensures mSessions == old(mSessions) && Land(mSessions) == old(Land(mSessions))
      ensures Separate(mSessions) && AllValid(mSessions)
      ensures forall k :: 0 <= k < |mSessions| ==> SeatServed(old(Seats(mSessions))[k], Seats(mSessions)[k])
    {
      hide Seats, SeatServed, Separate, AllValid, Land, Session.Footprint;
      ghost var ts := Seats(mSessions);
      for i := 0 to |mSessions|
        invariant mSessions == old(mSessions) && Land(mSessions) == old(Land(mSessions))
        invariant Separate(mSessions) && AllValid(mSessions)
        invariant forall k :: 0 <= k < i ==> SeatServed(ts[k], Seats(mSessions)[k])
        invariant forall k :: i <= k < |mSessions| ==> Seats(mSessions)[k] == ts[k]
      {
        FootprintInLand(mSessions, i);
        ServeSession(i);
      }
    }

    method CallSession(a: Action, i: nat) returns (ok: bool)
      requires i < |mSessions| && Separate(mSessions) && AllValid(mSessions) && mSessions[i].mAlive
      modifies mSessions[i].Footprint()
      ensures mSessions == old(mSessions) && Land(mSessions) == old(Land(mSessions))
      ensures Separate(mSessions) && AllValid(mSessions)
      ensures forall k :: 0 <= k < |mSessions| && k != i ==> Seats(mSessions)[k] == old(Seats(mSessions))[k]
      ensures if ok then SeatTurned(a, i, old(Seats(mSessions))[i], Seats(mSessions)[i])
              else SeatThrew(a, i, old(Seats(mSessions))[i], Seats(mSessions)[i])
    {
      hide Seats, SeatOf, SeatTurned, SeatThrew, Session.Valid, Session.View, CallBranch;
      ghost var changed := mSessions[i].Footprint();
      ok := TurnSession(a, mSessions[i], i);
      forall k | 0 <= k < |mSessions| && k != i
        ensures mSessions[k].Footprint() == old(mSessions[k].Footprint()) && mSessions[k].Valid()
        ensures SeatOf(mSessions[k]) == old(SeatOf(mSessions[k]))
      {
        Undisturbed(mSessions[k], changed);
      }
      LandKept(mSessions);
    }

    /** One turn of the loop; while `stop` and `close` wait, proton serves the other sessions. */
    method TurnAt(a: Action, i: nat) returns (ok: bool)
      requires i < |mSessions| && Separate(mSessions) && AllValid(mSessions) && this !in Land(mSessions)
      requires mSessions[i].mAlive
      modifies Land(mSessions)
      ensures mSessions == old(mSessions) && Land(mSessions) == old(Land(mSessions))
      ensures Separate(mSessions) && AllValid(mSessions)
      ensures SeatTaken(a, old(Seats(mSessions)), Seats(mSessions), i, ok)
    {
      hide Seats, SeatServed, SeatTurned, SeatThrew, Separate, AllValid, Land, Session.Footprint;
      ghost var ts := Seats(mSessions);
      ValidSeats(mSessions);
      FootprintInLand(mSessions, i);
      ok := CallSession(a, i);
      ghost var ms := Seats(mSessions);
      ValidSeats(mSessions);
      if a == LifecycleTree.Start {
        SeatsAside(a, ts);
      } else {
        ServeSessions();
        if ok {
          SeatServedAfter(a, i, ts[i], ms[i], Seats(mSessions)[i]);
        } else {
          ThrewAfter(a, i, ts[i], ms[i], Seats(mSessions)[i]);
        }
      }
    }

    /** The loop over the sessions, the same in `start`, `stop` and `close`. */
    method CallSessions(a: Action) returns (ok: bool)
      requires Separate(mSessions) && AllValid(mSessions) && this !in Land(mSessions)
      modifies Land(mSessions)
      ensures mSessions == old(mSessions) && Land(mSessions) == old(Land(mSessions))
      ensures Separate(mSessions) && AllValid(mSessions)
      ensures SessionsDone(a, old(Seats(mSessions)), Seats(mSessions), ok)
    {
      hide Seats, SeatsOk, SeatTurned, SeatThrew, SeatAside, SeatsTo, SeatsThrown, Separate, AllValid, Land,
          SeatTaken, Session.Footprint, Session.Valid, Session.View, Session.Crowd;
      ghost var ts := Seats(mSessions);
      ValidSeats(mSessions);
      NoSeatTurned(a, ts);
      ok := true;
      var i := 0;
      while i < |mSessions|
        invariant 0 <= i <= |mSessions| && ok
        invariant mSessions == old(mSessions) && Land(mSessions) == old(Land(mSessions))
        invariant Separate(mSessions) && AllValid(mSessions)
        invariant SeatsTo(a, ts, Seats(mSessions), i)
      {
        ghost var ms := Seats(mSessions);
        ValidSeats(mSessions);
        SameHandle(mSessions, i);
        if mSessions[i].mAlive {
          ok := TurnAt(a, i);
        } else {
          SeatSkipped(a, ms, i);
        }
        SeatTakenNext(a, ts, ms, i, Seats(mSessions), ok);
        if !ok {
          return;
        }
        i := i + 1;
      }
    }

    // ---------------------------------------------------------------- proton's thread

    function Weight(): nat
      reads this
    {
      (if mClosing then 2 else 0) + (if mLink == R.Closing then 1 else 0)
    }

    predicate AwaitsClose()
      reads this
    {
      match mLink
      case Active => mClosing && mAttached && Open(mState)
      case Closing => !mClosing && mAttached && Open(mState)
      case Ended => !mClosing && !mAttached && mState == Closed
      case _ => false
    }

    /** Proton runs the queued close request, and later reports that the transport is closed. */
    method ProtonStep()
      requires AwaitsClose() && mState != Closed
      modifies this`mState, this`mAttached, this`mClosing, this`mLink
      ensures AwaitsClose() && Weight() < old(Weight())
    {
      if mLink == R.Closing {
        OnTransportClose();
      } else {
        mClosing, mLink := false, R.Closing;
      }
    }

    method OnConnectionOpen()
      modifies this`mState, this`mAttached, this`mLink
      ensures mState == Stopped && mAttached && mLink == R.Active
    {
      mLink, mAttached := R.Active, true;
      mState := Stopped;
    }

    method OnTransportClose()
      modifies this`mState, this`mAttached, this`mLink
      ensures mState == Closed && !mAttached && mLink == R.Ended
    {
      mLink, mAttached := R.Ended, false;
      mState := Closed;
    }

    // ---------------------------------------------------------------- calls

    /** The constructor waits until the connection is open or its transport has closed again, whichever
        proton reports. */
    constructor ()
      ensures Valid() && mSessions == [] && mAlive
      ensures View() == FRESH_ROOT || View() == Root(true, Closed, false, [])
    {
      mState, mAttached, mAlive := Uninitialized, false, true;
      mClosing, mLink, mSessions := false, R.Opening, [];
      new;
      var steps: nat := *;
      while mState == Uninitialized
        invariant mSessions == [] && mAlive && !mClosing
        invariant match mState
                  case Uninitialized => !mAttached && mLink == R.Opening
                  case Stopped => mAttached && mLink == R.Active
                  case Closed => !mAttached && mLink == R.Ended
                  case _ => false
        decreases mState == Uninitialized, steps
      {
        var reported: bool := *;
        var accepted: bool := *;
        if !reported && steps > 0 {
          steps := steps - 1;
        } else if accepted {
          OnConnectionOpen();
        } else {
          OnTransportClose();
        }
      }
    }

    method Start() returns (ok: bool)
      requires Valid()
      modifies this`mState, Land(mSessions)
      ensures Valid() && mSessions == old(mSessions)
      ensures Outcome(ok, View(), []) == CallRoot(LifecycleTree.Start, old(View()))
      ensures ok ==> SessionsDone(LifecycleTree.Start, old(Seats(mSessions)), Seats(mSessions), true)
    {
      hide Seats, Separate, AllValid, Land, RootOk, SessionsDone, CallRoot, Each, OnSession, Session.View,
          Session.Valid, Session.Crowd;
      ghost var (r, ts) := (View(), Seats(mSessions));
      RootFanOut(LifecycleTree.Start, r);
      ok := mState != Closed;
      if ok {
        ok := CallSessions(LifecycleTree.Start);
        SessionsRefineEach(LifecycleTree.Start, ts, Seats(mSessions), ok);
        Outside(mSessions, this);
        label Called:
        if ok {
          mState := Started;
          Untouched@Called(mSessions);
        }
      }
    }

    /** Does to the tree what the model says if it succeeds; otherwise consumers that did not have their turn
        may have settled meanwhile. */
    method Stop() returns (ok: bool)
      requires Valid()
      modifies this`mState, Land(mSessions)
      ensures Valid() && mSessions == old(mSessions)
      ensures ok == CallRoot(LifecycleTree.Stop, old(View())).ok
      ensures ok ==> View() == CallRoot(LifecycleTree.Stop, old(View())).node
      ensures SettledRoot(CallRoot(LifecycleTree.Stop, old(View())).node, View())
      ensures SessionsDone(LifecycleTree.Stop, old(Seats(mSessions)), Seats(mSessions), ok)
    {
      hide Seats, Separate, AllValid, Land, RootOk, SessionsDone, CallRoot, Each, OnSession, SettledBranches,
          Session.View, Session.Valid, Session.Crowd;
      ghost var (r, ts) := (View(), Seats(mSessions));
      RootFanOut(LifecycleTree.Stop, r);
      ok := CallSessions(LifecycleTree.Stop);
      SessionsRefineEach(LifecycleTree.Stop, ts, Seats(mSessions), ok);
      Outside(mSessions, this);
      label Called:
      if ok {
        mState := Stopped;
        Untouched@Called(mSessions);
      }
      SettledRootOk(CallRoot(LifecycleTree.Stop, r).node, View());
    }

    /** The wait of `close`: entered only when every session is closed. */
    method AwaitClosed()
      requires AwaitsClose()
      requires forall k :: 0 <= k < |mSessions| ==> !mSessions[k].mAttached
      modifies this`mState, this`mAttached, this`mClosing, this`mLink
      ensures !mAttached && mState == Closed && !mClosing && mLink == R.Ended
    {
      while mState != Closed
        invariant AwaitsClose()
        decreases Weight()
      {
        ProtonStep();
      }
    }

    method Close() returns (ok: bool)
      requires Valid()
      modifies this`mState, this`mAttached, this`mClosing, this`mLink, Land(mSessions)
      ensures Valid() && mSessions == old(mSessions)
      ensures ok && CallRoot(LifecycleTree.Close, old(View())).ok
      ensures View() == CallRoot(LifecycleTree.Close, old(View())).node
    {
      hide Seats, Separate, AllValid, Land, RootOk, CallRoot, Each, OnSession, SessionsDone, Session.View,
          Session.Valid, Session.Crowd;
      ok := true;
      ghost var (r, ts) := (View(), Seats(mSessions));
      RootClosing(r);
      if mAttached {
        ok := CallSessions(LifecycleTree.Close);
        SessionsRefineEach(LifecycleTree.Close, ts, Seats(mSessions), ok);
        SameQueues(mSessions);
        Outside(mSessions, this);
        label Queued:
        mClosing := true;
        AwaitClosed();
        Untouched@Queued(mSessions);
      }
    }

    /** The destructor, behind the last handle. */
    method Destroy()
      requires Valid()
      modifies this`mState, this`mAttached, this`mClosing, this`mLink, this`mAlive, Land(mSessions)
      ensures Valid() && mSessions == old(mSessions)
      ensures View() == CallRoot(LifecycleTree.Close, old(View())).node.(alive := false)
    {
      hide Seats, Separate, AllValid, Land, RootOk, CallRoot, Session.View, Session.Valid, Session.Crowd;
      ghost var r := View();
      RootClosing(r);
      var ok := Close();
      Outside(mSessions, this);
      label Shut:
      mAlive := false;
      Untouched@Shut(mSessions);
      HandleGone(CallRoot(LifecycleTree.Close, r).node);
    }

    /** `createSession`: the constructor throws on a null queue, and otherwise waits. */
    method CreateSession() returns (r: Option<Session>)
      requires Valid()
      modifies this`mSessions, Land(mSessions)
      ensures Valid()
      ensures r.Some? <==> mAttached
      ensures if r.Some? then
                && fresh(r.value) && mSessions == old(mSessions) + [r.value]
                && SettledRoot(old(View()).(sessions := old(View()).sessions + [FRESH_BRANCH]), View())
              else View() == old(View()) && mSessions == old(mSessions)
    {
      hide Seats, SeatOf, SeatServed, Separate, AllValid, Land, RootOk, SettledRoot, Session.View, Session.Valid,
          Session.Crowd;
      if !mAttached {
        return None;
      }
      ghost var before := View();
      ServeAll();
      SettledRootAdded(before, View());
      var session := AddSession();
      r := Some(session);
    }

    method ServeAll()
      requires Valid()
      modifies Land(mSessions)
      ensures Valid() && mSessions == old(mSessions) && Land(mSessions) == old(Land(mSessions))
      ensures SettledRoot(old(View()), View()) && mAttached == old(mAttached)
    {
      hide Seats, Separate, AllValid, Land, RootOk, SettledRoot, AllServed, SettledBranch, Session.View, Session.Valid,
          Session.Crowd;
      ghost var r := View();
      ServeSessions();
      ServedSeats(r, Seats(mSessions));
      SettledRootOk(r, View());
    }

    /** The new session, and `addSession`. */
    method AddSession() returns (session: Session)
      requires Valid() && mAttached
      modifies this`mSessions
      ensures Valid() && fresh(session) && mSessions == old(mSessions) + [session]
      ensures View() == old(View()).(sessions := old(View()).sessions + [FRESH_BRANCH])
    {
      hide Seats, SeatOf, Separate, AllValid, Land, RootOk, Session.View, Session.Valid, Session.Footprint,
          Session.Crowd;
      ghost var (root, ss) := (View(), mSessions);
      session := MakeSession(ss);
      Joined(ss, session);
      mSessions := mSessions + [session];
      SessionAdded(root);
    }

    /** A call through the client's own handle on a session; the others may settle while it waits. */
    method ThroughSession(a: Action, i: nat) returns (ok: bool)
      requires Valid() && i < |mSessions| && mSessions[i].mAlive
      modifies Land(mSessions)
      ensures Valid() && mSessions == old(mSessions)
      ensures SessionCalled(a, i, old(View()), View(), ok)
    {
      hide Seats, SeatTaken, Separate, AllValid, Land, RootOk, SessionCalled, Session.View, Session.Valid,
          Session.Crowd;
      ghost var (r, ts) := (View(), Seats(mSessions));
      SameHandle(mSessions, i);
      ok := TurnAt(a, i);
      ThroughOneSession(a, i, r, ts, Seats(mSessions), ok);
    }
  }
}
