/** The fan-out loop over a connection's sessions, on values. */
module SessionLoop {
  import opened ClientStates
  import opened LifecycleTree
  import opened Teardown
  import opened Meanwhile
  import opened ConsumerLoop
  import R = ReceiverProtocol
  import S = StopSafety

  /** A session behind a weak pointer, between two calls: its place in the tree, and its consumers. */
  datatype Seat = Seat(branch: Branch, crowd: seq<Held>)

  ghost predicate SeatOk(t: Seat) {
    BranchOk(t.branch) && t.branch.consumers == LeavesOf(t.crowd) && AllRest(t.crowd)
  }

  ghost predicate SeatsOk(ts: seq<Seat>) {
    forall k :: 0 <= k < |ts| ==> SeatOk(ts[k])
  }

  /** Proton has served the session while the application waited for another one. */
  ghost predicate SeatServed(t: Seat, u: Seat) {
    SettledBranch(t.branch, u.branch) && AllServed(t.crowd, u.crowd)
  }

  ghost predicate SeatAside(a: Action, t: Seat, u: Seat) {
    if a == Start then u == t else SeatServed(t, u)
  }

  /** A turn that did not throw; a session without a handle is skipped. */
  ghost predicate SeatTurned(a: Action, s: nat, t: Seat, u: Seat) {
    if t.branch.alive then
      && CallBranch(a, s, t.branch).ok && u.branch == CallBranch(a, s, t.branch).node
      && (a == Close || LoopDone(a, t.crowd, u.crowd, true))
    else u == t
  }

  ghost predicate SeatThrew(a: Action, s: nat, t: Seat, u: Seat) {
    && t.branch.alive && !CallBranch(a, s, t.branch).ok
    && BranchAgrees(a, CallBranch(a, s, t.branch), u.branch)
  }

  ghost predicate SeatsTo(a: Action, ts: seq<Seat>, us: seq<Seat>, n: nat) {
    && n <= |ts| == |us|
    && (forall k :: 0 <= k < n ==> SeatTurned(a, k, ts[k], us[k]))
    && (forall k :: n <= k < |ts| ==> SeatAside(a, ts[k], us[k]))
  }

  /** How the loop ends: every session has had its turn, or the first one to throw ended it. */
  ghost predicate SessionsDone(a: Action, ts: seq<Seat>, us: seq<Seat>, ok: bool) {
    if ok then SeatsTo(a, ts, us, |ts|)
    else exists n :: 0 <= n < |ts| && SeatsThrown(a, ts, us, n)
  }

  ghost predicate SeatsThrown(a: Action, ts: seq<Seat>, us: seq<Seat>, n: nat) {
    && n < |ts| == |us| && SeatThrew(a, n, ts[n], us[n])
    && (forall k :: 0 <= k < n ==> SeatTurned(a, k, ts[k], us[k]))
    && (forall k :: n < k < |ts| ==> SeatAside(a, ts[k], us[k]))
  }

  // ---------------------------------------------------------------- one session

  lemma ExpiredSeat(t: Seat, u: Seat)
    requires SeatOk(t) && SeatServed(t, u) && !t.branch.attached
    ensures u == t
  {
    DetachedIsFirm(t.branch);
    FirmStays(t.branch, u.branch);
    forall k | 0 <= k < |t.crowd| ensures u.crowd[k] == t.crowd[k] {
      assert LeafOf(t.crowd[k]) == t.branch.consumers[k];
      ServedSettles(t.crowd[k], u.crowd[k]);
    }
    assert u.crowd == t.crowd;
  }

  lemma AliveOrClosed(t: Seat)
    requires SeatOk(t)
    ensures t.branch.attached ==> t.branch.alive
  {}

  lemma SeatServedBefore(a: Action, s: nat, t: Seat, m: Seat, u: Seat)
    requires SeatOk(t) && SeatAside(a, t, m) && SeatTurned(a, s, m, u)
    ensures SeatTurned(a, s, t, u)
  {
    hide CallBranch, BranchOk, LoopDone, AllRest, AllServed, LeavesOf;
    if a != Start {
      AliveOrClosed(t);
      if t.branch.alive {
        SettledCall(a, s, t.branch, m.branch);
        if a == Stop { ServedThenLoop(a, t.crowd, m.crowd, u.crowd); }
      } else {
        ExpiredSeat(t, m);
      }
    }
  }

  lemma SeatServedAfter(a: Action, s: nat, t: Seat, m: Seat, u: Seat)
    requires SeatOk(t) && SeatOk(m) && SeatTurned(a, s, t, m) && SeatAside(a, m, u)
    ensures SeatTurned(a, s, t, u)
  {
    hide CallBranch, BranchOk, LoopDone, AllRest, AllServed, LeavesOf, Firm, SettledBranch;
    if a != Start {
      AliveOrClosed(t);
      if t.branch.alive {
        FirmTurn(a, s, t.branch);
        FirmStays(m.branch, u.branch);
        if a == Stop { LoopThenServed(a, t.crowd, m.crowd, u.crowd); }
      } else {
        ExpiredSeat(m, u);
      }
    }
  }

  lemma FirmTurn(a: Action, s: nat, b: Branch)
    requires a != Start && BranchOk(b) && b.alive && CallBranch(a, s, b).ok
    ensures Firm(CallBranch(a, s, b).node)
  {
    hide CallBranch, Firm;
    FirmAfterTurn(a, s, b);
  }

  lemma SeatServedTwice(a: Action, t: Seat, m: Seat, u: Seat)
    requires SeatAside(a, t, m) && SeatAside(a, m, u)
    ensures SeatAside(a, t, u)
  {
    hide Settled;
    if a != Start {
      SettledTwice(t.branch, m.branch, u.branch);
      forall k | 0 <= k < |t.crowd| ensures Served(t.crowd[k], u.crowd[k]) {
        R.RanTwice(t.crowd[k].consumer, m.crowd[k].consumer, u.crowd[k].consumer);
      }
    }
  }

  lemma SeatServedNothing(a: Action, t: Seat)
    ensures SeatAside(a, t, t)
  {
    SettledItself(t.branch);
    forall k | 0 <= k < |t.crowd| ensures Served(t.crowd[k], t.crowd[k]) { ServedNothing(t.crowd[k]); }
  }

  lemma ThrewBefore(a: Action, s: nat, t: Seat, m: Seat, u: Seat)
    requires SeatOk(t) && SeatAside(a, t, m) && SeatThrew(a, s, m, u)
    ensures SeatThrew(a, s, t, u)
  {
    hide CallBranch, BranchOk, AllServed;
    if a != Start {
      SettledCall(a, s, t.branch, m.branch);
      SettledTwice(CallBranch(a, s, t.branch).node, CallBranch(a, s, m.branch).node, u.branch);
    }
  }

  // ---------------------------------------------------------------- the loop

  /** While session `n` has its turn, the others are served. */
  lemma SeatNext(a: Action, ts: seq<Seat>, ms: seq<Seat>, n: nat, us: seq<Seat>)
    requires SeatsOk(ts) && SeatsOk(ms) && SeatsTo(a, ts, ms, n) && n < |ts| && |us| == |ms|
    requires forall k :: 0 <= k < |ms| && k != n ==> SeatAside(a, ms[k], us[k])
    ensures SeatTurned(a, n, ms[n], us[n]) ==> SeatsTo(a, ts, us, n + 1)
    ensures SeatThrew(a, n, ms[n], us[n]) ==> SeatsThrown(a, ts, us, n)
  {
    hide SeatTurned, SeatAside, SeatThrew, SeatOk;
    forall k | 0 <= k < n ensures SeatTurned(a, k, ts[k], us[k]) { SeatServedAfter(a, k, ts[k], ms[k], us[k]); }
    forall k | n < k < |ts| ensures SeatAside(a, ts[k], us[k]) { SeatServedTwice(a, ts[k], ms[k], us[k]); }
    if SeatTurned(a, n, ms[n], us[n]) { SeatServedBefore(a, n, ts[n], ms[n], us[n]); }
    if SeatThrew(a, n, ms[n], us[n]) { ThrewBefore(a, n, ts[n], ms[n], us[n]); }
  }

  lemma NoSeatTurned(a: Action, ts: seq<Seat>)
    ensures SeatsTo(a, ts, ts, 0)
  {
    forall k | 0 <= k < |ts| ensures SeatAside(a, ts[k], ts[k]) { SeatServedNothing(a, ts[k]); }
  }

  function BranchesOf(ts: seq<Seat>): (bs: seq<Branch>)
    ensures |bs| == |ts| && forall k :: 0 <= k < |ts| ==> bs[k] == ts[k].branch
  {
    seq(|ts|, k requires 0 <= k < |ts| => ts[k].branch)
  }

  lemma SeatTurn(a: Action, s: nat, t: Seat, u: Seat)
    ensures SeatTurned(a, s, t, u) ==> OnSession(a)(s, t.branch).ok && OnSession(a)(s, t.branch).node == u.branch
    ensures SeatThrew(a, s, t, u) ==>
              !OnSession(a)(s, t.branch).ok && BranchAgrees(a, OnSession(a)(s, t.branch), u.branch)
  {
    hide CallBranch, LoopDone, SettledBranch;
  }

  lemma AsideBranch(a: Action, t: Seat, u: Seat)
    requires SeatAside(a, t, u)
    ensures SettledBranch(t.branch, u.branch) && (a == Start ==> u.branch == t.branch)
  {
    SettledItself(t.branch);
  }

  /** The tree after the loop: exactly what the model says if it succeeds or does not wait, and otherwise but
      for consumers that settled before the exception. */
  lemma SessionsRefineEach(a: Action, ts: seq<Seat>, us: seq<Seat>, ok: bool)
    requires SessionsDone(a, ts, us, ok)
    ensures Each(OnSession(a), BranchesOf(ts), |ts|).ok == ok
    ensures SettledBranches(Each(OnSession(a), BranchesOf(ts), |ts|).node, BranchesOf(us))
    ensures ok || a == Start ==> Each(OnSession(a), BranchesOf(ts), |ts|).node == BranchesOf(us)
  {
    hide Each, OnSession, SeatTurned, SeatThrew, SeatAside, SettledBranch;
    var (op, bs) := (OnSession(a), BranchesOf(ts));
    var n: nat :| n <= |ts| && if ok then n == |ts| && SeatsTo(a, ts, us, n) else n < |ts| && SeatsThrown(a, ts, us, n);
    forall k | 0 <= k < n ensures op(k, bs[k]).ok && op(k, bs[k]).node == us[k].branch {
      SeatTurn(a, k, ts[k], us[k]);
    }
    var m := if ok then n else n + 1;
    EachAt(op, bs, n);
    if !ok {
      SeatTurn(a, n, ts[n], us[n]);
      EachThrew(op, bs, n);
      EachStops(op, bs, m, |bs|);
    }
    var o := Each(op, bs, m).node;
    forall k | 0 <= k < |ts|
      ensures SettledBranch(o[k], us[k].branch) && (ok || a == Start ==> o[k] == us[k].branch)
    {
      if k < n { SettledItself(o[k]); } else if k > n || ok { AsideBranch(a, ts[k], us[k]); }
    }
    assert ok || a == Start ==> o == BranchesOf(us);
  }

  lemma EachThrew(op: (nat, Branch) -> Outcome<Branch>, bs: seq<Branch>, n: nat)
    requires n < |bs| && Each(op, bs, n).ok && !op(n, bs[n]).ok
    ensures !Each(op, bs, n + 1).ok && Each(op, bs, n + 1).node == Each(op, bs, n).node[n := op(n, bs[n]).node]
  {}

  // ---------------------------------------------------------------- credit

  /** A connection's start adds exactly one request of ten credits to every live consumer of every live
      session, and starts it. */
  lemma StartRefillsEveryone(ts: seq<Seat>, us: seq<Seat>)
    requires SessionsDone(Start, ts, us, true)
    ensures forall s, k :: 0 <= s < |ts| && ts[s].branch.alive && 0 <= k < |ts[s].crowd| && ts[s].crowd[k].alive ==>
              && |us[s].crowd| == |ts[s].crowd|
              && us[s].crowd[k].consumer.state == Started
              && us[s].crowd[k].consumer.delivered == ts[s].crowd[k].consumer.delivered
              && S.TotalCredit(us[s].crowd[k].consumer) == S.TotalCredit(ts[s].crowd[k].consumer) + 10
  {
    forall s, k | 0 <= s < |ts| && ts[s].branch.alive && 0 <= k < |ts[s].crowd| && ts[s].crowd[k].alive
      ensures |us[s].crowd| == |ts[s].crowd|
      ensures us[s].crowd[k].consumer.state == Started
      ensures us[s].crowd[k].consumer.delivered == ts[s].crowd[k].consumer.delivered
      ensures S.TotalCredit(us[s].crowd[k].consumer) == S.TotalCredit(ts[s].crowd[k].consumer) + 10
    {
      hide CallBranch;
      assert SeatTurned(Start, s, ts[s], us[s]);
      assert Turned(Start, ts[s].crowd[k], us[s].crowd[k]);
      S.CountAddsAppend(ts[s].crowd[k].consumer.work, R.AddCredit);
    }
  }

  /** A connection's stop leaves every live consumer of a live session that met the guard stopped, without
      credit and without credit to come, whatever proton does with the others while it waits for each. */
  lemma StopQuietsEveryone(ts: seq<Seat>, us: seq<Seat>)
    requires SessionsDone(Stop, ts, us, true)
    ensures forall s, k :: 0 <= s < |ts| && ts[s].branch.alive && 0 <= k < |ts[s].crowd| && ts[s].crowd[k].alive ==>
              && |us[s].crowd| == |ts[s].crowd| && us[s].crowd[k].consumer.state == Stopped
              && (S.StopGuard(ts[s].crowd[k].consumer) ==>
                    us[s].crowd[k].consumer.credit == 0 && S.Quiet(us[s].crowd[k].consumer))
  {
    forall s, k | 0 <= s < |ts| && ts[s].branch.alive && 0 <= k < |ts[s].crowd| && ts[s].crowd[k].alive
      ensures |us[s].crowd| == |ts[s].crowd| && us[s].crowd[k].consumer.state == Stopped
      ensures S.StopGuard(ts[s].crowd[k].consumer) ==>
                us[s].crowd[k].consumer.credit == 0 && S.Quiet(us[s].crowd[k].consumer)
    {
      hide CallBranch;
      assert SeatTurned(Stop, s, ts[s], us[s]);
      assert Turned(Stop, ts[s].crowd[k], us[s].crowd[k]);
    }
  }
}
