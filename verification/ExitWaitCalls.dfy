/**
  What fork, exit and wait do, over whole runs: whom a fork makes a child of, to whom
  an exit leaves its children, and when a wait returns, sleeps or frees a process.
 */
module ExitWaitCalls {

  import opened Common
  import opened ExitWait

  predicate SameThread(x: Slot, x': Slot) {
    x'.at == x.at && x'.k == x.k && x'.j == x.j && x'.flag == x.flag
  }

  /** While `p` has wait_lock nobody else changes a parent, or what `p` is doing. */
  lemma OthersKeep(s: State, a: Action, p: Proc, c: Proc)
    requires Inv(s) && Enabled(s, a) && a.p != p && p < |s.procs| && c < |s.procs| && HasWait(s.procs[p].at)
    ensures var s' := Apply(s, a);
            |s'.procs| == |s.procs| && s'.procs[c].parent == s.procs[c].parent && SameThread(s.procs[p], s'.procs[p])
  {
    NewAt(s, a, c);
    NewAt(s, a, p);
    InvNear(s, p, p);
    InvNear(s, a.p, c);
    InvNear(s, a.p, p);
    hide Inv, Apply, ScanOk, WakeOk;
  }

  // ---- wait

  ghost predicate HasChild(s: State, p: Proc, k: nat) {
    exists c: nat :: c < k && c < |s.procs| && s.procs[c].parent == Some(p)
  }

  /** The scan of wait remembers exactly whether it has seen a child. */
  ghost predicate Counting(s: State, p: Proc) {
    && p < |s.procs|
    && (s.procs[p].at == WaitScan ==>
          && s.procs[p].k <= |s.procs|
          && (s.procs[p].flag <==> HasChild(s, p, s.procs[p].k)))
    && (s.procs[p].at == SleepEnter ==> HasChild(s, p, |s.procs|))
  }

  lemma CountOthers(s: State, a: Action, p: Proc)
    requires Inv(s) && Enabled(s, a) && a.p != p && Counting(s, p)
    ensures Counting(Apply(s, a), p)
  {
    NewAt(s, a, p);
    InvNear(s, a.p, p);
    var s' := Apply(s, a);
    if HasWait(s.procs[p].at) {
      hide Inv, Apply, Enabled;
      forall c: nat | c < |s.procs|
        ensures s'.procs[c].parent == s.procs[c].parent && SameThread(s.procs[p], s'.procs[p])
      {
        OthersKeep(s, a, p, c);
      }
    }
  }

  /** A step of the scan that frees nobody. */
  lemma ScanOn(s: State, p: Proc, c: Proc)
    requires Enabled(s, Run(p)) && s.procs[p].at == WaitScan && c < |s.procs|
    requires var k := s.procs[p].k; k < |s.procs| && s.procs[k].parent == Some(p) ==> s.procs[k].st != Zombie
    ensures var s' := Apply(s, Run(p));
            |s'.procs| == |s.procs| && s'.procs[c].parent == s.procs[c].parent && (c != p ==> s'.procs[c] == s.procs[c])
    ensures var k := s.procs[p].k;
            Apply(s, Run(p)).procs[p] ==
            if k >= |s.procs| then s.procs[p].(at := if s.procs[p].flag then SleepEnter else WaitLeave)
            else s.procs[p].(k := k + 1, flag := s.procs[p].flag || s.procs[k].parent == Some(p))
  {
    NewAt(s, Run(p), c);
    NewAt(s, Run(p), p);
    hide Apply;
  }

  lemma CountScan(s: State, p: Proc)
    requires Inv(s) && Enabled(s, Run(p)) && s.procs[p].at == WaitScan && Counting(s, p)
    ensures Counting(Apply(s, Run(p)), p)
  {
    var s', k := Apply(s, Run(p)), s.procs[p].k;
    if k < |s.procs| && s.procs[k].parent == Some(p) && s.procs[k].st == Zombie {
      hide Inv;
    } else {
      hide Inv, Apply, Enabled;
      forall c: nat | c < |s.procs|
        ensures |s'.procs| == |s.procs| && s'.procs[c].parent == s.procs[c].parent
      {
        ScanOn(s, p, c);
      }
      ScanOn(s, p, p);
      forall m | HasChild(s, p, m)
        ensures HasChild(s', p, m)
      {
      }
      forall m | HasChild(s', p, m)
        ensures HasChild(s, p, m)
      {
      }
    }
  }

  lemma CountSelf(s: State, a: Action, p: Proc)
    requires Inv(s) && Enabled(s, a) && a.p == p && Counting(s, p)
    ensures Counting(Apply(s, a), p)
  {
    if a.Run? && s.procs[p].at == WaitScan {
      hide Inv, Apply, Enabled;
      CountScan(s, p);
    } else if a.Kill? {
      assert One(s, p);
      hide Inv, Two;
      assert HasWait(s.procs[p].at) ==> Apply(s, a).procs == s.procs;
    } else {
      NewAt(s, a, p);
      hide Inv, Apply, Enabled;
      IntoScan(a, s.procs[p], s.procs[Second(s, a)], |s.procs|, s.waitLock);
    }
  }

  lemma IntoScan(a: Action, x: Slot, y: Slot, n: nat, wait: Option<nat>)
    requires Can(a, x, y, n, wait) && !a.Kill? && !(a.Run? && x.at == WaitScan)
    ensures var x' := SelfAfter(a, x, y, n); x'.at != SleepEnter && (x'.at == WaitScan ==> x'.k == 0 && !x'.flag)
  {
  }

  lemma {:induction false} Counted(trace: seq<State>, acts: seq<Action>, t: nat, p: Proc)
    requires IsRun(trace, acts) && t < |trace| && p < |trace[0].procs|
    ensures Counting(trace[t], p)
  {
    if t > 0 {
      Counted(trace, acts, t - 1, p);
      RunInv(trace, acts, t - 1);
      hide Inv, Enabled, Apply;
      if acts[t - 1].p == p {
        CountSelf(trace[t - 1], acts[t - 1], p);
      } else {
        CountOthers(trace[t - 1], acts[t - 1], p);
      }
    }
  }

  lemma SameCount(trace: seq<State>, acts: seq<Action>, t: nat)
    requires IsRun(trace, acts) && t < |trace|
    ensures |trace[t].procs| == |trace[0].procs|
  {
    if t > 0 {
      SameCount(trace, acts, t - 1);
      SameSize(trace[t - 1], acts[t - 1]);
    }
  }

  /** The scan at the end of the table: it saw a child exactly if there is one, and there
      is no zombie among them. */
  lemma Scanned(trace: seq<State>, acts: seq<Action>, t: nat, p: Proc)
    requires IsRun(trace, acts) && t < |trace| && p < |trace[t].procs|
    requires trace[t].procs[p].at == WaitScan && trace[t].procs[p].k >= |trace[t].procs|
    ensures trace[t].procs[p].flag <==> HasChild(trace[t], p, |trace[t].procs|)
    ensures forall c: nat :: c < |trace[t].procs| && trace[t].procs[c].parent == Some(p) ==> trace[t].procs[c].st != Zombie
  {
    SameCount(trace, acts, t);
    Counted(trace, acts, t, p);
    RunInv(trace, acts, t);
    var s := trace[t];
    forall c: nat | c < |s.procs| && s.procs[c].parent == Some(p)
      ensures s.procs[c].st != Zombie
    {
      assert Two(s, p, c);
    }
  }

  /** The step leaves `c` free and touches nobody else but its own process. */
  predicate Frees(s: State, s': State, p: Proc, c: Proc) {
    && p < |s.procs| == |s'.procs| && c < |s.procs| && c != p
    && s.procs[c].parent == Some(p) && s.procs[c].st == Zombie && s'.procs[c] == Blank()
    && forall d: nat :: d < |s.procs| && d != c && d != p ==> s'.procs[d] == s.procs[d]
  }

  lemma ScanStep(s: State, p: Proc)
    requires Inv(s) && Enabled(s, Run(p)) && s.procs[p].at == WaitScan
    ensures var s', k := Apply(s, Run(p)), s.procs[p].k;
            && |s'.procs| == |s.procs|
            && if k < |s.procs| && s.procs[k].parent == Some(p) && s.procs[k].st == Zombie
               then Frees(s, s', p, k) && s'.procs[p].at == WaitLeave
               else if k < |s.procs| then s'.procs[p].at == WaitScan
               else s'.procs[p].at == if s.procs[p].flag then SleepEnter else WaitLeave
  {
    InvNear(s, p, p);
    hide Inv, ForkOk, ScanOk, WakeOk;
  }

  lemma NoChild(s: State, p: Proc)
    ensures HasChild(s, p, |s.procs|) || forall c: nat :: c < |s.procs| ==> s.procs[c].parent != Some(p)
  {
  }

  /** A wait that leaves the table scan by itself has just freed a zombie child, or the
      process has no child. */
  lemma WaitReturns(trace: seq<State>, acts: seq<Action>, t: nat, p: Proc)
    requires IsRun(trace, acts) && t < |acts| && acts[t] == Run(p) && p < |trace[t].procs| && p < |trace[t + 1].procs|
    requires trace[t].procs[p].at == WaitScan && trace[t + 1].procs[p].at == WaitLeave
    ensures var s, s' := trace[t], trace[t + 1];
            (exists c: nat :: Frees(s, s', p, c)) || (forall c: nat :: c < |s.procs| ==> s.procs[c].parent != Some(p))
  {
    RunInv(trace, acts, t);
    var s := trace[t];
    ScanStep(s, p);
    hide Inv, Apply, Enabled;
    var k := s.procs[p].k;
    if k >= |s.procs| {
      Scanned(trace, acts, t, p);
      NoChild(s, p);
    } else {
      assert Frees(s, trace[t + 1], p, k);
    }
  }

  /** A wait goes to sleep only with a child to wait for and none to free. */
  lemma WaitSleeps(trace: seq<State>, acts: seq<Action>, t: nat, p: Proc)
    requires IsRun(trace, acts) && t < |acts| && acts[t] == Run(p) && p < |trace[t].procs| && p < |trace[t + 1].procs|
    requires trace[t].procs[p].at == WaitScan && trace[t + 1].procs[p].at == SleepEnter
    ensures exists c: nat :: c < |trace[t].procs| && trace[t].procs[c].parent == Some(p)
    ensures forall c: nat :: c < |trace[t].procs| && trace[t].procs[c].parent == Some(p) ==> trace[t].procs[c].st != Zombie
  {
    RunInv(trace, acts, t);
    ScanStep(trace[t], p);
    hide Inv, Apply, Enabled;
    Scanned(trace, acts, t, p);
  }

  /** At the end of the table it decides: it sleeps exactly if there is a child, and else
      returns. */
  lemma WaitDecides(trace: seq<State>, acts: seq<Action>, t: nat, p: Proc)
    requires IsRun(trace, acts) && t < |acts| && acts[t] == Run(p) && p < |trace[t].procs|
    requires trace[t].procs[p].at == WaitScan && trace[t].procs[p].k >= |trace[t].procs|
    ensures var s, s' := trace[t], trace[t + 1];
            && p < |s'.procs|
            && (s'.procs[p].at == SleepEnter <==> exists c: nat :: c < |s.procs| && s.procs[c].parent == Some(p))
            && (s'.procs[p].at == WaitLeave <==> forall c: nat :: c < |s.procs| ==> s.procs[c].parent != Some(p))
  {
    RunInv(trace, acts, t);
    ScanStep(trace[t], p);
    hide Inv, Apply, Enabled;
    Scanned(trace, acts, t, p);
    NoChild(trace[t], p);
  }

  /** Nor does a killed process leave a child behind that it could have freed. */
  lemma KilledReturns(trace: seq<State>, acts: seq<Action>, t: nat, p: Proc)
    requires IsRun(trace, acts) && t < |acts| && acts[t] == Killed(p) && p < |trace[t].procs|
    ensures forall c: nat :: c < |trace[t].procs| && trace[t].procs[c].parent == Some(p) ==> trace[t].procs[c].st != Zombie
  {
    Scanned(trace, acts, t, p);
  }

  // ---- fork

  /** What is done to another process leaves its thread alone, if it has one. */
  lemma OtherThread(a: Action, x: Slot, p: Proc, y: Slot, n: nat, wait: Option<nat>)
    requires Can(a, x, y, n, wait) && y.at != Idle && StateOk(y.at, y.st) && Life(p, y, n) && ForkOk(a.p, x, p, y)
    requires (a.Fork? || a.ForkFails? || (a.Run? && Forking(x.at)) ==> (if a.Fork? then a.k else x.k) == p)
    ensures SameThread(y, OtherAfter(a, x, y, n))
  {
  }

  /** A thread on its way is not moved by others. */
  lemma ThreadKept(s: State, a: Action, p: Proc)
    requires Inv(s) && Enabled(s, a) && a.p != p && p < |s.procs| && s.procs[p].at != Idle
    ensures |Apply(s, a).procs| == |s.procs| && SameThread(s.procs[p], Apply(s, a).procs[p])
  {
    NewAt(s, a, p);
    InvNear(s, a.p, p);
    SecondIs(s, a);
    hide Inv, Apply, ParentOk, ScanOk, WakeOk, OtherAfter, SelfAfter, Can, ForkOk, StateOk, Life, Second, SameThread;
    if p == Second(s, a) {
      OtherThread(a, s.procs[a.p], p, s.procs[p], |s.procs|, s.waitLock);
    } else {
      SameSelf(s.procs[p]);
    }
  }

  lemma SameSelf(x: Slot)
    ensures SameThread(x, x)
  {
  }

  /** `k` is a running child of `p`. */
  predicate Started(s: State, p: Proc, k: Proc) {
    k < |s.procs| && s.procs[k].parent == Some(p) && s.procs[k].st == Awake && s.procs[k].at == User
  }

  predicate Forks(s: State, p: Proc, k: Proc) {
    p < |s.procs| && k < |s.procs| && k != p && Forking(s.procs[p].at) && s.procs[p].k == k
  }

  lemma ForkOn(s: State, a: Action, p: Proc, k: Proc)
    requires Inv(s) && Enabled(s, a) && Forks(s, p, k)
    ensures var s' := Apply(s, a);
            && p < |s'.procs|
            && (Forks(s', p, k)
                || (a == Run(p) && s'.procs[p].at == User && Started(s', p, k))
                || (a == ForkFails(p) && s'.procs[p].at == User && k < |s'.procs| && s'.procs[k] == Blank()))
  {
    SameSize(s, a);
    if a.p != p {
      ThreadKept(s, a, p);
      hide Inv, Apply, Enabled;
    } else {
      NewAt(s, a, p);
      NewAt(s, a, k);
      InvNear(s, p, k);
      hide Inv, Apply, ScanOk, WakeOk;
    }
  }

  lemma ForkFirst(s: State, p: Proc, k: Proc)
    requires Enabled(s, Fork(p, k))
    ensures Forks(Apply(s, Fork(p, k)), p, k)
  {
  }

  ghost predicate StillAway(trace: seq<State>, acts: seq<Action>, t: nat, u: nat, p: Proc) {
    && IsRun(trace, acts) && t < u < |trace| && p < |trace[u].procs|
    && forall v :: t < v < u ==> p < |trace[v].procs| && trace[v].procs[p].at != User
  }

  lemma {:induction false} ForkOnward(trace: seq<State>, acts: seq<Action>, t: nat, u: nat, p: Proc, k: Proc)
    requires StillAway(trace, acts, t, u, p) && acts[t] == Fork(p, k)
    ensures var a, s := acts[u - 1], trace[u];
            || Forks(s, p, k)
            || (a == Run(p) && s.procs[p].at == User && Started(s, p, k))
            || (a == ForkFails(p) && s.procs[p].at == User && k < |s.procs| && s.procs[k] == Blank())
    decreases u
  {
    hide Inv, Init, Apply, Enabled, Started, Forks;
    if u > t + 1 {
      ForkOnward(trace, acts, t, u - 1, p, k);
      RunInv(trace, acts, u - 1);
      ForkOn(trace[u - 1], acts[u - 1], p, k);
    } else {
      ForkFirst(trace[t], p, k);
    }
  }

  /** fork returns with the child running, a child of the caller; or fails with the slot
      free again. */
  lemma ForkReturns(trace: seq<State>, acts: seq<Action>, t: nat, u: nat, p: Proc, k: Proc)
    requires StillAway(trace, acts, t, u, p) && acts[t] == Fork(p, k) && trace[u].procs[p].at == User
    ensures k < |trace[u].procs|
    ensures if acts[u - 1] == ForkFails(p) then trace[u].procs[k] == Blank()
            else trace[u].procs[k].parent == Some(p) && trace[u].procs[k].st == Awake && trace[u].procs[k].at == User
  {
    ForkOnward(trace, acts, t, u, p, k);
  }

  // ---- exit

  predicate Leaving(at: Label) {
    at == Reparent || at == WakeScan || at == ExitLock
  }

  /** `p` has given to init those of its children that it has come to, and no parent has
      changed otherwise since `s0`. */
  predicate GivenAt(s0: State, s: State, p: Proc, c: Proc) {
    && p < |s.procs| && c < |s.procs| == |s0.procs|
    && s.procs[c].parent == if s0.procs[c].parent == Some(p) && Disowned(s.procs[p], c) then Some(INIT) else s0.procs[c].parent
  }

  lemma GiveStep(s0: State, s: State, p: Proc, c: Proc)
    requires Inv(s) && Enabled(s, Run(p)) && (s.procs[p].at == Reparent || s.procs[p].at == WakeScan)
    requires p != INIT && GivenAt(s0, s, p, c) && GivenAt(s0, s, p, Second(s, Run(p)))
    ensures var s' := Apply(s, Run(p)); GivenAt(s0, s', p, c) && Leaving(s'.procs[p].at)
  {
    NewAt(s, Run(p), c);
    NewAt(s, Run(p), p);
    InvNear(s, p, c);
    hide Inv, Apply, ForkOk, ScanOk, WakeOk;
  }

  ghost predicate Given(s0: State, s: State, p: Proc) {
    && p < |s.procs| == |s0.procs| && p != INIT && Leaving(s.procs[p].at)
    && forall c: nat :: c < |s.procs| ==> GivenAt(s0, s, p, c)
  }

  lemma GiveOn(s0: State, s: State, a: Action, p: Proc)
    requires Inv(s) && Enabled(s, a) && Given(s0, s, p) && s.procs[p].at != ExitLock
    ensures Given(s0, Apply(s, a), p)
  {
    hide Inv, Enabled, Apply;
    if a.p == p {
      GiveSelf(s0, s, a, p);
    } else {
      GiveOthers(s0, s, a, p);
    }
  }

  lemma GiveSelf(s0: State, s: State, a: Action, p: Proc)
    requires Inv(s) && Enabled(s, a) && Given(s0, s, p) && s.procs[p].at != ExitLock && a.p == p
    ensures Given(s0, Apply(s, a), p)
  {
    SameSize(s, a);
    var s' := Apply(s, a);
    assert a.Run? || a.Kill? by { hide Inv, Given; }
    if a.Kill? {
      assert One(s, p);
      hide Inv, GivenAt;
      assert s'.procs == s.procs;
      Unchanged(s0, s, s', p);
    } else {
      RunsAt(s, a);
      hide Inv, Apply, Enabled, GivenAt, Second;
      forall c: nat | c < |s.procs|
        ensures GivenAt(s0, s', p, c) && Leaving(s'.procs[p].at)
      {
        assert GivenAt(s0, s, p, c) && GivenAt(s0, s, p, Second(s, a));
        GiveStep(s0, s, p, c);
      }
    }
  }

  lemma GiveOthers(s0: State, s: State, a: Action, p: Proc)
    requires Inv(s) && Enabled(s, a) && Given(s0, s, p) && a.p != p
    ensures Given(s0, Apply(s, a), p)
  {
    SameSize(s, a);
    var s' := Apply(s, a);
    hide Inv, Apply, Enabled, Disowned;
    OthersKeep(s, a, p, p);
    SameDisowned(s.procs[p], s'.procs[p]);
    forall c: nat | c < |s.procs|
      ensures GivenAt(s0, s', p, c)
    {
      assert GivenAt(s0, s, p, c);
      OthersKeep(s, a, p, c);
    }
  }

  lemma SameDisowned(x: Slot, x': Slot)
    requires SameThread(x, x')
    ensures forall c :: Disowned(x', c) == Disowned(x, c)
  {
  }

  lemma Unchanged(s0: State, s: State, s': State, p: Proc)
    requires Given(s0, s, p) && s'.procs == s.procs
    ensures Given(s0, s', p)
  {
    assert forall c: nat :: GivenAt(s0, s, p, c) ==> GivenAt(s0, s', p, c);
  }

  lemma GiveFirst(s: State, p: Proc)
    requires Inv(s) && Enabled(s, Run(p)) && s.procs[p].at == ExitEnter
    ensures Given(s, Apply(s, Run(p)), p)
  {
    assert One(s, p);
    hide Inv;
  }

  /** From the state in which exit takes wait_lock, to state `u`. */
  ghost predicate Exits(trace: seq<State>, acts: seq<Action>, t: nat, u: nat, p: Proc) {
    && IsRun(trace, acts) && t < u < |trace| && acts[t] == Run(p)
    && p < |trace[t].procs| && trace[t].procs[p].at == ExitEnter
    && forall v :: t < v < u ==> p < |trace[v].procs| && trace[v].procs[p].at != ExitLock
  }

  lemma {:induction false} Gives(trace: seq<State>, acts: seq<Action>, t: nat, u: nat, p: Proc)
    requires Exits(trace, acts, t, u, p)
    ensures Given(trace[t], trace[u], p)
    decreases u
  {
    hide Inv, Init, Apply, Enabled, Given;
    RunInv(trace, acts, u - 1);
    if u == t + 1 {
      GiveFirst(trace[t], p);
    } else {
      Gives(trace, acts, t, u - 1, p);
      GiveOn(trace[t], trace[u - 1], acts[u - 1], p);
    }
  }

  /** When a process in exit is about to become a zombie, its children are init's, and all
      others have the parents they had. */
  lemma ExitLeaves(trace: seq<State>, acts: seq<Action>, t: nat, u: nat, p: Proc, c: Proc)
    requires Exits(trace, acts, t, u, p) && p < |trace[u].procs| && trace[u].procs[p].at == ExitLock
    requires c < |trace[t].procs|
    ensures c < |trace[u].procs|
    ensures trace[u].procs[c].parent == if trace[t].procs[c].parent == Some(p) then Some(INIT) else trace[t].procs[c].parent
  {
    Gives(trace, acts, t, u, p);
    assert GivenAt(trace[t], trace[u], p, c);
  }
}
