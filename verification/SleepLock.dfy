/**
  Sleep locks over sleep and wakeup, as interleaved steps of any number of
  processes at the granularity of the spinlocks: lk->lk inside each sleep lock,
  and p->lock of each process. A step is one acquire, one release, or the code
  between them.
 */
module SleepLock {

  import opened Common

  type Proc = nat
  type Lock = nat

  /** What a process sleeps on: a sleep lock, or something else in the kernel. */
  datatype Chan = OnLock(l: Lock) | Elsewhere(c: nat)

  /** The next thing to do, inside acquiresleep, releasesleep, sleep and wakeup. */
  datatype Label =
    | AcqEnter       // acquiresleep: acquire(&lk->lk)
    | AcqTest        // while (lk->locked)
    | SleepEnter     // sleep: acquire(&p->lock)
    | SleepUnlock    // release(lk)
    | SleepCommit    // p->chan = chan; p->state = SLEEPING
    | SleepSwitch    // sched(): the scheduler drops p->lock
    | Switched       // off the CPU until RUNNABLE and chosen
    | SleepTidy      // p->chan = 0; release(&p->lock)
    | SleepRelock    // acquire(lk), back to the test
    | AcqSet         // lk->locked = 1; lk->pid = p
    | AcqLeave       // release(&lk->lk)
    | RelEnter       // releasesleep: acquire(&lk->lk)
    | RelClear       // lk->locked = 0; lk->pid = 0
    | WakeScan       // wakeup: acquire the lock of the next process
    | WakeLook       // make it RUNNABLE if asleep here; release its lock
    | RelLeave       // release(&lk->lk)

  /** Where a process is: elsewhere in the kernel or user code, asleep on some
      other channel, or at `at` in an operation on lock `l`, the wakeup scan
      having reached process `k`. */
  datatype Pc = Outside | SleepingElsewhere | In(l: Lock, at: Label, k: Proc)

  /** struct sleeplock: the owner of its spinlock, the flag, the holder recorded in pid. */
  datatype SLock = SLock(spin: Option<Proc>, locked: bool, pid: Option<Proc>)

  /** struct proc: state is SLEEPING or not, chan, and the owner of p->lock. */
  datatype PState = PState(pc: Pc, sleeping: bool, chan: Option<Chan>, spin: Option<Proc>)

  /** `held` records which process has acquired and not released which sleep lock. */
  datatype State = State(locks: seq<SLock>, procs: seq<PState>, held: set<(Proc, Lock)>)

  datatype Action =
    | Run(p: Proc)                  // process p does its next step
    | Acquire(p: Proc, l: Lock)     // p calls acquiresleep
    | Release(p: Proc, l: Lock)     // p calls releasesleep
    | SleepOn(p: Proc, c: nat)      // p sleeps on some other channel
    | WakeElsewhere(p: Proc)        // and is woken there
    | Schedule(p: Proc)             // the scheduler picks p, taking p->lock
    | Kill(p: Proc)                 // kill: a sleeper becomes RUNNABLE

  predicate Wf(s: State, p: Proc, l: Lock) {
    p < |s.procs| && l < |s.locks|
  }

  // ---- steps

  function Put(s: State, p: Proc, ps: PState): State
    requires p < |s.procs|
  {
    State(s.locks, s.procs[p := ps], s.held)
  }

  /** `p` moves on to `at`, nothing else of it changing. */
  function Move(s: State, p: Proc, pc: Pc): State
    requires p < |s.procs|
  {
    var ps := s.procs[p];
    Put(s, p, PState(pc, ps.sleeping, ps.chan, ps.spin))
  }

  function SetSpin(s: State, l: Lock, spin: Option<Proc>): State
    requires l < |s.locks|
  {
    State(s.locks[l := SLock(spin, s.locks[l].locked, s.locks[l].pid)], s.procs, s.held)
  }

  /** Process `p` is inside an operation on a lock. */
  predicate Inside(s: State, p: Proc) {
    p < |s.procs| && s.procs[p].pc.In? && s.procs[p].pc.l < |s.locks|
  }

  /** The guard of the next step of `p`: a lock it acquires must be free. */
  predicate CanRun(s: State, p: Proc) {
    && Inside(s, p)
    && var pc := s.procs[p].pc;
       match pc.at
       case AcqEnter => s.locks[pc.l].spin.None?
       case SleepRelock => s.locks[pc.l].spin.None?
       case RelEnter => s.locks[pc.l].spin.None?
       case SleepEnter => s.procs[p].spin.None?
       case Switched => false
       case WakeScan => pc.k < |s.procs| && pc.k != p ==> s.procs[pc.k].spin.None?
       case WakeLook => pc.k < |s.procs|
       case _ => true
  }

  function RunStep(s: State, p: Proc): State
    requires CanRun(s, p)
  {
    var ps := s.procs[p];
    var l := ps.pc.l;
    var lk := s.locks[l];
    var k := ps.pc.k;
    match ps.pc.at
    case AcqEnter => Move(SetSpin(s, l, Some(p)), p, In(l, AcqTest, 0))
    case AcqTest => Move(s, p, In(l, if lk.locked then SleepEnter else AcqSet, 0))
    case SleepEnter => Put(s, p, PState(In(l, SleepUnlock, 0), ps.sleeping, ps.chan, Some(p)))
    case SleepUnlock => Move(SetSpin(s, l, None), p, In(l, SleepCommit, 0))
    case SleepCommit => Put(s, p, PState(In(l, SleepSwitch, 0), true, Some(OnLock(l)), ps.spin))
    case SleepSwitch => Put(s, p, PState(In(l, Switched, 0), ps.sleeping, ps.chan, None))
    case SleepTidy => Put(s, p, PState(In(l, SleepRelock, 0), ps.sleeping, None, None))
    case SleepRelock => Move(SetSpin(s, l, Some(p)), p, In(l, AcqTest, 0))
    case AcqSet =>
      Move(State(s.locks[l := SLock(lk.spin, true, Some(p))], s.procs, s.held + {(p, l)}), p, In(l, AcqLeave, 0))
    case AcqLeave => Move(SetSpin(s, l, None), p, Outside)
    case RelEnter => Move(SetSpin(s, l, Some(p)), p, In(l, RelClear, 0))
    case RelClear =>
      Move(State(s.locks[l := SLock(lk.spin, false, None)], s.procs, s.held - {(p, l)}), p, In(l, WakeScan, 0))
    case WakeScan =>
      if k >= |s.procs| then Move(s, p, In(l, RelLeave, 0))
      else if k == p then Move(s, p, In(l, WakeScan, k + 1))
      else
        var q := s.procs[k];
        Move(Put(s, k, PState(q.pc, q.sleeping, q.chan, Some(p))), p, In(l, WakeLook, k))
    case WakeLook =>
      var q := s.procs[k];
      var wake := q.sleeping && q.chan == Some(OnLock(l));
      Move(Put(s, k, PState(q.pc, q.sleeping && !wake, q.chan, None)), p, In(l, WakeScan, k + 1))
    case RelLeave => Move(SetSpin(s, l, None), p, Outside)
  }

  predicate Enabled(s: State, a: Action) {
    && a.p < |s.procs|
    && match a
       case Run(p) => CanRun(s, p)
       case Acquire(p, l) => l < |s.locks| && s.procs[p].pc == Outside
       case Release(p, l) => l < |s.locks| && s.procs[p].pc == Outside && (p, l) in s.held
       case SleepOn(p, _) => s.procs[p].pc == Outside && s.procs[p].spin.None?
       case WakeElsewhere(p) => s.procs[p].pc == SleepingElsewhere && s.procs[p].spin.None?
       case Schedule(p) => Inside(s, p) && s.procs[p].pc.at == Switched && !s.procs[p].sleeping && s.procs[p].spin.None?
       case Kill(p) => s.procs[p].spin.None?
  }

  function Apply(s: State, a: Action): State
    requires Enabled(s, a)
  {
    var ps := s.procs[a.p];
    match a
    case Run(p) => RunStep(s, p)
    case Acquire(p, l) => Move(s, p, In(l, AcqEnter, 0))
    case Release(p, l) => Move(s, p, In(l, RelEnter, 0))
    case SleepOn(p, c) => Put(s, p, PState(SleepingElsewhere, true, Some(Elsewhere(c)), None))
    case WakeElsewhere(p) => Put(s, p, PState(Outside, false, None, None))
    case Schedule(p) => Put(s, p, PState(In(ps.pc.l, SleepTidy, 0), false, ps.chan, Some(p)))
    case Kill(p) => Put(s, p, PState(ps.pc, false, ps.chan, None))
  }

  // ---- the invariant

  /** Between acquire and release of the spinlock of a sleep lock. */
  predicate SpinLabel(at: Label) {
    at == AcqTest || at == SleepEnter || at == SleepUnlock || at == AcqSet || at == AcqLeave || at == RelClear || at == WakeScan || at == WakeLook || at == RelLeave
  }

  /** Between acquire and release of one's own p->lock. */
  predicate OwnLabel(at: Label) {
    at == SleepUnlock || at == SleepCommit || at == SleepSwitch || at == SleepTidy
  }

  predicate InSpin(pc: Pc, l: Lock) {
    pc.In? && pc.l == l && SpinLabel(pc.at)
  }

  /** Process `p` is between acquire and release of the lock of process `q`. */
  predicate InProc(p: Proc, pc: Pc, q: Proc) {
    pc.In? && ((p == q && OwnLabel(pc.at)) || (pc.at == WakeLook && pc.k == q))
  }

  /** Committed to sleep on `l`: past the release of its spinlock and not yet woken. */
  predicate Asleep(ps: PState, l: Lock) {
    ps.pc.In? && ps.pc.l == l && (ps.pc.at == SleepCommit || ps.pc.at == SleepSwitch || (ps.pc.at == Switched && ps.sleeping))
  }

  /** A wakeup on `l` is under way that has yet to reach process `q`. */
  predicate WakeComing(s: State, l: Lock, q: Proc)
    requires l < |s.locks|
  {
    && s.locks[l].spin.Some? && s.locks[l].spin.value < |s.procs|
    && var pc := s.procs[s.locks[l].spin.value].pc;
       pc.In? && (pc.at == WakeScan || pc.at == WakeLook) && pc.l == l && pc.k <= q
  }

  predicate ProcOk(s: State, p: Proc)
    requires p < |s.procs|
  {
    var ps := s.procs[p];
    && (ps.sleeping ==> ps.pc.SleepingElsewhere? || (ps.pc.In? && (ps.pc.at == SleepSwitch || ps.pc.at == Switched)))
    && (ps.pc.In? ==>
          && ps.pc.l < |s.locks|
          && (ps.pc.at == SleepSwitch ==> ps.sleeping)
          && ((ps.pc.at == SleepSwitch || ps.pc.at == Switched) ==> ps.chan == Some(OnLock(ps.pc.l)))
          && ((ps.pc.at == SleepEnter || ps.pc.at == SleepUnlock) ==> s.locks[ps.pc.l].locked)
          && (ps.pc.at == AcqSet ==> !s.locks[ps.pc.l].locked)
          && ((ps.pc.at == AcqLeave || ps.pc.at == RelEnter || ps.pc.at == RelClear) ==> (p, ps.pc.l) in s.held)
          && (ps.pc.at == WakeLook ==> ps.pc.k < |s.procs| && ps.pc.k != p))
  }

  predicate SpinOk(s: State, p: Proc, l: Lock)
    requires Wf(s, p, l)
  {
    && (s.locks[l].spin.Some? ==> s.locks[l].spin.value < |s.procs|)
    && (InSpin(s.procs[p].pc, l) <==> s.locks[l].spin == Some(p))
  }

  predicate ProcSpinOk(s: State, p: Proc, q: Proc)
    requires p < |s.procs| && q < |s.procs|
  {
    InProc(p, s.procs[p].pc, q) <==> s.procs[q].spin == Some(p)
  }

  predicate HeldOk(s: State, p: Proc, l: Lock)
    requires Wf(s, p, l)
  {
    (p, l) in s.held <==> s.locks[l].locked && s.locks[l].pid == Some(p)
  }

  /** No wakeup is lost: whoever sleeps on an unlocked lock has a wakeup coming. */
  predicate WakeOk(s: State, q: Proc, l: Lock)
    requires Wf(s, q, l)
  {
    Asleep(s.procs[q], l) ==> s.locks[l].locked || WakeComing(s, l, q)
  }

  ghost predicate Inv(s: State) {
    && s.locks != []
    && (forall p: nat {:trigger ProcOk(s, p)} :: p < |s.procs| ==> ProcOk(s, p))
    && (forall p: nat, l: nat {:trigger SpinOk(s, p, l)} :: Wf(s, p, l) ==> SpinOk(s, p, l))
    && (forall p: nat, q: nat {:trigger ProcSpinOk(s, p, q)} :: p < |s.procs| && q < |s.procs| ==> ProcSpinOk(s, p, q))
    && (forall p: nat, l: nat {:trigger HeldOk(s, p, l)} :: Wf(s, p, l) ==> HeldOk(s, p, l))
    && (forall q: nat, l: nat {:trigger WakeOk(s, q, l)} :: Wf(s, q, l) ==> WakeOk(s, q, l))
  }

  /** The invariant at process q, process r and lock l. */
  predicate Facts(s: State, q: Proc, r: Proc, l: Lock) {
    && Wf(s, q, l) && r < |s.procs|
    && ProcOk(s, q) && SpinOk(s, q, l) && ProcSpinOk(s, q, r) && HeldOk(s, q, l) && WakeOk(s, q, l)
  }

  /** The invariant wherever a step of `p` can matter to `Facts(q, r, l)`. */
  predicate Around(s: State, p: Proc, q: Proc, r: Proc, l: Lock) {
    && Facts(s, q, r, l) && Facts(s, p, r, l) && ProcSpinOk(s, p, q) && ProcSpinOk(s, q, q) && ProcSpinOk(s, p, p)
    && (s.procs[q].pc.In? ==> SpinOk(s, q, s.procs[q].pc.l) && SpinOk(s, p, s.procs[q].pc.l))
    && (s.procs[p].pc.In? ==> SpinOk(s, p, s.procs[p].pc.l))
  }

  /** Steps: lk->lk acquired. */
  lemma TakeSpinKeeps(s: State, p: Proc, q: Proc, r: Proc, l: Lock)
    requires CanRun(s, p) && (s.procs[p].pc.at == AcqEnter || s.procs[p].pc.at == SleepRelock || s.procs[p].pc.at == RelEnter) && Around(s, p, q, r, l)
    ensures Facts(RunStep(s, p), q, r, l)
  {
  }

  /** Steps: lk->lk released. */
  lemma DropSpinKeeps(s: State, p: Proc, q: Proc, r: Proc, l: Lock)
    requires CanRun(s, p) && (s.procs[p].pc.at == AcqLeave || s.procs[p].pc.at == RelLeave) && Around(s, p, q, r, l)
    ensures Facts(RunStep(s, p), q, r, l)
  {
  }

  lemma UnlockKeeps(s: State, p: Proc, q: Proc, r: Proc, l: Lock)
    requires CanRun(s, p) && s.procs[p].pc.at == SleepUnlock && Around(s, p, q, r, l)
    ensures Facts(RunStep(s, p), q, r, l)
  {
  }

  /** Steps: sleep() takes or drops p->lock. */
  lemma OwnLockKeeps(s: State, p: Proc, q: Proc, r: Proc, l: Lock)
    requires CanRun(s, p) && (s.procs[p].pc.at == SleepEnter || s.procs[p].pc.at == SleepTidy) && Around(s, p, q, r, l)
    ensures Facts(RunStep(s, p), q, r, l)
  {
  }

  /** Steps: the process becomes SLEEPING and switches away. */
  lemma CommitKeeps(s: State, p: Proc, q: Proc, r: Proc, l: Lock)
    requires CanRun(s, p) && (s.procs[p].pc.at == SleepCommit || s.procs[p].pc.at == SleepSwitch) && Around(s, p, q, r, l)
    ensures Facts(RunStep(s, p), q, r, l)
  {
  }

  /** Steps: the flag is read. */
  lemma TestKeeps(s: State, p: Proc, q: Proc, r: Proc, l: Lock)
    requires CanRun(s, p) && s.procs[p].pc.at == AcqTest && Around(s, p, q, r, l)
    ensures Facts(RunStep(s, p), q, r, l)
  {
  }

  /** Steps: the flag set or cleared. */
  lemma FlagKeeps(s: State, p: Proc, q: Proc, r: Proc, l: Lock)
    requires CanRun(s, p) && (s.procs[p].pc.at == AcqSet || s.procs[p].pc.at == RelClear) && Around(s, p, q, r, l)
    ensures Facts(RunStep(s, p), q, r, l)
  {
  }

  /** Steps: wakeup takes the lock of the next process. */
  lemma ScanKeeps(s: State, p: Proc, q: Proc, r: Proc, l: Lock)
    requires CanRun(s, p) && s.procs[p].pc.at == WakeScan && Around(s, p, q, r, l)
    ensures Facts(RunStep(s, p), q, r, l)
  {
    ScanWake(s, p, q, r, l);
    ScanRest(s, p, q, r, l);
    ScanSpin(s, p, q, r, l);
    hide RunStep, ProcOk, SpinOk, ProcSpinOk, HeldOk, WakeOk;
  }

  /** Steps: wakeup looks at a process and drops its lock. */
  lemma LookKeeps(s: State, p: Proc, q: Proc, r: Proc, l: Lock)
    requires CanRun(s, p) && s.procs[p].pc.at == WakeLook && Around(s, p, q, r, l)
    ensures Facts(RunStep(s, p), q, r, l)
  {
  }

  lemma ScanRest(s: State, p: Proc, q: Proc, r: Proc, l: Lock)
    requires CanRun(s, p) && s.procs[p].pc.at == WakeScan && Around(s, p, q, r, l)
    ensures var s' := RunStep(s, p);
            Wf(s', q, l) && r < |s'.procs| && ProcOk(s', q) && SpinOk(s', q, l) && HeldOk(s', q, l)
  {
    hide WakeOk, ProcSpinOk;
  }

  lemma ScanSpin(s: State, p: Proc, q: Proc, r: Proc, l: Lock)
    requires CanRun(s, p) && s.procs[p].pc.at == WakeScan && Around(s, p, q, r, l)
    ensures var s' := RunStep(s, p); q < |s'.procs| && r < |s'.procs| && ProcSpinOk(s', q, r)
  {
    hide WakeOk, HeldOk;
  }

  lemma ScanWake(s: State, p: Proc, q: Proc, r: Proc, l: Lock)
    requires CanRun(s, p) && s.procs[p].pc.at == WakeScan && Around(s, p, q, r, l)
    ensures Wf(RunStep(s, p), q, l) && WakeOk(RunStep(s, p), q, l)
  {
    hide HeldOk;
  }

  /** A call begins, or a process sleeps elsewhere and is woken there. */
  lemma CallKeeps(s: State, a: Action, q: Proc, r: Proc, l: Lock)
    requires Enabled(s, a) && (a.Acquire? || a.Release? || a.SleepOn? || a.WakeElsewhere?) && Around(s, a.p, q, r, l)
    ensures Facts(Apply(s, a), q, r, l)
  {
  }

  /** The scheduler resumes a process, or kill makes a sleeper RUNNABLE. */
  lemma OuterKeeps(s: State, a: Action, q: Proc, r: Proc, l: Lock)
    requires Enabled(s, a) && (a.Schedule? || a.Kill?) && Around(s, a.p, q, r, l)
    ensures Facts(Apply(s, a), q, r, l)
  {
  }

  lemma FactsKept(s: State, a: Action, q: Proc, r: Proc, l: Lock)
    requires Enabled(s, a) && Around(s, a.p, q, r, l)
    ensures Facts(Apply(s, a), q, r, l)
  {
    hide Facts, Around;
    match a {
      case Run(p) =>
        match s.procs[p].pc.at {
          case AcqEnter => TakeSpinKeeps(s, p, q, r, l);
          case SleepRelock => TakeSpinKeeps(s, p, q, r, l);
          case RelEnter => TakeSpinKeeps(s, p, q, r, l);
          case SleepUnlock => UnlockKeeps(s, p, q, r, l);
          case AcqLeave => DropSpinKeeps(s, p, q, r, l);
          case RelLeave => DropSpinKeeps(s, p, q, r, l);
          case SleepEnter => OwnLockKeeps(s, p, q, r, l);
          case SleepTidy => OwnLockKeeps(s, p, q, r, l);
          case SleepCommit => CommitKeeps(s, p, q, r, l);
          case SleepSwitch => CommitKeeps(s, p, q, r, l);
          case AcqTest => TestKeeps(s, p, q, r, l);
          case AcqSet => FlagKeeps(s, p, q, r, l);
          case RelClear => FlagKeeps(s, p, q, r, l);
          case WakeScan => ScanKeeps(s, p, q, r, l);
          case WakeLook => LookKeeps(s, p, q, r, l);
          case Switched =>
        }
      case Schedule(_) => OuterKeeps(s, a, q, r, l);
      case Kill(_) => OuterKeeps(s, a, q, r, l);
      case _ => CallKeeps(s, a, q, r, l);
    }
  }

  lemma InvAround(s: State, p: Proc, q: Proc, r: Proc, l: Lock)
    requires Inv(s) && p < |s.procs| && Wf(s, q, l) && r < |s.procs|
    ensures Around(s, p, q, r, l)
  {
    hide SpinOk, ProcSpinOk, HeldOk, WakeOk;
  }

  lemma FactsInv(s: State)
    requires s.locks != []
    requires forall q: nat, r: nat, l: nat :: Wf(s, q, l) && r < |s.procs| ==> Facts(s, q, r, l)
    ensures Inv(s)
  {
    forall q: nat | q < |s.procs|
      ensures ProcOk(s, q)
    {
      assert Facts(s, q, q, 0);
    }
    forall q: nat, r: nat | q < |s.procs| && r < |s.procs|
      ensures ProcSpinOk(s, q, r)
    {
      assert Facts(s, q, r, 0);
    }
    forall q: nat, l: nat | Wf(s, q, l)
      ensures SpinOk(s, q, l) && HeldOk(s, q, l) && WakeOk(s, q, l)
    {
      assert Facts(s, q, q, l);
    }
  }

  lemma SameSize(s: State, a: Action)
    requires Enabled(s, a)
    ensures |Apply(s, a).procs| == |s.procs| && |Apply(s, a).locks| == |s.locks|
  {
  }

  /** Every step keeps the invariant. */
  lemma StepKeeps(s: State, a: Action)
    requires Inv(s) && Enabled(s, a)
    ensures Inv(Apply(s, a))
  {
    var s' := Apply(s, a);
    SameSize(s, a);
    forall q: nat, r: nat, l: nat | Wf(s, q, l) && r < |s.procs|
      ensures Facts(s', q, r, l)
    {
      InvAround(s, a.p, q, r, l);
      FactsKept(s, a, q, r, l);
    }
    FactsInv(s');
  }

  // ---- runs

  /** All processes elsewhere, all locks free. */
  predicate Init(s: State) {
    && s.locks != [] && s.held == {}
    && (forall l :: 0 <= l < |s.locks| ==> s.locks[l] == SLock(None, false, None))
    && (forall p :: 0 <= p < |s.procs| ==> s.procs[p] == PState(Outside, false, None, None))
  }

  /** The states of a run, each by an enabled action from the one before. */
  ghost predicate IsRun(trace: seq<State>, acts: seq<Action>) {
    && |trace| == |acts| + 1 && Init(trace[0])
    && forall t :: 0 <= t < |acts| ==> Enabled(trace[t], acts[t]) && trace[t + 1] == Apply(trace[t], acts[t])
  }

  lemma {:induction false} RunInv(trace: seq<State>, acts: seq<Action>, t: nat)
    requires IsRun(trace, acts) && t < |trace|
    ensures Inv(trace[t])
  {
    if t > 0 {
      RunInv(trace, acts, t - 1);
      StepKeeps(trace[t - 1], acts[t - 1]);
    }
  }

  /** In every state of every run: a sleep lock has at most one holder, the one
      its pid names; and while its spinlock is free and it is unlocked, nobody
      sleeps on it or is about to. */
  lemma NoLostWakeup(trace: seq<State>, acts: seq<Action>, t: nat, l: Lock)
    requires IsRun(trace, acts) && t < |trace| && l < |trace[t].locks|
    ensures var s := trace[t];
            && (forall p: nat, q: nat :: p < |s.procs| && q < |s.procs| && (p, l) in s.held && (q, l) in s.held ==> p == q)
            && (s.locks[l].spin.None? && !s.locks[l].locked ==> forall q: nat :: q < |s.procs| ==> !Asleep(s.procs[q], l))
  {
    RunInv(trace, acts, t);
    var s := trace[t];
    forall p: nat | p < |s.procs|
      ensures (p, l) in s.held ==> s.locks[l].pid == Some(p)
      ensures Asleep(s.procs[p], l) ==> s.locks[l].locked || s.locks[l].spin.Some?
    {
      assert HeldOk(s, p, l) && WakeOk(s, p, l);
    }
  }

  /** `holdingsleep` answers whether the caller holds the lock. */
  lemma HoldingSleep(trace: seq<State>, acts: seq<Action>, t: nat, p: Proc, l: Lock)
    requires IsRun(trace, acts) && t < |trace| && Wf(trace[t], p, l)
    ensures var s := trace[t]; (s.locks[l].locked && s.locks[l].pid == Some(p)) <==> (p, l) in s.held
  {
    RunInv(trace, acts, t);
    assert HeldOk(trace[t], p, l);
  }

  // ---- what the calls do

  /** The labels of acquiresleep, and of the sleep inside it. */
  predicate Acquiring(s: State, p: Proc, l: Lock) {
    && p < |s.procs| && s.procs[p].pc.In? && s.procs[p].pc.l == l
    && match s.procs[p].pc.at
       case RelEnter => false
       case RelClear => false
       case WakeScan => false
       case WakeLook => false
       case RelLeave => false
       case _ => true
  }

  /** The labels of releasesleep, and of the wakeup inside it. */
  predicate Releasing(s: State, p: Proc, l: Lock) {
    && p < |s.procs| && s.procs[p].pc.In? && s.procs[p].pc.l == l
    && match s.procs[p].pc.at
       case RelEnter => true
       case RelClear => true
       case WakeScan => true
       case WakeLook => true
       case RelLeave => true
       case _ => false
  }

  /** Before the flag is cleared. */
  predicate Uncleared(s: State, p: Proc) {
    p < |s.procs| && s.procs[p].pc.In? && (s.procs[p].pc.at == RelEnter || s.procs[p].pc.at == RelClear)
  }

  /** Process `p` has lock `l`, as the lock itself says. */
  predicate Has(s: State, p: Proc, l: Lock) {
    l < |s.locks| && (p, l) in s.held && s.locks[l].locked && s.locks[l].pid == Some(p)
  }

  /** What others do to `p`: they may make it RUNNABLE, and take no lock for it. */
  lemma OthersLeave(s: State, a: Action, p: Proc, l: Lock)
    requires Enabled(s, a) && p < |s.procs| && a.p != p
    ensures var s' := Apply(s, a);
            && |s'.procs| == |s.procs| && |s'.locks| == |s.locks| && s'.procs[p].pc == s.procs[p].pc
            && ((p, l) in s'.held <==> (p, l) in s.held)
  {
  }

  lemma AcquireOn(s: State, a: Action, p: Proc, l: Lock)
    requires Inv(s) && Enabled(s, a) && Acquiring(s, p, l)
    ensures var s' := Apply(s, a); p < |s'.procs| && (Acquiring(s', p, l) || (s'.procs[p].pc == Outside && Has(s', p, l)))
  {
    assert ProcOk(s, p) && HeldOk(s, p, l);
    hide Inv;
    if a.p != p {
      OthersLeave(s, a, p, l);
      hide Apply, Enabled;
    }
  }

  lemma ReleaseOn(s: State, a: Action, p: Proc, l: Lock)
    requires Inv(s) && Enabled(s, a) && Releasing(s, p, l)
    ensures var s' := Apply(s, a);
            && p < |s'.procs| && l < |s'.locks| && (Releasing(s', p, l) || s'.procs[p].pc == Outside)
            && ((p, l) !in s.held ==> (p, l) !in s'.held)
            && (Uncleared(s, p) ==> Uncleared(s', p) || ((p, l) !in s'.held && !s'.locks[l].locked))
            && (!Uncleared(s, p) ==> !Uncleared(s', p))
  {
    assert ProcOk(s, p);
    hide Inv;
    if a.p != p {
      OthersLeave(s, a, p, l);
      hide Apply, Enabled;
    }
  }

  /** State `u` comes after the call at `t`, and `p` has not returned in between. */
  ghost predicate Still(trace: seq<State>, acts: seq<Action>, t: nat, u: nat, p: Proc) {
    && IsRun(trace, acts) && t < u < |trace| && p < |trace[u].procs|
    && forall v :: t < v < u ==> p < |trace[v].procs| && trace[v].procs[p].pc != Outside
  }

  lemma {:induction false} AcquireOnward(trace: seq<State>, acts: seq<Action>, t: nat, u: nat, p: Proc, l: Lock)
    requires Still(trace, acts, t, u, p) && acts[t] == Acquire(p, l)
    ensures Acquiring(trace[u], p, l) || (trace[u].procs[p].pc == Outside && Has(trace[u], p, l))
    decreases u
  {
    hide Inv, Init;
    if u > t + 1 {
      AcquireOnward(trace, acts, t, u - 1, p, l);
      RunInv(trace, acts, u - 1);
      hide Has, Apply, Enabled;
      AcquireOn(trace[u - 1], acts[u - 1], p, l);
    }
  }

  /** Whoever returns from acquiresleep has the lock. */
  lemma AcquireReturns(trace: seq<State>, acts: seq<Action>, t: nat, u: nat, p: Proc, l: Lock)
    requires Still(trace, acts, t, u, p) && acts[t] == Acquire(p, l) && trace[u].procs[p].pc == Outside
    ensures l < |trace[u].locks| && (p, l) in trace[u].held
    ensures trace[u].locks[l].locked && trace[u].locks[l].pid == Some(p)
  {
    AcquireOnward(trace, acts, t, u, p, l);
  }

  /** The lock was seen unlocked between the call and state `u`. */
  predicate Unlocked(trace: seq<State>, t: nat, u: nat, l: Lock) {
    exists v :: t < v <= u < |trace| && l < |trace[v].locks| && !trace[v].locks[l].locked
  }

  lemma {:induction false} ReleaseOnward(trace: seq<State>, acts: seq<Action>, t: nat, u: nat, p: Proc, l: Lock)
    requires Still(trace, acts, t, u, p) && acts[t] == Release(p, l)
    ensures l < |trace[u].locks| && (Releasing(trace[u], p, l) || trace[u].procs[p].pc == Outside)
    ensures Uncleared(trace[u], p) || (Unlocked(trace, t, u, l) && (p, l) !in trace[u].held)
    decreases u
  {
    hide Inv, Init;
    if u > t + 1 {
      ReleaseOnward(trace, acts, t, u - 1, p, l);
      RunInv(trace, acts, u - 1);
      hide Apply, Enabled, Uncleared;
      ReleaseOn(trace[u - 1], acts[u - 1], p, l);
      assert Unlocked(trace, t, u - 1, l) ==> Unlocked(trace, t, u, l);
    }
  }

  /** Whoever returns from releasesleep no longer has the lock, and others could have taken
      it since the call. */
  lemma ReleaseReturns(trace: seq<State>, acts: seq<Action>, t: nat, u: nat, p: Proc, l: Lock)
    requires Still(trace, acts, t, u, p) && acts[t] == Release(p, l) && trace[u].procs[p].pc == Outside
    ensures (p, l) !in trace[u].held && l < |trace[u].locks| && !(trace[u].locks[l].locked && trace[u].locks[l].pid == Some(p))
    ensures exists v :: t < v <= u && l < |trace[v].locks| && !trace[v].locks[l].locked
  {
    ReleaseOnward(trace, acts, t, u, p, l);
    RunInv(trace, acts, u);
    assert HeldOk(trace[u], p, l);
  }

  /** In the sleep of acquiresleep on `l`, before and after it is off the CPU. */
  predicate Dozing(s: State, p: Proc, l: Lock) {
    && p < |s.procs| && s.procs[p].pc.In? && s.procs[p].pc.l == l
    && match s.procs[p].pc.at
       case SleepEnter => true
       case SleepUnlock => true
       case SleepCommit => true
       case SleepSwitch => true
       case _ => false
  }

  predicate Waking(s: State, p: Proc, l: Lock) {
    && p < |s.procs| && s.procs[p].pc.In? && s.procs[p].pc.l == l
    && match s.procs[p].pc.at
       case SleepTidy => true
       case SleepRelock => true
       case AcqTest => true
       case _ => false
  }

  /** Off the CPU, without the spinlock. */
  predicate OffCpu(s: State, p: Proc, l: Lock) {
    p < |s.procs| && l < |s.locks| && s.procs[p].pc.In? && s.procs[p].pc.l == l && s.procs[p].pc.at == Switched && s.locks[l].spin != Some(p)
  }

  lemma SleepOnward(s: State, a: Action, p: Proc, l: Lock)
    requires Inv(s) && Enabled(s, a) && (Dozing(s, p, l) || OffCpu(s, p, l) || (Waking(s, p, l) && s.procs[p].pc.at != AcqTest))
    ensures var s' := Apply(s, a);
            && (Dozing(s', p, l) || OffCpu(s', p, l) || Waking(s', p, l))
            && (Waking(s', p, l) ==> !Dozing(s, p, l))
  {
    assert ProcOk(s, p) && SpinOk(s, p, l);
    SameSize(s, a);
    StepKeeps(s, a);
    assert SpinOk(Apply(s, a), p, l);
    hide Inv;
    if a.p != p {
      OthersLeave(s, a, p, l);
      hide Apply, Enabled;
    }
  }

  /** Process `p` found the lock taken at step `t` and has not tested it again before state `u`. */
  ghost predicate FoundTaken(trace: seq<State>, acts: seq<Action>, t: nat, u: nat, p: Proc, l: Lock) {
    && IsRun(trace, acts) && t < u < |trace| && acts[t] == Run(p) && Wf(trace[t], p, l)
    && trace[t].procs[p].pc.In? && trace[t].procs[p].pc.l == l && trace[t].procs[p].pc.at == AcqTest && trace[t].locks[l].locked
    && forall v :: t < v < u ==> p < |trace[v].procs| && !(trace[v].procs[p].pc.In? && trace[v].procs[p].pc.at == AcqTest)
  }

  predicate Slept(trace: seq<State>, t: nat, u: nat, p: Proc, l: Lock) {
    exists v :: t < v < u < |trace| && OffCpu(trace[v], p, l)
  }

  lemma SleepFirst(s: State, p: Proc, l: Lock)
    requires Enabled(s, Run(p)) && l < |s.locks| && s.procs[p].pc.In? && s.procs[p].pc.l == l && s.procs[p].pc.at == AcqTest && s.locks[l].locked
    ensures Dozing(Apply(s, Run(p)), p, l) && !Waking(Apply(s, Run(p)), p, l)
  {
  }

  lemma AtTest(s: State, p: Proc, l: Lock)
    requires Waking(s, p, l) && !(s.procs[p].pc.In? && s.procs[p].pc.at == AcqTest)
    ensures Waking(s, p, l) && s.procs[p].pc.at != AcqTest
  {
  }

  lemma {:induction false} SleepsOnward(trace: seq<State>, acts: seq<Action>, t: nat, u: nat, p: Proc, l: Lock)
    requires FoundTaken(trace, acts, t, u, p, l)
    ensures Dozing(trace[u], p, l) || OffCpu(trace[u], p, l) || Waking(trace[u], p, l)
    ensures Waking(trace[u], p, l) ==> Slept(trace, t, u, p, l)
    decreases u
  {
    hide Inv, Init, Apply, Enabled, OffCpu, Dozing, Waking;
    if u > t + 1 {
      var k: nat := u - 1;
      SleepsOnward(trace, acts, t, k, p, l);
      RunInv(trace, acts, k);
      if Waking(trace[k], p, l) { AtTest(trace[k], p, l); }
      SleepOnward(trace[k], acts[k], p, l);
      assert Slept(trace, t, k, p, l) ==> Slept(trace, t, u, p, l);
    } else {
      SleepFirst(trace[t], p, l);
    }
  }

  /** A process that finds the lock taken sleeps: it has been off the CPU, without the
      spinlock, before it tests the lock again. */
  lemma SleepsNotSpins(trace: seq<State>, acts: seq<Action>, t: nat, u: nat, p: Proc, l: Lock)
    requires FoundTaken(trace, acts, t, u, p, l)
    requires p < |trace[u].procs| && trace[u].procs[p].pc.In? && trace[u].procs[p].pc.at == AcqTest
    ensures exists v :: t < v < u && OffCpu(trace[v], p, l)
  {
    SleepsOnward(trace, acts, t, u, p, l);
  }
}
