/**
  push_off and pop_off (kernel/spinlock.c) under the steps of SleepLock: each
  process carries noff and intena of the CPU it runs on, and whether interrupts
  are on there. sched keeps intena for the process across the switch.
 */
module Interrupts {

  import opened Common
  import opened SleepLock

  /** `was`: interrupts as the process entered acquiresleep or releasesleep. */
  datatype Cpu = Cpu(noff: nat, intena: bool, intr: bool, was: bool)

  function PushOff(c: Cpu): Cpu {
    Cpu(c.noff + 1, if c.noff == 0 then c.intr else c.intena, false, c.was)
  }

  /** Neither panic of pop_off. */
  predicate PopSafe(c: Cpu) {
    !c.intr && c.noff >= 1
  }

  function PopOff(c: Cpu): Cpu
    requires PopSafe(c)
  {
    Cpu(c.noff - 1, c.intena, c.noff == 1 && c.intena, c.was)
  }

  /** The lock operation that the next step of a process is. */
  datatype Locking = Acquires | Releases | Yields | Neither

  function Kind(s: State, p: Proc): Locking
    requires Inside(s, p)
  {
    var pc := s.procs[p].pc;
    match pc.at
    case AcqEnter => Acquires
    case SleepEnter => Acquires
    case SleepRelock => Acquires
    case RelEnter => Acquires
    case WakeScan => if pc.k < |s.procs| && pc.k != p then Acquires else Neither
    case SleepUnlock => Releases
    case SleepTidy => Releases
    case AcqLeave => Releases
    case WakeLook => Releases
    case RelLeave => Releases
    case SleepSwitch => Yields
    case _ => Neither
  }

  datatype World = World(s: State, cpus: seq<Cpu>)

  datatype Event = Kernel(a: Action) | Intr(p: Proc, on: bool)   // Intr: elsewhere, a process turns interrupts on or off

  predicate CanHappen(w: World, e: Event) {
    && |w.cpus| == |w.s.procs|
    && match e
       case Kernel(a) => Enabled(w.s, a)
       case Intr(p, _) => p < |w.cpus| && w.s.procs[p].pc == Outside
  }

  /** No step of a lock panics: acquire of a lock one holds, release of one that one does
      not, pop_off, or sched. */
  predicate Safe(w: World, e: Event)
    requires CanHappen(w, e)
  {
    e.Kernel? && e.a.Run? ==>
      var p := e.a.p;
      var c := w.cpus[p];
      match Kind(w.s, p)
      case Releases => Owns(w.s, p) && PopSafe(c)
      case Yields => w.s.procs[p].spin == Some(p) && c.noff == 1 && w.s.procs[p].sleeping && !c.intr
      case _ => true
  }

  /** `p` owns the lock that it is about to release. */
  predicate Owns(s: State, p: Proc)
    requires Inside(s, p)
  {
    var pc := s.procs[p].pc;
    if pc.at == SleepTidy then s.procs[p].spin == Some(p)
    else if pc.at == WakeLook then pc.k < |s.procs| && s.procs[pc.k].spin == Some(p)
    else s.locks[pc.l].spin == Some(p)
  }

  function CpuAfter(w: World, e: Event): seq<Cpu>
    requires CanHappen(w, e) && Safe(w, e)
  {
    match e
    case Intr(p, on) => w.cpus[p := Cpu(w.cpus[p].noff, w.cpus[p].intena, on, w.cpus[p].was)]
    case Kernel(a) =>
      var c := w.cpus[a.p];
      w.cpus[a.p :=
        match a
        case Run(p) => (match Kind(w.s, p) case Acquires => PushOff(c) case Releases => PopOff(c) case _ => c)
        case Acquire(_, _) => Cpu(c.noff, c.intena, c.intr, c.intr)
        case Release(_, _) => Cpu(c.noff, c.intena, c.intr, c.intr)
        case Schedule(_) => Cpu(1, c.intena, false, c.was)      // the scheduler has acquired p->lock; sched restores intena
        case _ => c]
  }

  function Happen(w: World, e: Event): World
    requires CanHappen(w, e) && Safe(w, e)
  {
    World(match e case Kernel(a) => Apply(w.s, a) case Intr(_, _) => w.s, CpuAfter(w, e))
  }

  // ---- the invariant

  /** How many spinlocks a process holds. */
  function Depth(pc: Pc): nat {
    if !pc.In? then 0
    else
      match pc.at
      case AcqEnter => 0
      case Switched => 1
      case SleepRelock => 0
      case RelEnter => 0
      case SleepUnlock => 2
      case WakeLook => 2
      case _ => 1
  }

  predicate CpuOk(c: Cpu, pc: Pc) {
    && c.noff == Depth(pc)
    && (c.noff > 0 ==> !c.intr && c.intena == c.was)
    && (pc.In? && c.noff == 0 ==> c.intr == c.was)
  }

  ghost predicate WorldOk(w: World) {
    && Inv(w.s) && |w.cpus| == |w.s.procs|
    && forall p: nat {:trigger CpuOk(w.cpus[p], w.s.procs[p].pc)} :: p < |w.cpus| ==> CpuOk(w.cpus[p], w.s.procs[p].pc)
  }

  lemma StepSafe(w: World, e: Event)
    requires WorldOk(w) && CanHappen(w, e)
    ensures Safe(w, e)
  {
    if e.Kernel? && e.a.Run? {
      var p := e.a.p;
      var pc := w.s.procs[p].pc;
      assert CpuOk(w.cpus[p], pc);
      assert ProcOk(w.s, p) && SpinOk(w.s, p, pc.l) && ProcSpinOk(w.s, p, p);
      if pc.at == WakeLook { assert ProcSpinOk(w.s, p, pc.k); }
    }
  }

  /** Only the process that moves, moves. */
  lemma OthersStay(s: State, a: Action, q: Proc)
    requires Enabled(s, a) && q < |s.procs| && q != a.p
    ensures |Apply(s, a).procs| == |s.procs| && Apply(s, a).procs[q].pc == s.procs[q].pc
  {
  }

  lemma MoverOk(w: World, e: Event)
    requires WorldOk(w) && CanHappen(w, e) && Safe(w, e) && e.Kernel?
    ensures var w' := Happen(w, e); e.a.p < |w'.cpus| == |w'.s.procs| && CpuOk(w'.cpus[e.a.p], w'.s.procs[e.a.p].pc)
  {
    var p := e.a.p;
    assert CpuOk(w.cpus[p], w.s.procs[p].pc) && ProcOk(w.s, p);
    hide Inv;
  }

  /** Every step is safe and keeps the counts. */
  lemma WorldKeeps(w: World, e: Event)
    requires WorldOk(w) && CanHappen(w, e)
    ensures Safe(w, e) && WorldOk(Happen(w, e))
  {
    StepSafe(w, e);
    var w' := Happen(w, e);
    if e.Kernel? {
      StepKeeps(w.s, e.a);
      SameSize(w.s, e.a);
      MoverOk(w, e);
    }
    hide Inv, RunStep;
    forall q: nat | q < |w'.cpus|
      ensures CpuOk(w'.cpus[q], w'.s.procs[q].pc)
    {
      assert CpuOk(w.cpus[q], w.s.procs[q].pc);
      if e.Kernel? && q != e.a.p { OthersStay(w.s, e.a, q); }
    }
  }

  // ---- runs

  ghost predicate Boot(w: World) {
    Init(w.s) && |w.cpus| == |w.s.procs| && forall p :: 0 <= p < |w.cpus| ==> w.cpus[p].noff == 0
  }

  ghost predicate IsWorldRun(trace: seq<World>, es: seq<Event>) {
    && |trace| == |es| + 1 && Boot(trace[0])
    && forall t :: 0 <= t < |es| ==> CanHappen(trace[t], es[t]) && Safe(trace[t], es[t]) && trace[t + 1] == Happen(trace[t], es[t])
  }

  lemma BootOk(w: World)
    requires Boot(w)
    ensures WorldOk(w)
  {
    forall p: nat | p < |w.cpus|
      ensures CpuOk(w.cpus[p], w.s.procs[p].pc)
    {
      assert w.s.procs[p].pc == Outside;
    }
    RunInv([w.s], [], 0);
  }

  lemma {:induction false} WorldRun(trace: seq<World>, es: seq<Event>, t: nat)
    requires IsWorldRun(trace, es) && t < |trace|
    ensures WorldOk(trace[t])
  {
    hide WorldOk, Happen, CanHappen, Safe;
    if t == 0 {
      BootOk(trace[0]);
    } else {
      WorldRun(trace, es, t - 1);
      WorldKeeps(trace[t - 1], es[t - 1]);
    }
  }

  /** Whatever can happen next in a run is safe: no acquire, release, pop_off or sched of
      these operations ever panics, so runs never stop short. */
  lemma NeverPanics(trace: seq<World>, es: seq<Event>, t: nat, e: Event)
    requires IsWorldRun(trace, es) && t < |trace| && CanHappen(trace[t], e)
    ensures Safe(trace[t], e)
  {
    WorldRun(trace, es, t);
    StepSafe(trace[t], e);
  }

  /** sched is entered with p->lock held and no other lock, noff 1, interrupts off and the
      state changed. */
  lemma SchedEntered(trace: seq<World>, es: seq<Event>, t: nat, p: Proc)
    requires IsWorldRun(trace, es) && t < |trace| && p < |trace[t].s.procs|
    requires trace[t].s.procs[p].pc.In? && trace[t].s.procs[p].pc.at == SleepSwitch
    ensures var w := trace[t];
            && |w.cpus| == |w.s.procs| && w.cpus[p].noff == 1 && !w.cpus[p].intr
            && w.s.procs[p].spin == Some(p) && w.s.procs[p].sleeping
            && (forall l: nat :: l < |w.s.locks| ==> w.s.locks[l].spin != Some(p))
            && (forall q: nat :: q < |w.s.procs| && q != p ==> w.s.procs[q].spin != Some(p))
  {
    WorldRun(trace, es, t);
    var s := trace[t].s;
    assert CpuOk(trace[t].cpus[p], s.procs[p].pc);
    assert ProcOk(s, p) && ProcSpinOk(s, p, p);
    forall l: nat | l < |s.locks|
      ensures s.locks[l].spin != Some(p)
    {
      assert SpinOk(s, p, l);
    }
    forall q: nat | q < |s.procs| && q != p
      ensures s.procs[q].spin != Some(p)
    {
      assert ProcSpinOk(s, p, q);
    }
  }

  /** acquire never finds that its caller has the lock already, which is a panic too. */
  lemma NoSelfAcquire(trace: seq<World>, es: seq<Event>, t: nat, p: Proc)
    requires IsWorldRun(trace, es) && t < |trace| && Inside(trace[t].s, p) && Kind(trace[t].s, p) == Acquires
    ensures var s, pc := trace[t].s, trace[t].s.procs[p].pc;
            if pc.at == SleepEnter then s.procs[p].spin != Some(p)
            else if pc.at == WakeScan then s.procs[pc.k].spin != Some(p)
            else s.locks[pc.l].spin != Some(p)
  {
    WorldRun(trace, es, t);
    var s, pc := trace[t].s, trace[t].s.procs[p].pc;
    assert SpinOk(s, p, pc.l) && ProcSpinOk(s, p, p);
    if pc.at == WakeScan { assert ProcSpinOk(s, p, pc.k); }
  }

  /** acquiresleep and releasesleep return with interrupts as they were called, through any
      number of sleeps on any number of CPUs. */
  lemma InterruptsRestored(trace: seq<World>, es: seq<Event>, t: nat, p: Proc)
    requires IsWorldRun(trace, es) && t < |es| && es[t] == Kernel(Run(p))
    requires p < |trace[t + 1].s.procs| && trace[t + 1].s.procs[p].pc == Outside
    ensures p < |trace[t].cpus| && p < |trace[t + 1].cpus|
    ensures trace[t + 1].cpus[p].intr == trace[t + 1].cpus[p].was == trace[t].cpus[p].was && trace[t + 1].cpus[p].noff == 0
  {
    WorldRun(trace, es, t);
    WorldRun(trace, es, t + 1);
    assert CpuOk(trace[t].cpus[p], trace[t].s.procs[p].pc);
    hide Inv;
  }
}
