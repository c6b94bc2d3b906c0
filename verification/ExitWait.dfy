/**
  fork, exit and wait of kernel/proc.c as interleaved steps of all processes.
  wait_lock, and a process's own lock in exit and sleep, are held across
  steps. A lock taken and dropped around code that only touches what it guards
  is one step, possible when the lock is free.
 */
module ExitWait {

  import opened Common

  type Proc = nat

  const INIT: Proc := 0

  /** enum procstate; Awake is RUNNABLE or RUNNING. */
  datatype PState = Unused | Used | Awake | Sleeping | Zombie

  /** What a process sleeps on: a struct proc, as in wait, or something else. */
  datatype Chan = NoChan | OnProc(p: Proc) | OnOther(c: nat)

  datatype Label =
    | Idle          // no thread: unused, being forked, or dead
    | User          // anywhere else in user or kernel code
    | Elsewhere     // asleep on some other channel
    | ForkLink      // allocproc gave `k`; np->parent = p under wait_lock
    | ForkStart     // np->state = RUNNABLE under np->lock
    | ExitEnter     // acquire(&wait_lock)
    | Reparent      // reparent: looking at process `k`
    | WakeScan      // wakeup: at process `j`
    | ExitLock      // acquire(&p->lock); p->state = ZOMBIE
    | ExitUnlock    // release(&wait_lock)
    | ExitSwitch    // sched(): the scheduler drops p->lock
    | WaitEnter     // acquire(&wait_lock), in wait or at the end of sleep
    | WaitScan      // the table scan, at process `k`
    | WaitLeave     // release(&wait_lock)
    | SleepEnter    // sleep: acquire(&p->lock)
    | SleepUnlock   // release(&wait_lock)
    | SleepCommit   // p->chan = p; p->state = SLEEPING
    | SleepSwitch   // sched()
    | Switched      // off the CPU until RUNNABLE and chosen

  /** struct proc with the place of its thread: `flag` is havekids in wait, and
      whether wakeup is the one on the parent in exit. `maker` records the
      process whose fork is making this one. */
  datatype Slot = Slot(at: Label, k: Proc, j: Proc, flag: bool, st: PState, parent: Option<nat>, chan: Chan, maker: Option<nat>)

  datatype State = State(procs: seq<Slot>, waitLock: Option<nat>)

  datatype Action =
    | Run(p: Proc)                 // the next step of p
    | Fork(p: Proc, k: Proc)       // p calls fork and allocproc finds slot k
    | ForkFails(p: Proc)           // no memory for the copy: freeproc(np)
    | Exit(p: Proc)
    | Wait(p: Proc)
    | CopyFails(p: Proc)           // copyout of the status fails
    | Killed(p: Proc)              // p is killed and leaves wait
    | Schedule(p: Proc)            // the scheduler picks p
    | SleepOn(p: Proc, c: nat)
    | WakeElsewhere(p: Proc)
    | Kill(p: Proc)

  /** Between acquire and release of wait_lock. */
  predicate HasWait(at: Label) {
    || at == Reparent || at == WakeScan || at == ExitLock || at == ExitUnlock
    || at == WaitScan || at == WaitLeave || at == SleepEnter || at == SleepUnlock
  }

  /** Between acquire and release of one's own lock. */
  predicate HasOwn(at: Label) {
    at == ExitUnlock || at == ExitSwitch || at == SleepUnlock || at == SleepCommit || at == SleepSwitch
  }

  /** Whom the wakeup in exit is for. */
  function Target(x: Slot): Option<nat> {
    if x.flag then x.parent else Some(INIT)
  }

  function Blank(): Slot {
    Slot(Idle, 0, 0, false, Unused, None, NoChan, None)
  }

  // A step of `p` at `x`, with `y` the process it looks at, among `n`.

  /** Whether the locks it acquires are free. */
  predicate CanStep(p: Proc, x: Slot, y: Slot, n: nat, wait: Option<nat>) {
    match x.at
    case Idle => false
    case User => false
    case Elsewhere => false
    case Switched => false
    case ForkLink => wait.None?
    case ExitEnter => wait.None?
    case WaitEnter => wait.None?
    case ForkStart => !HasOwn(y.at)
    case WakeScan => x.j < n && x.j != p ==> !HasOwn(y.at)
    case WaitScan => x.k < n && y.parent == Some(p) ==> !HasOwn(y.at)
    case _ => true
  }

  /** What becomes of `p` itself. */
  function Self(p: Proc, x: Slot, y: Slot, n: nat): Slot {
    match x.at
    case ForkLink => x.(at := ForkStart)
    case ForkStart => x.(at := User)
    case ExitEnter => x.(at := Reparent, k := 0)
    case Reparent =>
      if x.k >= n then x.(at := WakeScan, j := 0, flag := true)
      else if y.parent == Some(p) then x.(at := WakeScan, j := 0, flag := false)
      else x.(k := x.k + 1)
    case WakeScan =>
      if x.j < n then x.(j := x.j + 1)
      else if x.flag then x.(at := ExitLock)
      else x.(at := Reparent, k := x.k + 1)
    case ExitLock => x.(at := ExitUnlock, st := Zombie)
    case ExitUnlock => x.(at := ExitSwitch)
    case ExitSwitch => x.(at := Idle)
    case WaitEnter => x.(at := WaitScan, k := 0, flag := false)
    case WaitScan =>
      if x.k >= n then x.(at := if x.flag then SleepEnter else WaitLeave)
      else if y.parent != Some(p) then x.(k := x.k + 1)
      else if y.st == Zombie then x.(at := WaitLeave)
      else x.(k := x.k + 1, flag := true)
    case WaitLeave => x.(at := User)
    case SleepEnter => x.(at := SleepUnlock)
    case SleepUnlock => x.(at := SleepCommit)
    case SleepCommit => x.(at := SleepSwitch, st := Sleeping, chan := OnProc(p))
    case SleepSwitch => x.(at := Switched)
    case _ => x
  }

  /** What becomes of the other process: linked, started, given to init, woken
      or freed. */
  function Other(p: Proc, x: Slot, y: Slot, n: nat): Slot {
    match x.at
    case ForkLink => y.(parent := Some(p))
    case ForkStart => y.(st := Awake, at := User, maker := None)
    case Reparent => if x.k < n && y.parent == Some(p) then y.(parent := Some(INIT)) else y
    case WakeScan =>
      if x.j < n && x.j != p && y.st == Sleeping && Target(x).Some? && y.chan == OnProc(Target(x).value) then y.(st := Awake) else y
    case WaitScan => if x.k < n && y.parent == Some(p) && y.st == Zombie then Blank() else y
    case _ => y
  }

  /** What becomes of wait_lock. */
  function WaitAfter(p: Proc, at: Label, wait: Option<nat>): Option<nat> {
    match at
    case ExitEnter => Some(p)
    case WaitEnter => Some(p)
    case ExitUnlock => None
    case WaitLeave => None
    case SleepUnlock => None
    case _ => wait
  }

  /** The process that an action looks at besides the one that acts. */
  function Second(s: State, a: Action): Proc
    requires a.p < |s.procs|
  {
    var x := s.procs[a.p];
    var t := if a.Fork? then a.k else if x.at == WakeScan then x.j else x.k;
    if t < |s.procs| then t else a.p
  }

  predicate Can(a: Action, x: Slot, y: Slot, n: nat, wait: Option<nat>) {
    match a
    case Run(p) => CanStep(p, x, y, n, wait)
    case Fork(p, k) => x.at == User && k < n && k != p && y.st == Unused
    case ForkFails(p) => x.at == ForkLink
    case Exit(p) => x.at == User && p != INIT
    case Wait(p) => x.at == User
    case CopyFails(p) => x.at == WaitScan && x.k < n && y.parent == Some(p) && !HasOwn(y.at) && y.st == Zombie
    case Killed(p) => x.at == WaitScan && x.k >= n
    case Schedule(p) => x.at == Switched && x.st == Awake
    case SleepOn(p, _) => x.at == User
    case WakeElsewhere(p) => x.at == Elsewhere
    case Kill(p) => !HasOwn(x.at)
  }

  function SelfAfter(a: Action, x: Slot, y: Slot, n: nat): Slot {
    match a
    case Run(p) => Self(p, x, y, n)
    case Fork(p, k) => x.(at := ForkLink, k := k)
    case ForkFails(p) => x.(at := User)
    case Exit(p) => x.(at := ExitEnter)
    case Wait(p) => x.(at := WaitEnter)
    case CopyFails(p) => x.(at := WaitLeave)
    case Killed(p) => x.(at := WaitLeave)
    case Schedule(p) => x.(at := WaitEnter, chan := NoChan)
    case SleepOn(p, c) => x.(at := Elsewhere, st := Sleeping, chan := OnOther(c))
    case WakeElsewhere(p) => x.(at := User, st := Awake, chan := NoChan)
    case Kill(p) => if x.st == Sleeping then x.(st := Awake) else x
  }

  function OtherAfter(a: Action, x: Slot, y: Slot, n: nat): Slot {
    match a
    case Run(p) => Other(p, x, y, n)
    case Fork(p, k) => y.(st := Used, maker := Some(p))
    case ForkFails(p) => Blank()
    case _ => y
  }

  predicate Enabled(s: State, a: Action) {
    a.p < |s.procs| && Can(a, s.procs[a.p], s.procs[Second(s, a)], |s.procs|, s.waitLock)
  }

  function Apply(s: State, a: Action): State
    requires Enabled(s, a)
  {
    var x, y, n := s.procs[a.p], s.procs[Second(s, a)], |s.procs|;
    State(s.procs[Second(s, a) := OtherAfter(a, x, y, n)][a.p := SelfAfter(a, x, y, n)],
          if a.Run? then WaitAfter(a.p, x.at, s.waitLock) else s.waitLock)
  }

  // ---- the invariant, of one process or between two

  predicate Forking(at: Label) {
    at == ForkLink || at == ForkStart
  }

  /** Committed to sleep in wait: past the release of wait_lock and not yet woken. */
  predicate Asleep(x: Slot) {
    x.at == SleepCommit || x.at == SleepSwitch || (x.at == Switched && x.st == Sleeping)
  }

  /** The state of a process whose thread is at `at`. */
  predicate StateOk(at: Label, st: PState) {
    match at
    case Idle => st == Unused || st == Used || st == Zombie
    case Elsewhere => st == Awake || st == Sleeping
    case SleepSwitch => st == Sleeping
    case Switched => st == Awake || st == Sleeping
    case ExitUnlock => st == Zombie
    case ExitSwitch => st == Zombie
    case _ => st == Awake
  }

  predicate Before(q: Option<nat>, n: nat) {
    q.Some? ==> q.value < n
  }

  predicate Local(p: Proc, x: Slot, n: nat) {
    && (x.at == SleepSwitch || x.at == Switched ==> x.chan == OnProc(p))
    && (Forking(x.at) ==> x.k < n && x.k != p)
    && (x.at == ExitEnter || x.at == Reparent || x.at == WakeScan || x.at == ExitLock ==> p != INIT)
  }

  predicate Life(p: Proc, x: Slot, n: nat) {
    && (x.st == Used <==> x.maker.Some?)
    && (p == INIT ==> x.parent.None? && (x.st == Awake || x.st == Sleeping))
    && (x.st == Unused ==> x.parent.None?)
    && (p != INIT && (x.st == Awake || x.st == Sleeping || x.st == Zombie) ==> x.parent.Some?)
    && Before(x.parent, n) && Before(x.maker, n)
  }

  predicate WaitOk(p: Proc, x: Slot, wait: Option<nat>) {
    HasWait(x.at) <==> wait == Some(p)
  }

  /** `y` is the process that `p` is forking. */
  predicate ForkOk(p: Proc, x: Slot, q: Proc, y: Slot) {
    && (Forking(x.at) && x.k == q <==> y.maker == Some(p))
    && (y.maker == Some(p) ==> y.parent == if x.at == ForkLink then None else Some(p))
  }

  /** In exit, a thread at `x` has given its child `c` away. */
  predicate Disowned(x: Slot, c: Proc) {
    || (x.at == Reparent && c < x.k)
    || (x.at == WakeScan && (x.flag || c <= x.k))
    || x.at == ExitLock
  }

  /** A parent `r` is alive and has not disowned the child `c`. */
  predicate ParentOk(r: Proc, z: Slot, c: Proc, y: Slot) {
    y.parent == Some(r) ==> r != c && (z.st == Awake || z.st == Sleeping) && !Disowned(z, c)
  }

  /** wait has found no zombie among the children scanned so far. */
  predicate ScanOk(w: Proc, z: Slot, c: Proc, y: Slot) {
    y.parent == Some(w) && ((z.at == WaitScan && c < z.k) || z.at == SleepEnter || z.at == SleepUnlock) ==> y.st != Zombie
  }

  /** The holder of wait_lock, at `e`, is waking init and has yet to reach it. */
  predicate WakeComing(w: Proc, e: Slot) {
    w == INIT && e.at == WakeScan && !e.flag && e.j <= w
  }

  /** No wakeup is lost: a waiter asleep with a zombie child has a wakeup
      coming, and so has one whose child is about to be a zombie. */
  predicate WakeOk(w: Proc, z: Slot, c: Proc, y: Slot, e: Slot) {
    && (Asleep(z) && y.parent == Some(w) && y.st == Zombie ==> WakeComing(w, e))
    && (Asleep(z) && y.parent == Some(w) && y.at == WakeScan && y.flag ==> y.j <= w)
    && (y.parent == Some(w) && y.at == ExitLock ==> !Asleep(z))
  }

  // ---- each step keeps it

  /** The process `c` after the action. */
  function New(s: State, a: Action, c: Proc): Slot
    requires a.p < |s.procs| && c < |s.procs|
  {
    var x, y, n := s.procs[a.p], s.procs[Second(s, a)], |s.procs|;
    if c == a.p then SelfAfter(a, x, y, n) else if c == Second(s, a) then OtherAfter(a, x, y, n) else s.procs[c]
  }

  /** The thread that holds wait_lock. */
  function Holder(s: State): Slot {
    if s.waitLock.Some? && s.waitLock.value < |s.procs| then s.procs[s.waitLock.value] else Blank()
  }

  predicate OneSlot(c: Proc, x: Slot, n: nat, wait: Option<nat>) {
    StateOk(x.at, x.st) && Local(c, x, n) && Life(c, x, n) && WaitOk(c, x, wait) && Before(wait, n)
  }

  predicate One(s: State, c: Proc) {
    c < |s.procs| && OneSlot(c, s.procs[c], |s.procs|, s.waitLock)
  }

  predicate Two(s: State, c: Proc, d: Proc) {
    && c < |s.procs| && d < |s.procs|
    && ForkOk(c, s.procs[c], d, s.procs[d]) && ParentOk(c, s.procs[c], d, s.procs[d])
    && ScanOk(c, s.procs[c], d, s.procs[d]) && WakeOk(c, s.procs[c], d, s.procs[d], Holder(s))
  }

  lemma NewAt(s: State, a: Action, c: Proc)
    requires Enabled(s, a) && c < |s.procs|
    ensures var s' := Apply(s, a);
            |s'.procs| == |s.procs| && s'.procs[c] == New(s, a, c) && s'.waitLock == if a.Run? then WaitAfter(a.p, s.procs[a.p].at, s.waitLock) else s.waitLock
  {
    hide SelfAfter, OtherAfter, Can;
  }

  /** wait_lock after the action. */
  function Wait(a: Action, at: Label, wait: Option<nat>): Option<nat> {
    if a.Run? then WaitAfter(a.p, at, wait) else wait
  }

  lemma SelfForks(a: Action, x: Slot, y: Slot, n: nat, wait: Option<nat>)
    requires a.Run? && Forking(x.at) && a.p < n && Can(a, x, y, n, wait) && OneSlot(a.p, x, n, wait)
    ensures OneSlot(a.p, SelfAfter(a, x, y, n), n, Wait(a, x.at, wait))
  {
  }

  lemma SelfExits(a: Action, x: Slot, y: Slot, n: nat, wait: Option<nat>)
    requires a.Run? && (x.at == ExitEnter || x.at == Reparent || x.at == WakeScan) && a.p < n && Can(a, x, y, n, wait) && OneSlot(a.p, x, n, wait)
    ensures OneSlot(a.p, SelfAfter(a, x, y, n), n, Wait(a, x.at, wait))
  {
  }

  lemma SelfDies(a: Action, x: Slot, y: Slot, n: nat, wait: Option<nat>)
    requires a.Run? && (x.at == ExitLock || x.at == ExitUnlock || x.at == ExitSwitch) && a.p < n && Can(a, x, y, n, wait) && OneSlot(a.p, x, n, wait)
    ensures OneSlot(a.p, SelfAfter(a, x, y, n), n, Wait(a, x.at, wait))
  {
  }

  lemma SelfWaits(a: Action, x: Slot, y: Slot, n: nat, wait: Option<nat>)
    requires a.Run? && (x.at == WaitEnter || x.at == WaitScan || x.at == WaitLeave) && a.p < n && Can(a, x, y, n, wait) && OneSlot(a.p, x, n, wait)
    ensures OneSlot(a.p, SelfAfter(a, x, y, n), n, Wait(a, x.at, wait))
  {
  }

  lemma SelfSleeps(a: Action, x: Slot, y: Slot, n: nat, wait: Option<nat>)
    requires a.Run? && (x.at == SleepEnter || x.at == SleepUnlock || x.at == SleepCommit || x.at == SleepSwitch) && a.p < n && Can(a, x, y, n, wait) && OneSlot(a.p, x, n, wait)
    ensures OneSlot(a.p, SelfAfter(a, x, y, n), n, Wait(a, x.at, wait))
  {
  }

  lemma SelfCalls(a: Action, x: Slot, y: Slot, n: nat, wait: Option<nat>)
    requires (a.Fork? || a.ForkFails? || a.Exit? || a.Wait? || a.CopyFails? || a.Killed?) && a.p < n && Can(a, x, y, n, wait) && OneSlot(a.p, x, n, wait)
    ensures OneSlot(a.p, SelfAfter(a, x, y, n), n, Wait(a, x.at, wait))
  {
  }

  lemma SelfElsewhere(a: Action, x: Slot, y: Slot, n: nat, wait: Option<nat>)
    requires (a.SleepOn? || a.WakeElsewhere?) && a.p < n && Can(a, x, y, n, wait) && OneSlot(a.p, x, n, wait)
    ensures OneSlot(a.p, SelfAfter(a, x, y, n), n, Wait(a, x.at, wait))
  {
  }

  lemma SelfWoken(a: Action, x: Slot, y: Slot, n: nat, wait: Option<nat>)
    requires (a.Schedule? || a.Kill?) && a.p < n && Can(a, x, y, n, wait) && OneSlot(a.p, x, n, wait)
    ensures OneSlot(a.p, SelfAfter(a, x, y, n), n, Wait(a, x.at, wait))
  {
  }

  lemma SelfOne(a: Action, x: Slot, y: Slot, n: nat, wait: Option<nat>)
    requires a.p < n && Can(a, x, y, n, wait) && OneSlot(a.p, x, n, wait)
    ensures OneSlot(a.p, SelfAfter(a, x, y, n), n, Wait(a, x.at, wait))
  {
    hide OneSlot, SelfAfter, Wait;
    if a.Run? {
      match x.at {
        case ForkLink => SelfForks(a, x, y, n, wait);
        case ForkStart => SelfForks(a, x, y, n, wait);
        case ExitEnter => SelfExits(a, x, y, n, wait);
        case Reparent => SelfExits(a, x, y, n, wait);
        case WakeScan => SelfExits(a, x, y, n, wait);
        case ExitLock => SelfDies(a, x, y, n, wait);
        case ExitUnlock => SelfDies(a, x, y, n, wait);
        case ExitSwitch => SelfDies(a, x, y, n, wait);
        case WaitEnter => SelfWaits(a, x, y, n, wait);
        case WaitScan => SelfWaits(a, x, y, n, wait);
        case WaitLeave => SelfWaits(a, x, y, n, wait);
        case SleepEnter => SelfSleeps(a, x, y, n, wait);
        case SleepUnlock => SelfSleeps(a, x, y, n, wait);
        case SleepCommit => SelfSleeps(a, x, y, n, wait);
        case SleepSwitch => SelfSleeps(a, x, y, n, wait);
        case _ =>
      }
    } else if a.SleepOn? || a.WakeElsewhere? {
      SelfElsewhere(a, x, y, n, wait);
    } else if a.Schedule? || a.Kill? {
      SelfWoken(a, x, y, n, wait);
    } else {
      SelfCalls(a, x, y, n, wait);
    }
  }

  /** The process `t` that the action looks at, other than the one that acts. */
  lemma OtherOne(a: Action, x: Slot, t: Proc, y: Slot, n: nat, wait: Option<nat>)
    requires a.p < n && t < n && t != a.p && Can(a, x, y, n, wait) && OneSlot(a.p, x, n, wait) && OneSlot(t, y, n, wait)
    requires ForkOk(a.p, x, t, y) && ParentOk(a.p, x, t, y) && (a.Fork? || a.ForkFails? || (a.Run? && Forking(x.at)) ==> (if a.Fork? then a.k else x.k) == t)
    ensures OneSlot(t, OtherAfter(a, x, y, n), n, Wait(a, x.at, wait))
  {
  }

  /** Any other process. */
  lemma StillOne(a: Action, x: Slot, c: Proc, z: Slot, n: nat, wait: Option<nat>, y: Slot)
    requires a.p < n && c != a.p && Can(a, x, y, n, wait) && WaitOk(a.p, x, wait) && OneSlot(c, z, n, wait)
    ensures OneSlot(c, z, n, Wait(a, x.at, wait))
  {
  }

  lemma SecondIs(s: State, a: Action)
    requires Enabled(s, a) && One(s, a.p)
    ensures Second(s, a) < |s.procs|
    ensures Second(s, a) != a.p && (a.Fork? || a.ForkFails? || (a.Run? && Forking(s.procs[a.p].at))) ==>
              (if a.Fork? then a.k else s.procs[a.p].k) == Second(s, a)
  {
  }

  lemma OneKept(s: State, a: Action, c: Proc)
    requires Enabled(s, a) && One(s, a.p) && One(s, c) && Two(s, a.p, c) && Two(s, a.p, a.p)
    ensures One(Apply(s, a), c)
  {
    NewAt(s, a, c);
    SecondIs(s, a);
    var x, y, n := s.procs[a.p], s.procs[Second(s, a)], |s.procs|;
    hide Apply, Can, SelfAfter, OtherAfter, OneSlot, WaitAfter, ForkOk, ParentOk, ScanOk, WakeOk, Second;
    if c == a.p {
      SelfOne(a, x, y, n, s.waitLock);
    } else if c == Second(s, a) {
      OtherOne(a, x, c, y, n, s.waitLock);
    } else {
      OneWait(a.p, x, n, s.waitLock);
      StillOne(a, x, c, s.procs[c], n, s.waitLock, y);
    }
  }

  lemma OneWait(p: Proc, x: Slot, n: nat, wait: Option<nat>)
    requires OneSlot(p, x, n, wait)
    ensures WaitOk(p, x, wait)
  {
  }

  /** The invariant wherever an action that changes only `p` can matter to `c` and `d`. */
  predicate Near(s: State, p: Proc, c: Proc, d: Proc) {
    One(s, p) && One(s, c) && One(s, d) && Two(s, c, d) && Two(s, p, d) && Two(s, c, p) && Two(s, p, p)
  }

  /** And where the action also changes `t`. */
  predicate Far(s: State, p: Proc, t: Proc, c: Proc, d: Proc) {
    Near(s, p, c, d) && One(s, t) && Two(s, t, d) && Two(s, c, t) && Two(s, p, t) && Two(s, t, p) && Two(s, t, t)
  }

  predicate Alive(x: Slot) {
    x.st == Awake || x.st == Sleeping
  }

  /** A change that no other process can tell from none: outside fork and
      wait_lock, not into sleep in wait, and neither death nor birth. */
  predicate Unnoticed(x: Slot, x': Slot) {
    || x' == x
    || (&& x'.parent == x.parent && x'.maker == x.maker && Alive(x) == Alive(x') && (x.st == Zombie <==> x'.st == Zombie)
        && !Forking(x.at) && !Forking(x'.at) && !HasWait(x.at) && !HasWait(x'.at) && (Asleep(x') ==> Asleep(x)))
  }

  predicate Quiet(a: Action, at: Label) {
    || a.Exit? || a.Wait? || a.Schedule? || a.SleepOn? || a.WakeElsewhere? || a.Kill?
    || (a.Run? && (at == SleepSwitch || at == SleepCommit || at == ExitSwitch))
  }

  lemma QuietSelf(a: Action, x: Slot, y: Slot, n: nat, wait: Option<nat>)
    requires Can(a, x, y, n, wait) && Quiet(a, x.at) && StateOk(x.at, x.st)
    ensures Unnoticed(x, SelfAfter(a, x, y, n)) && OtherAfter(a, x, y, n) == y && (a.Run? ==> WaitAfter(a.p, x.at, wait) == wait)
  {
  }

  lemma QuietUnnoticed(s: State, a: Action)
    requires Enabled(s, a) && Quiet(a, s.procs[a.p].at) && One(s, a.p)
    ensures var x' := SelfAfter(a, s.procs[a.p], s.procs[Second(s, a)], |s.procs|);
            Unnoticed(s.procs[a.p], x') && Apply(s, a) == State(s.procs[a.p := x'], s.waitLock)
  {
    QuietSelf(a, s.procs[a.p], s.procs[Second(s, a)], |s.procs|, s.waitLock);
    assert s.procs[Second(s, a) := s.procs[Second(s, a)]] == s.procs;
    hide One, Second, Unnoticed, SelfAfter, OtherAfter, WaitAfter, Can, Quiet;
  }

  lemma UnnoticedKeeps(s: State, p: Proc, x': Slot, c: Proc, d: Proc)
    requires p < |s.procs| && Unnoticed(s.procs[p], x') && Near(s, p, c, d)
    ensures Two(State(s.procs[p := x'], s.waitLock), c, d)
  {
    hide Life, StateOk;
  }

  lemma QuietKeeps(s: State, a: Action, c: Proc, d: Proc)
    requires Enabled(s, a) && Quiet(a, s.procs[a.p].at) && Near(s, a.p, c, d)
    ensures Two(Apply(s, a), c, d)
  {
    QuietUnnoticed(s, a);
    hide Near, Two, Unnoticed, Quiet, Enabled, Apply;
    UnnoticedKeeps(s, a.p, SelfAfter(a, s.procs[a.p], s.procs[Second(s, a)], |s.procs|), c, d);
  }

  lemma ForkLinkKeeps(s: State, a: Action, c: Proc, d: Proc)
    requires Enabled(s, a) && a.Run? && s.procs[a.p].at == ForkLink && Far(s, a.p, Second(s, a), c, d)
    ensures Two(Apply(s, a), c, d)
  {
  }

  /** Neither a process that forks nor its child has wait_lock. */
  lemma ForkHolder(s: State, a: Action)
    requires Enabled(s, a) && (a.Fork? || a.ForkFails? || (a.Run? && s.procs[a.p].at == ForkStart))
    requires One(s, a.p) && One(s, Second(s, a)) && Two(s, a.p, Second(s, a))
    ensures Holder(Apply(s, a)) == Holder(s)
  {
    hide ScanOk, WakeOk, ParentOk;
  }

  lemma ForkStartTies(s: State, a: Action, c: Proc, d: Proc)
    requires Enabled(s, a) && a.Run? && s.procs[a.p].at == ForkStart && Far(s, a.p, Second(s, a), c, d)
    ensures var s' := Apply(s, a);
            && c < |s'.procs| && d < |s'.procs|
            && ForkOk(c, s'.procs[c], d, s'.procs[d]) && ParentOk(c, s'.procs[c], d, s'.procs[d])
  {
    hide ScanOk, WakeOk, WaitOk;
  }

  lemma ForkStartWaits(s: State, a: Action, c: Proc, d: Proc)
    requires Enabled(s, a) && a.Run? && s.procs[a.p].at == ForkStart && Far(s, a.p, Second(s, a), c, d)
    ensures var s' := Apply(s, a);
            && c < |s'.procs| && d < |s'.procs|
            && ScanOk(c, s'.procs[c], d, s'.procs[d]) && WakeOk(c, s'.procs[c], d, s'.procs[d], Holder(s'))
  {
    NewAt(s, a, c);
    NewAt(s, a, d);
    ForkHolder(s, a);
    hide ParentOk, Local, Apply, Holder;
  }

  lemma ForkStartKeeps(s: State, a: Action, c: Proc, d: Proc)
    requires Enabled(s, a) && a.Run? && s.procs[a.p].at == ForkStart && Far(s, a.p, Second(s, a), c, d)
    ensures Two(Apply(s, a), c, d)
  {
    hide Apply, Far, Enabled;
    ForkStartTies(s, a, c, d);
    ForkStartWaits(s, a, c, d);
    hide ForkOk, ParentOk, ScanOk, WakeOk;
  }

  lemma ExitEnterKeeps(s: State, a: Action, c: Proc, d: Proc)
    requires Enabled(s, a) && a.Run? && s.procs[a.p].at == ExitEnter && Near(s, a.p, c, d)
    ensures Two(Apply(s, a), c, d)
  {
  }

  lemma ReparentFork(s: State, a: Action, c: Proc, d: Proc)
    requires Enabled(s, a) && a.Run? && s.procs[a.p].at == Reparent && Far(s, a.p, Second(s, a), c, d)
    ensures var s' := Apply(s, a); c < |s'.procs| && d < |s'.procs| && ForkOk(c, s'.procs[c], d, s'.procs[d])
  {
    hide ParentOk, ScanOk, WakeOk;
  }

  lemma ReparentParent(s: State, a: Action, c: Proc, d: Proc)
    requires Enabled(s, a) && a.Run? && s.procs[a.p].at == Reparent && Far(s, a.p, Second(s, a), c, d)
    ensures var s' := Apply(s, a); c < |s'.procs| && d < |s'.procs| && ParentOk(c, s'.procs[c], d, s'.procs[d])
  {
    hide ScanOk, WakeOk;
  }

  lemma ReparentScan(s: State, a: Action, c: Proc, d: Proc)
    requires Enabled(s, a) && a.Run? && s.procs[a.p].at == Reparent && Far(s, a.p, Second(s, a), c, d)
    ensures var s' := Apply(s, a); c < |s'.procs| && d < |s'.procs| && ScanOk(c, s'.procs[c], d, s'.procs[d])
  {
    hide WakeOk;
  }

  lemma ReparentWake(s: State, a: Action, c: Proc, d: Proc)
    requires Enabled(s, a) && a.Run? && s.procs[a.p].at == Reparent && Far(s, a.p, Second(s, a), c, d)
    ensures var s' := Apply(s, a); c < |s'.procs| && d < |s'.procs| && WakeOk(c, s'.procs[c], d, s'.procs[d], Holder(s'))
  {
    hide ForkOk, ScanOk;
  }

  lemma ReparentKeeps(s: State, a: Action, c: Proc, d: Proc)
    requires Enabled(s, a) && a.Run? && s.procs[a.p].at == Reparent && Far(s, a.p, Second(s, a), c, d)
    ensures Two(Apply(s, a), c, d)
  {
    ReparentFork(s, a, c, d);
    ReparentParent(s, a, c, d);
    ReparentScan(s, a, c, d);
    ReparentWake(s, a, c, d);
    hide Enabled, Apply, Far, ForkOk, ParentOk, ScanOk, WakeOk;
  }

  lemma WakeScanFork(s: State, a: Action, c: Proc, d: Proc)
    requires Enabled(s, a) && a.Run? && s.procs[a.p].at == WakeScan && Far(s, a.p, Second(s, a), c, d)
    ensures var s' := Apply(s, a); c < |s'.procs| && d < |s'.procs| && ForkOk(c, s'.procs[c], d, s'.procs[d])
  {
    hide ParentOk, ScanOk, WakeOk;
  }

  lemma WakeScanParent(s: State, a: Action, c: Proc, d: Proc)
    requires Enabled(s, a) && a.Run? && s.procs[a.p].at == WakeScan && Far(s, a.p, Second(s, a), c, d)
    ensures var s' := Apply(s, a); c < |s'.procs| && d < |s'.procs| && ParentOk(c, s'.procs[c], d, s'.procs[d])
  {
    hide ScanOk, WakeOk;
  }

  lemma WakeScanScan(s: State, a: Action, c: Proc, d: Proc)
    requires Enabled(s, a) && a.Run? && s.procs[a.p].at == WakeScan && Far(s, a.p, Second(s, a), c, d)
    ensures var s' := Apply(s, a); c < |s'.procs| && d < |s'.procs| && ScanOk(c, s'.procs[c], d, s'.procs[d])
  {
    hide WakeOk;
  }

  lemma WakeScanWake(s: State, a: Action, c: Proc, d: Proc)
    requires Enabled(s, a) && a.Run? && s.procs[a.p].at == WakeScan && Far(s, a.p, Second(s, a), c, d)
    ensures var s' := Apply(s, a); c < |s'.procs| && d < |s'.procs| && WakeOk(c, s'.procs[c], d, s'.procs[d], Holder(s'))
  {
    hide ForkOk, ScanOk;
  }

  lemma WakeScanKeeps(s: State, a: Action, c: Proc, d: Proc)
    requires Enabled(s, a) && a.Run? && s.procs[a.p].at == WakeScan && Far(s, a.p, Second(s, a), c, d)
    ensures Two(Apply(s, a), c, d)
  {
    WakeScanFork(s, a, c, d);
    WakeScanParent(s, a, c, d);
    WakeScanScan(s, a, c, d);
    WakeScanWake(s, a, c, d);
    hide Enabled, Apply, Far, ForkOk, ParentOk, ScanOk, WakeOk;
  }

  lemma ExitLockKeeps(s: State, a: Action, c: Proc, d: Proc)
    requires Enabled(s, a) && a.Run? && s.procs[a.p].at == ExitLock && Near(s, a.p, c, d)
    ensures Two(Apply(s, a), c, d)
  {
  }

  lemma ExitUnlockKeeps(s: State, a: Action, c: Proc, d: Proc)
    requires Enabled(s, a) && a.Run? && s.procs[a.p].at == ExitUnlock && Near(s, a.p, c, d)
    ensures Two(Apply(s, a), c, d)
  {
  }

  lemma WaitEnterKeeps(s: State, a: Action, c: Proc, d: Proc)
    requires Enabled(s, a) && a.Run? && s.procs[a.p].at == WaitEnter && Near(s, a.p, c, d)
    ensures Two(Apply(s, a), c, d)
  {
  }

  lemma WaitScanFork(s: State, a: Action, c: Proc, d: Proc)
    requires Enabled(s, a) && a.Run? && s.procs[a.p].at == WaitScan && Far(s, a.p, Second(s, a), c, d)
    ensures var s' := Apply(s, a); c < |s'.procs| && d < |s'.procs| && ForkOk(c, s'.procs[c], d, s'.procs[d])
  {
    hide ParentOk, ScanOk, WakeOk;
  }

  lemma WaitScanParent(s: State, a: Action, c: Proc, d: Proc)
    requires Enabled(s, a) && a.Run? && s.procs[a.p].at == WaitScan && Far(s, a.p, Second(s, a), c, d)
    ensures var s' := Apply(s, a); c < |s'.procs| && d < |s'.procs| && ParentOk(c, s'.procs[c], d, s'.procs[d])
  {
    hide ScanOk, WakeOk;
  }

  lemma WaitScanScan(s: State, a: Action, c: Proc, d: Proc)
    requires Enabled(s, a) && a.Run? && s.procs[a.p].at == WaitScan && Far(s, a.p, Second(s, a), c, d)
    ensures var s' := Apply(s, a); c < |s'.procs| && d < |s'.procs| && ScanOk(c, s'.procs[c], d, s'.procs[d])
  {
    hide WakeOk;
  }

  lemma WaitScanWake(s: State, a: Action, c: Proc, d: Proc)
    requires Enabled(s, a) && a.Run? && s.procs[a.p].at == WaitScan && Far(s, a.p, Second(s, a), c, d)
    ensures var s' := Apply(s, a); c < |s'.procs| && d < |s'.procs| && WakeOk(c, s'.procs[c], d, s'.procs[d], Holder(s'))
  {
    hide ForkOk, ScanOk;
  }

  lemma WaitScanKeeps(s: State, a: Action, c: Proc, d: Proc)
    requires Enabled(s, a) && a.Run? && s.procs[a.p].at == WaitScan && Far(s, a.p, Second(s, a), c, d)
    ensures Two(Apply(s, a), c, d)
  {
    WaitScanFork(s, a, c, d);
    WaitScanParent(s, a, c, d);
    WaitScanScan(s, a, c, d);
    WaitScanWake(s, a, c, d);
    hide Enabled, Apply, Far, ForkOk, ParentOk, ScanOk, WakeOk;
  }

  lemma WaitLeaveKeeps(s: State, a: Action, c: Proc, d: Proc)
    requires Enabled(s, a) && a.Run? && s.procs[a.p].at == WaitLeave && Near(s, a.p, c, d)
    ensures Two(Apply(s, a), c, d)
  {
  }

  lemma SleepEnterKeeps(s: State, a: Action, c: Proc, d: Proc)
    requires Enabled(s, a) && a.Run? && s.procs[a.p].at == SleepEnter && Near(s, a.p, c, d)
    ensures Two(Apply(s, a), c, d)
  {
  }

  lemma SleepUnlockKeeps(s: State, a: Action, c: Proc, d: Proc)
    requires Enabled(s, a) && a.Run? && s.procs[a.p].at == SleepUnlock && Near(s, a.p, c, d)
    ensures Two(Apply(s, a), c, d)
  {
  }

  lemma ForkTies(s: State, a: Action, c: Proc, d: Proc)
    requires Enabled(s, a) && a.Fork? && Far(s, a.p, Second(s, a), c, d)
    ensures var s' := Apply(s, a);
            && c < |s'.procs| && d < |s'.procs|
            && ForkOk(c, s'.procs[c], d, s'.procs[d]) && ParentOk(c, s'.procs[c], d, s'.procs[d])
  {
    hide ScanOk, WakeOk, WaitOk;
  }

  lemma ForkWaits(s: State, a: Action, c: Proc, d: Proc)
    requires Enabled(s, a) && a.Fork? && Far(s, a.p, Second(s, a), c, d)
    ensures var s' := Apply(s, a);
            && c < |s'.procs| && d < |s'.procs|
            && ScanOk(c, s'.procs[c], d, s'.procs[d]) && WakeOk(c, s'.procs[c], d, s'.procs[d], Holder(s'))
  {
    NewAt(s, a, c);
    NewAt(s, a, d);
    ForkHolder(s, a);
    hide ParentOk, Local, Apply, Holder;
  }

  lemma ForkKeeps(s: State, a: Action, c: Proc, d: Proc)
    requires Enabled(s, a) && a.Fork? && Far(s, a.p, Second(s, a), c, d)
    ensures Two(Apply(s, a), c, d)
  {
    hide Apply, Far, Enabled;
    ForkTies(s, a, c, d);
    ForkWaits(s, a, c, d);
    hide ForkOk, ParentOk, ScanOk, WakeOk;
  }

  lemma ForkFailsTies(s: State, a: Action, c: Proc, d: Proc)
    requires Enabled(s, a) && a.ForkFails? && Far(s, a.p, Second(s, a), c, d)
    ensures var s' := Apply(s, a);
            && c < |s'.procs| && d < |s'.procs|
            && ForkOk(c, s'.procs[c], d, s'.procs[d]) && ParentOk(c, s'.procs[c], d, s'.procs[d])
  {
    hide ScanOk, WakeOk, WaitOk;
  }

  lemma ForkFailsWaits(s: State, a: Action, c: Proc, d: Proc)
    requires Enabled(s, a) && a.ForkFails? && Far(s, a.p, Second(s, a), c, d)
    ensures var s' := Apply(s, a);
            && c < |s'.procs| && d < |s'.procs|
            && ScanOk(c, s'.procs[c], d, s'.procs[d]) && WakeOk(c, s'.procs[c], d, s'.procs[d], Holder(s'))
  {
    NewAt(s, a, c);
    NewAt(s, a, d);
    ForkHolder(s, a);
    hide ParentOk, Local, Apply, Holder;
  }

  lemma ForkFailsKeeps(s: State, a: Action, c: Proc, d: Proc)
    requires Enabled(s, a) && a.ForkFails? && Far(s, a.p, Second(s, a), c, d)
    ensures Two(Apply(s, a), c, d)
  {
    hide Apply, Far, Enabled;
    ForkFailsTies(s, a, c, d);
    ForkFailsWaits(s, a, c, d);
    hide ForkOk, ParentOk, ScanOk, WakeOk;
  }

  lemma CopyFailsTies(s: State, a: Action, c: Proc, d: Proc)
    requires Enabled(s, a) && a.CopyFails? && Near(s, a.p, c, d)
    ensures var s' := Apply(s, a);
            && c < |s'.procs| && d < |s'.procs|
            && ForkOk(c, s'.procs[c], d, s'.procs[d]) && ParentOk(c, s'.procs[c], d, s'.procs[d])
  {
    NewAt(s, a, c);
    NewAt(s, a, d);
    hide One, ScanOk, WakeOk, Apply;
  }

  lemma CopyFailsWaits(s: State, a: Action, c: Proc, d: Proc)
    requires Enabled(s, a) && a.CopyFails? && Near(s, a.p, c, d)
    ensures var s' := Apply(s, a);
            && c < |s'.procs| && d < |s'.procs|
            && ScanOk(c, s'.procs[c], d, s'.procs[d]) && WakeOk(c, s'.procs[c], d, s'.procs[d], Holder(s'))
  {
    hide One, ForkOk, ParentOk;
  }

  lemma CopyFailsKeeps(s: State, a: Action, c: Proc, d: Proc)
    requires Enabled(s, a) && a.CopyFails? && Near(s, a.p, c, d)
    ensures Two(Apply(s, a), c, d)
  {
    hide Apply, Near, Enabled;
    CopyFailsTies(s, a, c, d);
    CopyFailsWaits(s, a, c, d);
    hide ForkOk, ParentOk, ScanOk, WakeOk;
  }

  lemma KilledKeeps(s: State, a: Action, c: Proc, d: Proc)
    requires Enabled(s, a) && a.Killed? && Near(s, a.p, c, d)
    ensures Two(Apply(s, a), c, d)
  {
    hide One;
  }

  lemma RunsAt(s: State, a: Action)
    requires Enabled(s, a)
    ensures a.p < |s.procs| && Second(s, a) < |s.procs|
    ensures var at := s.procs[a.p].at; a.Run? ==> at != Idle && at != User && at != Elsewhere && at != Switched
  {
  }

  lemma RunTwo(s: State, a: Action, c: Proc, d: Proc)
    requires Enabled(s, a) && a.Run? && Far(s, a.p, Second(s, a), c, d)
    ensures Two(Apply(s, a), c, d)
  {
    FarNear(s, a.p, Second(s, a), c, d);
    RunsAt(s, a);
    hide Far, Near, Two, Apply, Enabled, Second;
    match s.procs[a.p].at {
      case ForkLink => ForkLinkKeeps(s, a, c, d);
      case ForkStart => ForkStartKeeps(s, a, c, d);
      case ExitEnter => ExitEnterKeeps(s, a, c, d);
      case Reparent => ReparentKeeps(s, a, c, d);
      case WakeScan => WakeScanKeeps(s, a, c, d);
      case ExitLock => ExitLockKeeps(s, a, c, d);
      case ExitUnlock => ExitUnlockKeeps(s, a, c, d);
      case ExitSwitch => QuietKeeps(s, a, c, d);
      case WaitEnter => WaitEnterKeeps(s, a, c, d);
      case WaitScan => WaitScanKeeps(s, a, c, d);
      case WaitLeave => WaitLeaveKeeps(s, a, c, d);
      case SleepEnter => SleepEnterKeeps(s, a, c, d);
      case SleepUnlock => SleepUnlockKeeps(s, a, c, d);
      case SleepCommit => QuietKeeps(s, a, c, d);
      case SleepSwitch => QuietKeeps(s, a, c, d);
      case _ =>
    }
  }

  lemma TwoKept(s: State, a: Action, c: Proc, d: Proc)
    requires Enabled(s, a) && Far(s, a.p, Second(s, a), c, d)
    ensures Two(Apply(s, a), c, d)
  {
    FarNear(s, a.p, Second(s, a), c, d);
    RunsAt(s, a);
    hide Far, Near, Two, Apply, Enabled, Second;
    match a {
      case Run(_) => RunTwo(s, a, c, d);
      case Fork(_, _) => ForkKeeps(s, a, c, d);
      case ForkFails(_) => ForkFailsKeeps(s, a, c, d);
      case Exit(_) => QuietKeeps(s, a, c, d);
      case Wait(_) => QuietKeeps(s, a, c, d);
      case CopyFails(_) => CopyFailsKeeps(s, a, c, d);
      case Killed(_) => KilledKeeps(s, a, c, d);
      case Schedule(_) => QuietKeeps(s, a, c, d);
      case Kill(_) => QuietKeeps(s, a, c, d);
      case SleepOn(_, _) => QuietKeeps(s, a, c, d);
      case WakeElsewhere(_) => QuietKeeps(s, a, c, d);
    }
  }

  lemma FarNear(s: State, p: Proc, t: Proc, c: Proc, d: Proc)
    requires Far(s, p, t, c, d)
    ensures Near(s, p, c, d)
  {
    hide One, Two;
  }

  ghost predicate Inv(s: State) {
    && INIT < |s.procs|
    && (forall p: nat {:trigger One(s, p)} :: p < |s.procs| ==> One(s, p))
    && (forall p: nat, q: nat {:trigger Two(s, p, q)} :: p < |s.procs| && q < |s.procs| ==> Two(s, p, q))
  }

  lemma InvFar(s: State, p: Proc, t: Proc, c: Proc, d: Proc)
    requires Inv(s) && p < |s.procs| && t < |s.procs| && c < |s.procs| && d < |s.procs|
    ensures Far(s, p, t, c, d)
  {
    hide One, Two;
  }

  lemma InvNear(s: State, p: Proc, c: Proc)
    requires Inv(s) && p < |s.procs| && c < |s.procs|
    ensures One(s, p) && One(s, c) && Two(s, p, c) && Two(s, p, p)
  {
    hide One, Two;
  }

  lemma SameSize(s: State, a: Action)
    requires Enabled(s, a)
    ensures |Apply(s, a).procs| == |s.procs| && Second(s, a) < |s.procs|
  {
  }

  /** Every step keeps the invariant. */
  lemma StepKeeps(s: State, a: Action)
    requires Inv(s) && Enabled(s, a)
    ensures Inv(Apply(s, a))
  {
    SameSize(s, a);
    hide One, Two, Apply, Enabled, Second;
    forall c: nat | c < |s.procs|
      ensures One(Apply(s, a), c)
    {
      InvNear(s, a.p, c);
      OneKept(s, a, c);
    }
    forall c: nat, d: nat | c < |s.procs| && d < |s.procs|
      ensures Two(Apply(s, a), c, d)
    {
      InvFar(s, a.p, Second(s, a), c, d);
      TwoKept(s, a, c, d);
    }
  }

  // ---- runs

  /** After userinit: the init process alone. */
  predicate Init(s: State) {
    && INIT < |s.procs| && s.waitLock == None
    && s.procs[INIT] == Slot(User, 0, 0, false, Awake, None, NoChan, None)
    && forall p :: 0 <= p < |s.procs| && p != INIT ==> s.procs[p] == Blank()
  }

  ghost predicate IsRun(trace: seq<State>, acts: seq<Action>) {
    && |trace| == |acts| + 1 && Init(trace[0])
    && forall t :: 0 <= t < |acts| ==> Enabled(trace[t], acts[t]) && trace[t + 1] == Apply(trace[t], acts[t])
  }

  lemma InitInv(s: State)
    requires Init(s)
    ensures Inv(s)
  {
    forall p: nat | p < |s.procs|
      ensures One(s, p)
    {
      assert p != INIT ==> s.procs[p] == Blank();
    }
    forall p: nat, q: nat | p < |s.procs| && q < |s.procs|
      ensures Two(s, p, q)
    {
      assert p != INIT ==> s.procs[p] == Blank();
      assert q != INIT ==> s.procs[q] == Blank();
    }
  }

  lemma {:induction false} RunInv(trace: seq<State>, acts: seq<Action>, t: nat)
    requires IsRun(trace, acts) && t < |trace|
    ensures Inv(trace[t])
  {
    hide Inv, Apply, Enabled;
    if t == 0 {
      InitInv(trace[0]);
    } else {
      RunInv(trace, acts, t - 1);
      StepKeeps(trace[t - 1], acts[t - 1]);
    }
  }

  /** Whenever wait_lock is free, nobody asleep in wait, or on the way there,
      has a zombie child. */
  lemma NoLostExit(trace: seq<State>, acts: seq<Action>, t: nat, w: Proc, c: Proc)
    requires IsRun(trace, acts) && t < |trace| && w < |trace[t].procs| && c < |trace[t].procs|
    requires trace[t].waitLock == None && Asleep(trace[t].procs[w]) && trace[t].procs[c].parent == Some(w)
    ensures trace[t].procs[c].st != Zombie
  {
    RunInv(trace, acts, t);
    assert Two(trace[t], w, c);
  }

  /** Every process but init that is past fork has a parent, and every parent is
      a process that is neither unused nor a zombie. */
  lemma ParentAlive(trace: seq<State>, acts: seq<Action>, t: nat, c: Proc)
    requires IsRun(trace, acts) && t < |trace| && c < |trace[t].procs|
    ensures var x := trace[t].procs[c];
            && (c != INIT && (x.st == Awake || x.st == Sleeping || x.st == Zombie) ==> x.parent.Some?)
            && (x.parent.Some? ==> x.parent.value < |trace[t].procs| && x.parent.value != c
                                   && (trace[t].procs[x.parent.value].st == Awake || trace[t].procs[x.parent.value].st == Sleeping))
  {
    RunInv(trace, acts, t);
    var s := trace[t];
    assert One(s, c);
    if s.procs[c].parent.Some? {
      assert Two(s, s.procs[c].parent.value, c);
    }
  }

  lemma LeavesZombie(s: State, a: Action, c: Proc, s': State)
    requires a.p < |s.procs| && c < |s.procs| && c < |s'.procs|
    requires Enabled(s, a) && s' == Apply(s, a) && One(s, a.p) && One(s, c) && Two(s, a.p, c)
    requires s.procs[c].st == Zombie && s'.procs[c].st != Zombie
    ensures a.Run? && a.p != c && s.procs[a.p].at == WaitScan && s.procs[c].parent == Some(a.p)
    ensures s.procs[c].at == Idle && s'.procs[c] == Blank()
  {
    hide ScanOk, WakeOk;
  }

  /** A zombie is only ever freed by its current parent, in wait, with its own
      thread off its stack for good. */
  lemma ReapedByParent(trace: seq<State>, acts: seq<Action>, t: nat, c: Proc)
    requires IsRun(trace, acts) && t < |acts| && c < |trace[t].procs| && c < |trace[t + 1].procs|
    requires trace[t].procs[c].st == Zombie && trace[t + 1].procs[c].st != Zombie
    ensures acts[t].Run? && trace[t].procs[acts[t].p].at == WaitScan && trace[t].procs[c].parent == Some(acts[t].p)
    ensures trace[t].procs[c].at == Idle && trace[t + 1].procs[c] == Blank()
  {
    RunInv(trace, acts, t);
    InvNear(trace[t], acts[t].p, c);
    hide Inv, One, Two;
    LeavesZombie(trace[t], acts[t], c, trace[t + 1]);
  }

  lemma LeavesUnused(s: State, a: Action, c: Proc, s': State)
    requires Enabled(s, a) && s' == Apply(s, a) && c < |s.procs| && c < |s'.procs|
    requires One(s, a.p) && One(s, c) && Two(s, a.p, c) && s.procs[c].st == Unused
    ensures s'.procs[c].st == Unused || s'.procs[c].st == Used
  {
    NewAt(s, a, c);
    hide ScanOk, WakeOk, Apply;
  }

  /** A slot once freed is not freed again before it has been forked anew: from
      unused to zombie it passes through allocproc. */
  lemma {:induction false} FreedOnce(trace: seq<State>, acts: seq<Action>, t: nat, u: nat, c: Proc) returns (v: nat)
    requires IsRun(trace, acts) && t <= u < |trace|
    requires forall i :: 0 <= i < |trace| ==> c < |trace[i].procs|
    requires trace[t].procs[c].st == Unused && trace[u].procs[c].st == Zombie
    ensures t < v < u && trace[v].procs[c].st == Used
    decreases u - t
  {
    RunInv(trace, acts, t);
    InvNear(trace[t], acts[t].p, c);
    hide Inv, One, Two, Apply;
    LeavesUnused(trace[t], acts[t], c, trace[t + 1]);
    if trace[t + 1].procs[c].st == Used {
      v := t + 1;
    } else {
      v := FreedOnce(trace, acts, t + 1, u, c);
    }
  }
}
