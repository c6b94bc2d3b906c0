/**
  Pipes (kernel/fs/pipe.c) read and written by any number of threads, as
  interleaved steps. pi->lock is held from acquire to release or sleep; sleep
  drops it and sleeps as one step (see SleepLock).
 */
module Pipe {

  import opened Common

  const PIPESIZE: nat := 512

  /** Where a thread is. `data` are the bytes to write, None where copyin
      fails; `unsaid` says that bytes were stored since the last wakeup of readers. */
  datatype Phase =
    | Out
    | WEnter(i: nat, data: seq<Option<byte>>)               // in pipewrite, to acquire the lock
    | W(i: nat, data: seq<Option<byte>>, unsaid: bool)       // with the lock, `i` bytes stored
    | WSleep(i: nat, data: seq<Option<byte>>)               // asleep on nwrite
    | REnter(n: nat)                                        // in piperead, to acquire the lock
    | RWait(n: nat)                                         // with the lock, at the test for an empty pipe
    | RSleep(n: nat)                                        // asleep on nread
    | R(i: nat, n: nat)                                     // with the lock, `i` bytes moved out

  /** struct pipe and the threads; `stored` and `consumed` record all bytes ever
      put in and taken out. */
  datatype State = State(buf: seq<byte>, nread: nat, nwrite: nat, readopen: bool, writeopen: bool, lock: Option<nat>,
                         phase: seq<Phase>, stored: seq<byte>, consumed: seq<byte>)

  datatype Action =
    | Write(t: nat, data: seq<Option<byte>>)  // call pipewrite
    | Read(t: nat, n: nat)                    // call piperead
    | Acquire(t: nat)
    | Turn(t: nat)                            // one turn of the loop the thread is in
    | CopyFails(t: nat)                       // a turn of piperead's loop whose copyout fails
    | Killed(t: nat)                          // a turn that finds the thread killed
    | Rouse(t: nat)                           // kill wakes the thread
    | CloseRead | CloseWrite                  // pipeclose by the last holder of that end

  predicate Full(s: State) {
    s.nwrite == (s.nread + PIPESIZE) % U32
  }

  predicate Empty(s: State) {
    s.nread == s.nwrite
  }

  predicate Writer(p: Phase) {
    p.WEnter? || p.W? || p.WSleep?
  }

  predicate Reader(p: Phase) {
    p.REnter? || p.RWait? || p.RSleep? || p.R?
  }

  function Woken(p: Phase, readers: bool): Phase {
    if readers && p.RSleep? then REnter(p.n) else if !readers && p.WSleep? then WEnter(p.i, p.data) else p
  }

  /** wakeup(&pi->nread) or wakeup(&pi->nwrite). */
  function WakeAll(ps: seq<Phase>, readers: bool): (r: seq<Phase>)
    ensures |r| == |ps| && forall i :: 0 <= i < |ps| ==> r[i] == Woken(ps[i], readers)
  {
    seq(|ps|, i requires 0 <= i < |ps| => Woken(ps[i], readers))
  }

  predicate Enabled(s: State, a: Action) {
    && |s.buf| == PIPESIZE
    && match a
       case Write(t, _) => t < |s.phase| && s.phase[t].Out? && s.writeopen
       case Read(t, _) => t < |s.phase| && s.phase[t].Out? && s.readopen
       case Acquire(t) => t < |s.phase| && (s.phase[t].WEnter? || s.phase[t].REnter?) && s.lock.None?
       case Turn(t) => t < |s.phase| && (s.phase[t].W? || s.phase[t].RWait? || s.phase[t].R?)
       case CopyFails(t) => t < |s.phase| && s.phase[t].R? && s.phase[t].i < s.phase[t].n && !Empty(s)
       case Killed(t) => t < |s.phase| && ((s.phase[t].W? && s.phase[t].i < |s.phase[t].data|) || (s.phase[t].RWait? && Empty(s) && s.writeopen))
       case Rouse(t) => t < |s.phase| && (s.phase[t].WSleep? || s.phase[t].RSleep?)
       case CloseRead => s.readopen && s.lock.None? && forall t :: 0 <= t < |s.phase| ==> !Reader(s.phase[t])
       case CloseWrite => s.writeopen && s.lock.None? && forall t :: 0 <= t < |s.phase| ==> !Writer(s.phase[t])
  }

  /** Leave the call: wake the other side if asked to, and release the lock. */
  function Leave(s: State, t: nat, wake: Option<bool>): State
    requires t < |s.phase|
  {
    var ps := if wake.Some? then WakeAll(s.phase, wake.value) else s.phase;
    s.(phase := ps[t := Out], lock := None)
  }

  /** One turn of pipewrite's loop. */
  function WriteTurn(s: State, t: nat): State
    requires |s.buf| == PIPESIZE && t < |s.phase| && s.phase[t].W?
  {
    var p := s.phase[t];
    if p.i >= |p.data| then Leave(s, t, Some(true))
    else if !s.readopen then Leave(s, t, None)
    else if Full(s) then s.(phase := WakeAll(s.phase, true)[t := WSleep(p.i, p.data)], lock := None)
    else if p.data[p.i].None? then Leave(s, t, Some(true))
    else
      s.(buf := s.buf[s.nwrite % PIPESIZE := p.data[p.i].value], nwrite := (s.nwrite + 1) % U32,
         stored := s.stored + [p.data[p.i].value], phase := s.phase[t := W(p.i + 1, p.data, true)])
  }

  /** The byte at nread, taken out. */
  function Take(s: State): State
    requires |s.buf| == PIPESIZE
  {
    s.(nread := (s.nread + 1) % U32, consumed := s.consumed + [s.buf[s.nread % PIPESIZE]])
  }

  /** One turn of piperead's loop. */
  function ReadTurn(s: State, t: nat): State
    requires |s.buf| == PIPESIZE && t < |s.phase| && s.phase[t].R?
  {
    var p := s.phase[t];
    if p.i >= p.n || Empty(s) then Leave(s, t, Some(false))
    else Take(s).(phase := s.phase[t := R(p.i + 1, p.n)])
  }

  function Apply(s: State, a: Action): State
    requires Enabled(s, a)
  {
    match a
    case Write(t, data) => s.(phase := s.phase[t := WEnter(0, data)])
    case Read(t, n) => s.(phase := s.phase[t := REnter(n)])
    case Acquire(t) =>
      var p := s.phase[t];
      s.(phase := s.phase[t := if p.WEnter? then W(p.i, p.data, false) else RWait(p.n)], lock := Some(t))
    case Turn(t) =>
      var p := s.phase[t];
      if p.W? then WriteTurn(s, t)
      else if p.R? then ReadTurn(s, t)
      else if Empty(s) && s.writeopen then s.(phase := s.phase[t := RSleep(p.n)], lock := None)
      else s.(phase := s.phase[t := R(0, p.n)])
    case CopyFails(t) => Leave(Take(s), t, Some(false))
    case Killed(t) => Leave(s, t, None)
    case Rouse(t) => s.(phase := s.phase[t := Woken(s.phase[t], s.phase[t].RSleep?)])
    case CloseRead => s.(readopen := false, phase := WakeAll(s.phase, false))
    case CloseWrite => s.(writeopen := false, phase := WakeAll(s.phase, true))
  }

  // ---- the invariant

  /** The ring holds exactly the bytes stored and not yet consumed, at most 512,
      whatever the counters have wrapped to. */
  predicate Ring(s: State) {
    && |s.buf| == PIPESIZE && |s.consumed| <= |s.stored| <= |s.consumed| + PIPESIZE
    && s.consumed == s.stored[..|s.consumed|]
    && s.nwrite == |s.stored| % U32 && s.nread == |s.consumed| % U32
    && forall i :: |s.consumed| <= i < |s.stored| ==> s.buf[i % PIPESIZE] == s.stored[i]
  }

  predicate HasLock(p: Phase) {
    p.W? || p.RWait? || p.R?
  }

  /** The thread with the lock, or one that does nothing. */
  function Holder(s: State): Phase {
    if s.lock.Some? && s.lock.value < |s.phase| then s.phase[s.lock.value] else Out
  }

  predicate ThreadOk(s: State, t: nat)
    requires t < |s.phase|
  {
    var p := s.phase[t];
    && (HasLock(p) <==> s.lock == Some(t))
    && (p.WSleep? ==> s.readopen && (Full(s) || Holder(s).R?))
    && (p.RSleep? ==> s.writeopen)
    && (Writer(p) ==> s.writeopen) && (Reader(p) ==> s.readopen)
    && (p.W? && p.unsaid ==> s.readopen && !Empty(s))
  }

  ghost predicate Inv(s: State) {
    && Ring(s) && (s.lock.Some? ==> s.lock.value < |s.phase|)
    && forall t: nat {:trigger ThreadOk(s, t)} :: t < |s.phase| ==> ThreadOk(s, t)
  }

  // ---- every step keeps it

  lemma Remainder(a: nat, k: nat, r: nat)
    requires a == PIPESIZE * k + r && r < PIPESIZE
    ensures a % PIPESIZE == r
  {
  }

  lemma SlotOf(c: nat)
    ensures c % U32 % PIPESIZE == c % PIPESIZE
  {
    var q, r := c / U32, c % U32;
    Remainder(c, 8388608 * q + r / PIPESIZE, r % PIPESIZE);
  }

  lemma NextCount(c: nat)
    ensures (c % U32 + 1) % U32 == (c + 1) % U32
  {
  }

  lemma OtherSlot(i: nat, n: nat)
    requires n - 512 < i < n
    ensures i % PIPESIZE != n % PIPESIZE
  {
  }

  /** The tests on the wrapped counters are exact. */
  lemma Tests(s: State)
    requires Ring(s)
    ensures Full(s) <==> |s.stored| == |s.consumed| + PIPESIZE
    ensures Empty(s) <==> |s.stored| == |s.consumed|
  {
    var r, w := |s.consumed|, |s.stored|;
    FullExact(r, w);
  }

  lemma FullExact(r: nat, w: nat)
    requires r <= w <= r + PIPESIZE
    ensures w % U32 == (r % U32 + PIPESIZE) % U32 <==> w == r + PIPESIZE
    ensures r % U32 == w % U32 <==> w == r
  {
  }

  lemma StoreRing(s: State, c: byte)
    requires Ring(s) && !Full(s)
    ensures Ring(s.(buf := s.buf[s.nwrite % PIPESIZE := c], nwrite := (s.nwrite + 1) % U32, stored := s.stored + [c]))
  {
    var s' := s.(buf := s.buf[s.nwrite % PIPESIZE := c], nwrite := (s.nwrite + 1) % U32, stored := s.stored + [c]);
    Tests(s);
    SlotOf(|s.stored|);
    NextCount(|s.stored|);
    assert s'.stored[..|s.consumed|] == s.stored[..|s.consumed|];
    forall i | |s'.consumed| <= i < |s'.stored|
      ensures s'.buf[i % PIPESIZE] == s'.stored[i]
    {
      if i < |s.stored| {
        OtherSlot(i, |s.stored|);
      }
    }
  }

  lemma TakeRing(s: State)
    requires Ring(s) && !Empty(s)
    ensures Ring(Take(s))
  {
    Tests(s);
    SlotOf(|s.consumed|);
    NextCount(|s.consumed|);
    var k := |s.consumed|;
    assert s.stored[..k + 1] == s.stored[..k] + [s.stored[k]];
  }

  lemma CallKeeps(s: State, a: Action, t: nat)
    requires Inv(s) && Enabled(s, a) && ((a.Write? && a.t == t) || (a.Read? && a.t == t))
    ensures Inv(Apply(s, a))
  {
    var s' := Apply(s, a);
    forall u: nat | u < |s'.phase|
      ensures ThreadOk(s', u)
    {
      assert ThreadOk(s, u) && ThreadOk(s, t);
    }
  }

  lemma AcquireKeeps(s: State, t: nat)
    requires Inv(s) && Enabled(s, Acquire(t))
    ensures Inv(Apply(s, Acquire(t)))
  {
    var s' := Apply(s, Acquire(t));
    Tests(s);
    forall u: nat | u < |s'.phase|
      ensures ThreadOk(s', u)
    {
      assert ThreadOk(s, u) && ThreadOk(s, t);
    }
  }

  lemma WriteTurnKeeps(s: State, t: nat)
    requires Inv(s) && Enabled(s, Turn(t)) && s.phase[t].W?
    ensures Inv(WriteTurn(s, t))
  {
    var s' := WriteTurn(s, t);
    Tests(s);
    if s'.stored != s.stored {
      StoreRing(s, s.phase[t].data[s.phase[t].i].value);
      Tests(s');
    }
    assert ThreadOk(s, t);
    forall u: nat | u < |s'.phase|
      ensures ThreadOk(s', u)
    {
      assert ThreadOk(s, u) && ThreadOk(s, t);
    }
  }

  lemma ReadTurnKeeps(s: State, t: nat)
    requires Inv(s) && Enabled(s, Turn(t)) && s.phase[t].R?
    ensures Inv(ReadTurn(s, t))
  {
    var s' := ReadTurn(s, t);
    if s'.consumed != s.consumed {
      TakeRing(s);
    }
    assert ThreadOk(s, t);
    forall u: nat | u < |s'.phase|
      ensures ThreadOk(s', u)
    {
      assert ThreadOk(s, u) && ThreadOk(s, t);
    }
  }

  lemma EmptyTestKeeps(s: State, t: nat)
    requires Inv(s) && Enabled(s, Turn(t)) && s.phase[t].RWait?
    ensures Inv(Apply(s, Turn(t)))
  {
    var s' := Apply(s, Turn(t));
    assert ThreadOk(s, t);
    forall u: nat | u < |s'.phase|
      ensures ThreadOk(s', u)
    {
      assert ThreadOk(s, u) && ThreadOk(s, t);
    }
  }

  lemma CopyFailsKeeps(s: State, t: nat)
    requires Inv(s) && Enabled(s, CopyFails(t))
    ensures Inv(Apply(s, CopyFails(t)))
  {
    var s' := Apply(s, CopyFails(t));
    TakeRing(s);
    assert ThreadOk(s, t);
    forall u: nat | u < |s'.phase|
      ensures ThreadOk(s', u)
    {
      assert ThreadOk(s, u) && ThreadOk(s, t);
    }
  }

  lemma KilledKeeps(s: State, t: nat)
    requires Inv(s) && Enabled(s, Killed(t))
    ensures Inv(Apply(s, Killed(t)))
  {
    var s' := Apply(s, Killed(t));
    assert ThreadOk(s, t);
    forall u: nat | u < |s'.phase|
      ensures ThreadOk(s', u)
    {
      assert ThreadOk(s, u) && ThreadOk(s, t);
    }
  }

  lemma RouseKeeps(s: State, t: nat)
    requires Inv(s) && Enabled(s, Rouse(t))
    ensures Inv(Apply(s, Rouse(t)))
  {
    var s' := Apply(s, Rouse(t));
    assert ThreadOk(s, t);
    forall u: nat | u < |s'.phase|
      ensures ThreadOk(s', u)
    {
      assert ThreadOk(s, u);
    }
  }

  lemma CloseKeeps(s: State, a: Action)
    requires Inv(s) && Enabled(s, a) && (a.CloseRead? || a.CloseWrite?)
    ensures Inv(Apply(s, a))
  {
    var s' := Apply(s, a);
    forall u: nat | u < |s'.phase|
      ensures ThreadOk(s', u)
    {
      assert ThreadOk(s, u);
    }
  }

  /** Every step keeps the invariant. */
  lemma StepKeeps(s: State, a: Action)
    requires Inv(s) && Enabled(s, a)
    ensures Inv(Apply(s, a))
  {
    hide Inv, WriteTurn, ReadTurn, Leave, Take;
    match a {
      case Write(t, _) => CallKeeps(s, a, t);
      case Read(t, _) => CallKeeps(s, a, t);
      case Acquire(t) => AcquireKeeps(s, t);
      case Turn(t) =>
        if s.phase[t].W? {
          WriteTurnKeeps(s, t);
        } else if s.phase[t].R? {
          ReadTurnKeeps(s, t);
        } else {
          EmptyTestKeeps(s, t);
        }
      case CopyFails(t) => CopyFailsKeeps(s, t);
      case Killed(t) => KilledKeeps(s, t);
      case Rouse(t) => RouseKeeps(s, t);
      case CloseRead => CloseKeeps(s, a);
      case CloseWrite => CloseKeeps(s, a);
    }
  }

  // ---- runs

  /** A pipe just allocated, nobody using it. */
  predicate Init(s: State) {
    && |s.buf| == PIPESIZE && s.nread == s.nwrite == 0 && s.readopen && s.writeopen && s.lock == None
    && s.stored == s.consumed == [] && forall t :: 0 <= t < |s.phase| ==> s.phase[t] == Out
  }

  ghost predicate IsRun(trace: seq<State>, acts: seq<Action>) {
    && |trace| == |acts| + 1 && Init(trace[0])
    && forall i :: 0 <= i < |acts| ==> Enabled(trace[i], acts[i]) && trace[i + 1] == Apply(trace[i], acts[i])
  }

  lemma {:induction false} RunInv(trace: seq<State>, acts: seq<Action>, i: nat)
    requires IsRun(trace, acts) && i < |trace|
    ensures Inv(trace[i])
  {
    if i == 0 {
      forall t: nat | t < |trace[0].phase|
        ensures ThreadOk(trace[0], t)
      {
        assert trace[0].phase[t] == Out;
      }
    } else {
      RunInv(trace, acts, i - 1);
      hide Inv;
      StepKeeps(trace[i - 1], acts[i - 1]);
    }
  }

  /** The bytes taken out are, in order, the first of the bytes put in, and at
      most 512 are outstanding, however often the 32-bit counters wrap. */
  lemma BytesInOrder(trace: seq<State>, acts: seq<Action>, i: nat)
    requires IsRun(trace, acts) && i < |trace|
    ensures trace[i].consumed <= trace[i].stored && |trace[i].stored| <= |trace[i].consumed| + 512
  {
    RunInv(trace, acts, i);
  }

  /** While the lock is free, a writer sleeps only on a full pipe with a reader's end
      open; a reader only with a writer's end open. */
  lemma SleepersHaveCause(trace: seq<State>, acts: seq<Action>, i: nat, t: nat)
    requires IsRun(trace, acts) && i < |trace| && t < |trace[i].phase| && trace[i].lock == None
    ensures trace[i].phase[t].WSleep? ==> trace[i].readopen && |trace[i].stored| == |trace[i].consumed| + 512
    ensures trace[i].phase[t].RSleep? ==> trace[i].writeopen
  {
    RunInv(trace, acts, i);
    assert ThreadOk(trace[i], t);
    Tests(trace[i]);
  }

  // ---- readers asleep on a pipe that is not empty

  predicate AsleepAt(s: State, u: nat) {
    u < |s.phase| && s.phase[u].RSleep?
  }

  /** Step `j` is a writer found killed with bytes stored and not announced; from then
      on, up to state `i`, reader `u` has been asleep and the pipe not empty. */
  ghost predicate Stranded(trace: seq<State>, acts: seq<Action>, j: nat, i: nat, u: nat)
    requires |trace| == |acts| + 1 && i < |trace|
  {
    && j < i && acts[j].Killed? && acts[j].t < |trace[j].phase| && trace[j].phase[acts[j].t].W? && trace[j].phase[acts[j].t].unsaid
    && forall m :: j < m <= i ==> AsleepAt(trace[m], u) && !Empty(trace[m])
  }

  predicate AboutToSay(s: State) {
    Holder(s).W? && Holder(s).unsaid
  }

  /** How a reader comes to be asleep on a pipe that is not empty and that nobody is about to announce. */
  lemma StepStrands(s: State, a: Action, u: nat)
    requires Inv(s) && Enabled(s, a) && AsleepAt(Apply(s, a), u) && !Empty(Apply(s, a)) && !AboutToSay(Apply(s, a))
    ensures AsleepAt(s, u)
    ensures (!Empty(s) && !AboutToSay(s)) || (a.Killed? && s.phase[a.t].W? && s.phase[a.t].unsaid)
  {
    assert ThreadOk(s, u);
    if s.lock.Some? { assert ThreadOk(s, s.lock.value); }
    match a {
      case Turn(t) => assert ThreadOk(s, t);
      case Killed(t) => assert ThreadOk(s, t);
      case CopyFails(t) => assert ThreadOk(s, t);
      case _ =>
    }
    Tests(s);
  }

  lemma {:induction false} StrandedSince(trace: seq<State>, acts: seq<Action>, i: nat, u: nat)
    requires IsRun(trace, acts) && i < |trace| && AsleepAt(trace[i], u) && !Empty(trace[i]) && !AboutToSay(trace[i])
    ensures exists j: nat :: Stranded(trace, acts, j, i, u)
  {
    if i > 0 {
      RunInv(trace, acts, i - 1);
      StepStrands(trace[i - 1], acts[i - 1], u);
      hide Inv, Apply, Enabled, Init;
      if !Empty(trace[i - 1]) && !AboutToSay(trace[i - 1]) {
        StrandedSince(trace, acts, i - 1, u);
        StrandedStill(trace, acts, i - 1, i, u);
      } else {
        assert Stranded(trace, acts, i - 1, i, u);
      }
    }
  }

  lemma StrandedStill(trace: seq<State>, acts: seq<Action>, h: nat, i: nat, u: nat)
    requires IsRun(trace, acts) && i == h + 1 < |trace| && AsleepAt(trace[i], u) && !Empty(trace[i])
    requires exists j: nat :: Stranded(trace, acts, j, h, u)
    ensures exists j: nat :: Stranded(trace, acts, j, i, u)
  {
    hide Apply, Enabled, Init, Empty, AsleepAt;
    var j: nat :| Stranded(trace, acts, j, h, u);
    assert Stranded(trace, acts, j, i, u);
  }

  /** While the lock is free, a sleeping reader finds the pipe not empty exactly when it has
      slept, and the pipe has held bytes, since a writer was killed before announcing some. */
  lemma StrandedExactly(trace: seq<State>, acts: seq<Action>, i: nat, u: nat)
    requires IsRun(trace, acts) && i < |trace| && AsleepAt(trace[i], u) && trace[i].lock == None
    ensures trace[i].stored != trace[i].consumed <==> exists j: nat :: Stranded(trace, acts, j, i, u)
  {
    RunInv(trace, acts, i);
    Tests(trace[i]);
    if trace[i].stored != trace[i].consumed {
      assert !Empty(trace[i]) by {
        assert trace[i].consumed == trace[i].stored[..|trace[i].consumed|];
      }
      StrandedSince(trace, acts, i, u);
    }
    if j: nat :| Stranded(trace, acts, j, i, u) {
      assert !Empty(trace[i]);
    }
  }

  /** A writer found killed leaves a reader asleep on a pipe that is not empty exactly when one
      sleeps and it had bytes to announce, or one was so left before. */
  lemma KillStrands(trace: seq<State>, acts: seq<Action>, i: nat, u: nat)
    requires IsRun(trace, acts) && i < |acts| && acts[i].Killed? && trace[i].phase[acts[i].t].W?
    ensures AsleepAt(trace[i + 1], u) && trace[i + 1].stored != trace[i + 1].consumed <==>
            AsleepAt(trace[i], u) && (trace[i].phase[acts[i].t].unsaid || exists j: nat :: Stranded(trace, acts, j, i, u))
  {
    var s, t := trace[i], acts[i].t;
    RunInv(trace, acts, i);
    assert ThreadOk(s, t);
    Tests(s);
    assert trace[i + 1].stored == s.stored && trace[i + 1].consumed == s.consumed;
    assert AsleepAt(trace[i + 1], u) <==> AsleepAt(s, u);
    assert s.stored != s.consumed <==> !Empty(s) by {
      assert s.consumed == s.stored[..|s.consumed|];
    }
    hide Inv, Apply, Enabled;
    if AsleepAt(s, u) && !Empty(s) && !s.phase[t].unsaid {
      StrandedSince(trace, acts, i, u);
    }
    if j: nat :| Stranded(trace, acts, j, i, u) {
      assert !Empty(s);
    }
  }

  /** And that does happen: a reader goes to sleep, a writer stores one byte of
      two and is killed, and the reader is left asleep on a pipe that is not empty. */
  lemma LostExample(s: State, c: byte) returns (trace: seq<State>, acts: seq<Action>)
    requires Init(s) && |s.phase| == 2
    ensures IsRun(trace, acts) && trace[0] == s && |trace| == 8
    ensures var e := trace[7]; e.lock == None && |e.phase| == 2 && e.phase[0] == RSleep(1) && e.stored == [c] && e.consumed == []
  {
    acts := [Read(0, 1), Acquire(0), Turn(0), Write(1, [Some(c), Some(c)]), Acquire(1), Turn(1), Killed(1)];
    var s1 := Apply(s, acts[0]);
    var s2 := Apply(s1, acts[1]);
    var s3 := Apply(s2, acts[2]);
    var s4 := Apply(s3, acts[3]);
    var s5 := Apply(s4, acts[4]);
    var s6 := Apply(s5, acts[5]);
    trace := [s, s1, s2, s3, s4, s5, s6, Apply(s6, acts[6])];
  }
}
