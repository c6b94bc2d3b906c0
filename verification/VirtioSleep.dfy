/**
  The callers of virtio_disk_rw and their sleeps: on disk.free[0] for descriptors, on
  the buffer for the end of a request. Each step is the code between two points where
  vdisk_lock is free, so a wakeup and the change it announces are one step, and so are
  the last test and going to sleep.
 */
module VirtioSleep {

  import opened Common
  import opened Virtio
  import opened VirtioDriver

  /** Where a thread is in virtio_disk_rw. */
  datatype Phase =
    | Away
    | Wanting(b: nat, write: bool)     // about to try alloc3_desc
    | NoDesc(b: nat, write: bool)      // asleep on disk.free[0]
    | Filling(b: nat)                  // the ring slot is filled, avail->idx not yet moved
    | Testing(b: nat)                  // about to look at b->disk
    | OnBuf(b: nat)                    // asleep on b

  datatype World = World(s: State, phase: seq<Phase>)

  datatype Event =
    | Call(t: nat, b: nat, write: bool)
    | Got(t: nat, h: nat, i1: nat, i2: nat)    // alloc3_desc succeeds: up to the ring slot
    | Lacked(t: nat, desc: seq<Desc>)          // it fails, leaving these descriptors, and the thread sleeps
    | Notify(t: nat)                           // avail->idx += 1
    | Sleep(t: nat)                            // b->disk is set: sleep
    | Leave(t: nat)                            // it is clear: free the chain and return
    | Interrupt                                // one turn of virtio_disk_intr
    | Device(a: Action)
    | Change(b: nat, data: Data)               // a holder changes its buffer
    | Kill(t: nat)                             // a sleeper is roused

  function BufOf(p: Phase): Option<nat> {
    match p
    case Away => None
    case Wanting(b, _) => Some(b)
    case NoDesc(b, _) => Some(b)
    case Filling(b) => Some(b)
    case Testing(b) => Some(b)
    case OnBuf(b) => Some(b)
  }

  /** The step of module Virtio that an event takes, if any. */
  function Act(w: World, e: Event): Option<Action> {
    match e
    case Got(t, h, i1, i2) =>
      if t < |w.phase| && w.phase[t].Wanting? then Some(Prepare(w.phase[t].b, w.phase[t].write, h, i1, i2)) else None
    case Notify(_) => Some(Publish)
    case Leave(t) => if t < |w.phase| && w.phase[t].Testing? then Some(Finish(w.phase[t].b)) else None
    case Interrupt => Some(Intr)
    case Device(a) => Some(a)
    case Change(b, data) => Some(Touch(b, data))
    case _ => None
  }

  ghost predicate Happens(w: World, e: Event) {
    && (Act(w, e).Some? ==> Guard(w.s, Act(w, e).value))
    && match e
       case Call(t, b, _) =>
         && t < |w.phase| && w.phase[t] == Away && b < |w.s.bufs| && Sized(w.s) && 2 * w.s.bufs[b].block in w.s.media
         && w.s.heads[b].None? && forall u :: 0 <= u < |w.phase| ==> BufOf(w.phase[u]) != Some(b)
       case Got(t, _, _, _) => t < |w.phase| && w.phase[t].Wanting?
       case Lacked(t, desc) =>
         && t < |w.phase| && w.phase[t].Wanting? && Sized(w.s) && w.s.lock.None? && TooFew(w.s.free)
         && |desc| == NUM && forall i :: 0 <= i < NUM && !w.s.free[i] ==> desc[i] == w.s.desc[i]
       case Notify(t) => t < |w.phase| && w.phase[t].Filling?
       case Sleep(t) => t < |w.phase| && w.phase[t].Testing? && Sized(w.s) && w.s.lock.None? && w.phase[t].b < |w.s.bufs| && w.s.bufs[w.phase[t].b].busy
       case Leave(t) => t < |w.phase| && w.phase[t].Testing?
       case Interrupt => true
       case Device(a) => OfDevice(a)
       case Change(b, _) => forall u :: 0 <= u < |w.phase| ==> BufOf(w.phase[u]) != Some(b)
       case Kill(t) => t < |w.phase|
  }

  // ---- wakeup

  /** wakeup(&disk.free[0]). */
  function Freed(p: Phase): Phase {
    if p.NoDesc? then Wanting(p.b, p.write) else p
  }

  /** wakeup(b). */
  function Done(p: Phase, b: nat): Phase {
    if p == OnBuf(b) then Testing(b) else p
  }

  function FreedAll(ps: seq<Phase>): (r: seq<Phase>)
    ensures |r| == |ps|
  {
    seq(|ps|, t requires 0 <= t < |ps| => Freed(ps[t]))
  }

  function DoneAll(ps: seq<Phase>, b: nat): (r: seq<Phase>)
    ensures |r| == |ps|
  {
    seq(|ps|, t requires 0 <= t < |ps| => Done(ps[t], b))
  }

  /** alloc3_desc that fails after taking a descriptor frees it again, and so wakes. */
  predicate SomeFree(s: State) {
    exists i :: 0 <= i < |s.free| && s.free[i]
  }

  ghost function Phases(w: World, e: Event): (r: seq<Phase>)
    requires Happens(w, e) && (e.Interrupt? ==> Safe(w.s, Intr))
    ensures |r| == |w.phase|
  {
    match e
    case Call(t, b, write) => w.phase[t := Wanting(b, write)]
    case Got(t, _, _, _) => w.phase[t := Filling(w.phase[t].b)]
    case Lacked(t, _) => (if SomeFree(w.s) then FreedAll(w.phase) else w.phase)[t := NoDesc(w.phase[t].b, w.phase[t].write)]
    case Notify(t) => w.phase[t := Testing(w.phase[t].b)]
    case Sleep(t) => w.phase[t := OnBuf(w.phase[t].b)]
    case Leave(t) => FreedAll(w.phase)[t := Away]
    case Interrupt => DoneAll(w.phase, w.s.info[w.s.usedRing[w.s.seenIdx % NUM]].b.value)
    case Device(_) => w.phase
    case Change(_, _) => w.phase
    case Kill(t) => w.phase[t := match w.phase[t] case NoDesc(b, write) => Wanting(b, write) case OnBuf(b) => Testing(b) case p => p]
  }

  ghost function After(w: World, e: Event): World
    requires Happens(w, e) && (Act(w, e).Some? ==> Safe(w.s, Act(w, e).value))
  {
    var s := if Act(w, e).Some? then Apply(w.s, Act(w, e).value) else if e.Lacked? then w.s.(desc := e.desc) else w.s;
    World(s, Phases(w, e))
  }

  // ---- the invariant

  /** What a thread in each phase relies on. */
  predicate Sound(s: State, p: Phase)
    requires Sized(s)
  {
    && (BufOf(p).Some? ==> BufOf(p).value < |s.bufs|)
    && match p
       case Away => true
       case Wanting(b, _) => s.heads[b].None? && 2 * s.bufs[b].block in s.media
       case NoDesc(b, _) => s.heads[b].None? && 2 * s.bufs[b].block in s.media
       case Filling(b) => s.heads[b].Some? && s.lock == s.heads[b]
       case Testing(b) => s.heads[b].Some? && s.lock != s.heads[b]
       case OnBuf(b) => s.heads[b].Some? && s.lock != s.heads[b]
  }

  /** No sleeper whose wait is over. */
  ghost predicate Awaits(s: State, p: Phase)
    requires Sized(s) && Sound(s, p)
  {
    (p.NoDesc? ==> TooFew(s.free)) && (p.OnBuf? ==> s.bufs[p.b].busy)
  }

  ghost predicate WorldOk(w: World) {
    && Inv(w.s) && Sized(w.s)
    && (forall t {:trigger w.phase[t]} :: 0 <= t < |w.phase| ==> Sound(w.s, w.phase[t]) && Awaits(w.s, w.phase[t]))
    && (forall t, u :: 0 <= t < u < |w.phase| && BufOf(w.phase[t]).Some? ==> BufOf(w.phase[t]) != BufOf(w.phase[u]))
  }

  // ---- every step keeps it

  /** What a step of the disk leaves of buffer `b`, as far as a thread at work on it goes by. */
  predicate SameSort(s: State, s': State, b: nat)
    requires Sized(s) && Sized(s')
  {
    && b < |s.bufs| == |s'.bufs| && s'.heads[b] == s.heads[b]
    && s'.bufs[b].block == s.bufs[b].block && s.media.Keys <= s'.media.Keys
  }

  predicate NoMoreFree(s: State, s': State)
    requires Sized(s) && Sized(s')
  {
    forall i :: 0 <= i < NUM && s'.free[i] ==> s.free[i]
  }

  lemma StillSound(s: State, s': State, p: Phase)
    requires Sized(s) && Sized(s') && Sound(s, p) && Awaits(s, p) && |s.bufs| == |s'.bufs|
    requires BufOf(p).Some? ==> SameSort(s, s', BufOf(p).value) && (p.OnBuf? ==> s'.bufs[p.b].busy)
    requires (p.Filling? ==> s'.lock == s.lock) && (p.Testing? || p.OnBuf? ==> s'.lock != s.heads[p.b])
    requires p.NoDesc? ==> NoMoreFree(s, s')
    ensures Sound(s', p) && Awaits(s', p)
  {
  }

  /** A request's head is no free descriptor, and no two buffers have the same. */
  lemma HeadsApart(s: State, b: nat)
    requires Inv(s) && Sized(s) && b < |s.bufs| && s.heads[b].Some?
    ensures s.heads[b].value < NUM && !s.free[s.heads[b].value]
    ensures forall c: nat :: c < |s.bufs| && s.heads[c] == s.heads[b] ==> c == b
  {
    var h := s.heads[b].value;
    assert Counted(s, b);
    assert Chain(s, h);
    assert Owned(s, h);
    forall c: nat | c < |s.bufs| && s.heads[c] == s.heads[b]
      ensures c == b
    {
      assert Counted(s, c);
    }
  }

  /** What each step of the disk does to what waiting threads go by. */
  lemma ActEffect(s: State, a: Action)
    requires Guard(s, a) && Safe(s, a)
    ensures var s' := Apply(s, a);
            && Sized(s') && |s'.bufs| == |s.bufs|
            && (!a.Finish? ==> NoMoreFree(s, s'))
            && (a.Prepare? ==> s.lock == None && s'.lock == Some(a.h) && s.free[a.h] && s'.heads[a.b] == s'.lock)
            && (a.Publish? ==> s'.lock == None)
            && (!a.Prepare? && !a.Publish? ==> s'.lock == s.lock)
            && forall b: nat :: b < |s.bufs| ==>
                 ((a.Prepare? || a.Finish?) && b == a.b)
                 || (SameSort(s, s', b) && (s'.bufs[b].busy == s.bufs[b].busy || (a.Intr? && s.info[s.usedRing[s.seenIdx % NUM]].b == Some(b))))
  {
    match a {
      case Prepare(b, write, h, i1, i2) => PrepareEffect(s, b, write, h, i1, i2);
      case _ =>
    }
  }

  lemma PrepareEffect(s: State, b: nat, write: bool, h: nat, i1: nat, i2: nat)
    requires Guard(s, Prepare(b, write, h, i1, i2))
    ensures var s' := ApplyPrepare(s, b, write, h, i1, i2);
            && Sized(s') && |s'.bufs| == |s.bufs| && NoMoreFree(s, s') && s'.heads == s.heads[b := Some(h)]
            && forall c: nat :: c < |s.bufs| && c != b ==> SameSort(s, s', c) && s'.bufs[c].busy == s.bufs[c].busy
  {
  }

  /** A step of the disk and a thread in phase `p`, whose buffer it is not about. */
  lemma OtherStays(s: State, a: Action, p: Phase)
    requires Inv(s) && Guard(s, a) && Safe(s, a) && Sound(s, p) && Awaits(s, p)
    requires a.Prepare? || a.Finish? ==> BufOf(p) != Some(a.b)
    requires a.Publish? ==> !p.Filling?
    requires a.Finish? ==> !p.NoDesc?
    requires a.Intr? && p.OnBuf? ==> s.info[s.usedRing[s.seenIdx % NUM]].b != Some(p.b)
    ensures Sized(Apply(s, a)) && Sound(Apply(s, a), p) && Awaits(Apply(s, a), p)
  {
    ActEffect(s, a);
    if BufOf(p).Some? && s.heads[BufOf(p).value].Some? { HeadsApart(s, BufOf(p).value); }
    hide Inv, Apply, Guard, Safe;
    StillSound(s, Apply(s, a), p);
  }

  /** The phase after an event of a thread that the event is not of. */
  lemma OtherPhase(w: World, e: Event, u: nat)
    requires Happens(w, e) && (e.Interrupt? ==> Safe(w.s, Intr)) && u < |w.phase|
    requires e.Interrupt? || e.Device? || e.Change? || e.t != u
    ensures BufOf(Phases(w, e)[u]) == BufOf(w.phase[u])
    ensures Phases(w, e)[u] == w.phase[u] || Phases(w, e)[u] == Freed(w.phase[u])
            || (e.Interrupt? && Phases(w, e)[u] == Done(w.phase[u], w.s.info[w.s.usedRing[w.s.seenIdx % NUM]].b.value))
    ensures e.Leave? ==> !Phases(w, e)[u].NoDesc?
    ensures e.Interrupt? ==> Phases(w, e)[u] != OnBuf(w.s.info[w.s.usedRing[w.s.seenIdx % NUM]].b.value)
  {
  }

  /** Being roused leaves a thread where it may be. */
  lemma RousedSound(s: State, p: Phase, p': Phase)
    requires Sized(s) && Sound(s, p) && Awaits(s, p) && BufOf(p') == BufOf(p)
    requires p' == p || p' == Freed(p) || (p.OnBuf? && p' == Done(p, p.b))
    ensures Sound(s, p') && Awaits(s, p')
  {
  }

  lemma OtherKeeps(w: World, e: Event, u: nat)
    requires WorldOk(w) && Happens(w, e) && (Act(w, e).Some? ==> Safe(w.s, Act(w, e).value)) && u < |w.phase|
    requires e.Interrupt? || e.Device? || e.Change? || e.t != u
    ensures var w' := After(w, e); Sized(w'.s) && Sound(w'.s, w'.phase[u]) && Awaits(w'.s, w'.phase[u])
  {
    hide Inv, Guard, Safe, Apply, TooFew;
    var p, p' := w.phase[u], Phases(w, e)[u];
    assert Sound(w.s, p) && Awaits(w.s, p);
    OtherPhase(w, e, u);
    RousedSound(w.s, p, p');
    if Act(w, e).Some? {
      if e.Got? || e.Leave? || e.Notify? { assert w.phase[e.t] != Away && BufOf(w.phase[e.t]) != BufOf(p); }
      if e.Notify? && p'.Filling? { OneFilling(w, e.t, u); }
      OtherStays(w.s, Act(w, e).value, p');
    }
  }

  /** Only the thread that holds vdisk_lock has a ring slot filled. */
  lemma OneFilling(w: World, t: nat, u: nat)
    requires WorldOk(w) && t < |w.phase| && u < |w.phase| && w.phase[t].Filling? && w.phase[u].Filling?
    ensures t == u
  {
    assert Sound(w.s, w.phase[t]) && Sound(w.s, w.phase[u]);
    HeadsApart(w.s, w.phase[t].b);
  }

  lemma MoverKeeps(w: World, e: Event)
    requires WorldOk(w) && Happens(w, e) && (Act(w, e).Some? ==> Safe(w.s, Act(w, e).value))
    requires !e.Interrupt? && !e.Device? && !e.Change?
    ensures var w' := After(w, e); Sized(w'.s) && Sound(w'.s, w'.phase[e.t]) && Awaits(w'.s, w'.phase[e.t])
  {
    assert Sound(w.s, w.phase[e.t]) && Awaits(w.s, w.phase[e.t]);
    if Act(w, e).Some? { ActEffect(w.s, Act(w, e).value); }
    hide Inv, Safe, TooFew;
  }

  /** Every step is safe, and leaves no sleeper whose wait is over. */
  lemma WorldKeeps(w: World, e: Event)
    requires WorldOk(w) && Happens(w, e)
    ensures (Act(w, e).Some? ==> Safe(w.s, Act(w, e).value)) && WorldOk(After(w, e))
  {
    if Act(w, e).Some? { StepKeeps(w.s, Act(w, e).value); }
    if e.Lacked? { FreeDescOnly(w.s, w.s.(desc := e.desc)); }
    hide Inv, Safe, Guard, Apply, TooFew;
    var w' := After(w, e);
    forall u: nat | u < |w'.phase|
      ensures Sized(w'.s) && Sound(w'.s, w'.phase[u]) && Awaits(w'.s, w'.phase[u])
    {
      if e.Interrupt? || e.Device? || e.Change? || e.t != u { OtherKeeps(w, e, u); } else { MoverKeeps(w, e); }
    }
    KeptApart(w, e);
  }

  lemma KeptApart(w: World, e: Event)
    requires WorldOk(w) && Happens(w, e) && (e.Interrupt? ==> Safe(w.s, Intr))
    ensures var ps := Phases(w, e);
            forall t, u :: 0 <= t < u < |ps| && BufOf(ps[t]).Some? ==> BufOf(ps[t]) != BufOf(ps[u])
  {
    hide Inv, Safe, Guard, TooFew;
    var ps := Phases(w, e);
    forall u: nat | u < |ps| && (e.Interrupt? || e.Device? || e.Change? || e.t != u)
      ensures BufOf(ps[u]) == BufOf(w.phase[u])
    {
      OtherPhase(w, e, u);
    }
  }

  // ---- runs

  ghost predicate Boot(w: World) {
    Init(w.s) && forall t :: 0 <= t < |w.phase| ==> w.phase[t] == Away
  }

  ghost predicate IsWorldRun(trace: seq<World>, es: seq<Event>) {
    && |trace| == |es| + 1 && Boot(trace[0])
    && forall t :: 0 <= t < |es| ==>
         && Happens(trace[t], es[t])
         && ((Act(trace[t], es[t]).Some? ==> Safe(trace[t].s, Act(trace[t], es[t]).value)) ==> trace[t + 1] == After(trace[t], es[t]))
  }

  lemma {:induction false} WorldRun(trace: seq<World>, es: seq<Event>, i: nat)
    requires IsWorldRun(trace, es) && i < |trace|
    ensures WorldOk(trace[i])
  {
    if i == 0 {
      InitInv(trace[0].s);
    } else {
      WorldRun(trace, es, i - 1);
      hide WorldOk, Happens, After, Act;
      WorldKeeps(trace[i - 1], es[i - 1]);
    }
  }

  /** In every state of every run: who sleeps for descriptors finds no three of them free,
      and two requests under way whose ends will wake it; who sleeps on a buffer has a
      request that is not done. */
  lemma NoSleeperLeft(trace: seq<World>, es: seq<Event>, i: nat, t: nat)
    requires IsWorldRun(trace, es) && i < |trace| && t < |trace[i].phase|
    ensures var w := trace[i];
            && Sized(w.s)
            && (w.phase[t].NoDesc? ==> TooFew(w.s.free) && |w.s.reqs| == 2)
            && (w.phase[t].OnBuf? ==>
                  && w.phase[t].b < |w.s.bufs| && w.s.bufs[w.phase[t].b].busy && w.s.heads[w.phase[t].b].Some?
                  && var h := w.s.heads[w.phase[t].b].value; h in w.s.reqs && w.s.reqs[h].b == w.phase[t].b && w.s.reqs[h].stage != Seen)
  {
    WorldRun(trace, es, i);
    var w := trace[i];
    assert Sound(w.s, w.phase[t]) && Awaits(w.s, w.phase[t]);
    if w.phase[t].NoDesc? { TooFewTwo(w.s); }
    if w.phase[t].OnBuf? {
      assert Counted(w.s, w.phase[t].b);
      assert Tracked(w.s, w.s.heads[w.phase[t].b].value);
    }
  }

  lemma TooFewTwo(s: State)
    requires Inv(s) && Sized(s) && TooFew(s.free)
    ensures |s.reqs| == 2
  {
    Conserved(s);
    hide Inv;
    if |FreeDescs(s)| >= 3 { ThreeFree(s); }
  }

  lemma ThreeFree(s: State)
    requires Sized(s) && |FreeDescs(s)| >= 3
    ensures !TooFew(s.free)
  {
    var f := FreeDescs(s);
    var a := Least(f);
    assert |f - {a}| >= 2;
    var b := Least(f - {a});
    assert |f - {a} - {b}| >= 1;
    var c := Least(f - {a} - {b});
    assert a < b < c && s.free[a] && s.free[b] && s.free[c];
  }

  lemma Least(f: set<nat>) returns (a: nat)
    requires f != {}
    ensures a in f && forall x :: x in f ==> a <= x
    decreases |f|
  {
    var c :| c in f;
    a := c;
    if f != {c} {
      var b := Least(f - {c});
      if b < c { a := b; }
      assert forall x :: x in f ==> x == c || x in f - {c};
    }
  }
}
