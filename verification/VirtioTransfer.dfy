/**
  What one call of virtio_disk_rw does to the disk and to the buffer, told by the
  actions of a run: the transfer the caller asked for, in the direction it asked
  for, exactly once.
 */
module VirtioTransfer {

  import opened Common
  import opened Virtio

  /** The request made in state `s0` for buffer `b` is in flight under head `h`. A write
      finds the bytes of the call in the buffer, and so does a read until it is performed. */
  predicate Pending(s0: State, s: State, b: nat, write: bool, h: nat) {
    && Sized(s) && |s.bufs| == |s0.bufs| && b < |s.bufs| && s.heads[b] == Some(h) && h in s.reqs
    && s.reqs[h].b == b && s.reqs[h].op == Op(write, 2 * s0.bufs[b].block)
    && (write || Early(s.reqs[h].stage) ==> s.bufs[b].data == s0.bufs[b].data)
  }

  /** The transfer of buffer `b` that the caller asked for in state `s0`. */
  predicate Moves(s0: State, s: State, s': State, b: nat, write: bool)
    requires b < |s0.bufs|
  {
    var at := 2 * s0.bufs[b].block;
    if write then s'.media == s.media[at := s0.bufs[b].data] && s'.bufs == s.bufs
    else b < |s.bufs| && at in s.media && s'.bufs == s.bufs[b := s.bufs[b].(data := s.media[at])] && s'.media == s.media
  }

  predicate SameData(s: State, s': State, b: nat) {
    b < |s.bufs| && b < |s'.bufs| && s'.bufs[b].data == s.bufs[b].data
  }

  lemma Asks(s: State, b: nat, write: bool, h: nat, i1: nat, i2: nat)
    requires Inv(s) && Guard(s, Prepare(b, write, h, i1, i2))
    ensures var s' := ApplyPrepare(s, b, write, h, i1, i2);
            Pending(s, s', b, write, h) && Early(s'.reqs[h].stage) && SameData(s, s', b)
  {
    hide Inv;
  }

  lemma OtherBuffer(s: State, h: nat, g: nat)
    requires Inv(s) && h in s.reqs && g in s.reqs && g != h
    ensures s.reqs[g].b != s.reqs[h].b
  {
    assert Tracked(s, g) && Tracked(s, h);
  }

  /** The device performs request `g`: the chain leads it to the buffer and the operation
      of that request. */
  lemma Performs(s: State, g: nat)
    requires Inv(s) && Guard(s, DevPerform(g)) && Safe(s, DevPerform(g))
    ensures var s', q := ApplyPerform(s, g), s.reqs[g];
            && g in s.reqs && q.stage == Taken && q.b < |s.bufs| && q.op.sector in s.media && s'.heads == s.heads
            && s'.reqs == s.reqs[g := Next(q, Performed)]
            && (if q.op.write then s'.media == s.media[q.op.sector := s.bufs[q.b].data] && s'.bufs == s.bufs
                else s'.media == s.media && s'.bufs == s.bufs[q.b := s.bufs[q.b].(data := s.media[q.op.sector])])
  {
    assert Chain(s, g) && Tracked(s, g);
    hide Inv, Chains, Requests, Avail, Used;
  }

  /** Neither the buffer nor the request is the step's business, but for the request's stage. */
  predicate Bystands(s: State, s': State, b: nat, h: nat) {
    && Sized(s) && Sized(s') && |s'.bufs| == |s.bufs| && SameData(s, s', b) && s'.heads[b] == s.heads[b]
    && h in s.reqs && h in s'.reqs && s'.reqs[h] == Next(s.reqs[h], s'.reqs[h].stage)
    && (Early(s'.reqs[h].stage) <==> Early(s.reqs[h].stage))
  }

  lemma RingWaits(s: State, a: Action, b: nat, h: nat)
    requires Inv(s) && Guard(s, a) && Safe(s, a) && (a.Intr? || a.DevTake?) && b < |s.bufs| && h in s.reqs
    ensures Bystands(s, Apply(s, a), b, h)
  {
    if a.Intr? {
      SlotOf(s.seen);
      assert UsedAt(s, s.seen);
    } else {
      SlotOf(s.taken);
      assert AvailAt(s, s.taken);
    }
    hide Inv, Chains, Requests, Avail, Used;
  }

  lemma CallWaits(s: State, a: Action, b: nat, h: nat)
    requires Inv(s) && Guard(s, a) && Safe(s, a) && (a.Prepare? || a.Finish?) && b < |s.bufs| && h in s.reqs
    requires s.heads[b] == Some(h) && s.reqs[h].b == b && a != Finish(b)
    ensures Bystands(s, Apply(s, a), b, h)
  {
    if a.Prepare? {
      PrepareChains(s, a.b, a.write, a.h, a.i1, a.i2);
    } else {
      assert Counted(s, a.b);
    }
    hide Inv, Chains, Requests, Avail, Used;
  }

  lemma StageWaits(s: State, a: Action, b: nat, h: nat)
    requires Inv(s) && Guard(s, a) && Safe(s, a) && (a.Publish? || a.DevPost? || a.Touch?) && b < |s.bufs| && h in s.reqs
    requires s.heads[b] == Some(h)
    ensures Bystands(s, Apply(s, a), b, h)
  {
    if a.Publish? {
      assert Tracked(s, s.lock.value);
    } else if a.DevPost? {
      assert Tracked(s, a.h);
    }
    hide Inv, Chains, Requests, Avail, Used;
  }

  lemma Waits(s0: State, s: State, a: Action, b: nat, write: bool, h: nat)
    requires Inv(s) && Guard(s, a) && Safe(s, a) && Pending(s0, s, b, write, h) && a != Finish(b) && !a.DevPerform?
    ensures var s' := Apply(s, a);
            Pending(s0, s', b, write, h) && SameData(s, s', b) && (Early(s'.reqs[h].stage) <==> Early(s.reqs[h].stage))
  {
    hide Inv, Guard, Safe, Apply;
    match a {
      case Intr => RingWaits(s, a, b, h);
      case DevTake => RingWaits(s, a, b, h);
      case Prepare(_, _, _, _, _) => CallWaits(s, a, b, h);
      case Finish(_) => CallWaits(s, a, b, h);
      case _ => StageWaits(s, a, b, h);
    }
  }

  lemma OthersWork(s0: State, s: State, g: nat, b: nat, write: bool, h: nat)
    requires Inv(s) && Guard(s, DevPerform(g)) && Safe(s, DevPerform(g)) && Pending(s0, s, b, write, h) && g != h
    ensures var s' := Apply(s, DevPerform(g));
            Pending(s0, s', b, write, h) && SameData(s, s', b) && s'.reqs[h].stage == s.reqs[h].stage
  {
    Performs(s, g);
    OtherBuffer(s, h, g);
    hide Inv, ApplyPerform;
  }

  lemma OwnWork(s0: State, s: State, b: nat, write: bool, h: nat)
    requires Inv(s) && Guard(s, DevPerform(h)) && Safe(s, DevPerform(h)) && Pending(s0, s, b, write, h)
    ensures var s' := Apply(s, DevPerform(h));
            Pending(s0, s', b, write, h) && Moves(s0, s, s', b, write) && Early(s.reqs[h].stage) && !Early(s'.reqs[h].stage)
  {
    Performs(s, h);
    hide Inv, ApplyPerform;
  }

  /** One step of a request's life. */
  ghost predicate Lives(s0: State, s: State, a: Action, s': State, b: nat, write: bool, h: nat) {
    && b < |s0.bufs| && Pending(s0, s, b, write, h) && Pending(s0, s', b, write, h)
    && (a == DevPerform(h) ==> Moves(s0, s, s', b, write) && Early(s.reqs[h].stage) && !Early(s'.reqs[h].stage))
    && (a != DevPerform(h) ==> SameData(s, s', b) && (Early(s'.reqs[h].stage) <==> Early(s.reqs[h].stage)))
  }

  lemma LifeStep(s0: State, s: State, a: Action, b: nat, write: bool, h: nat)
    requires Inv(s) && Guard(s, a) && Safe(s, a) && Pending(s0, s, b, write, h) && a != Finish(b)
    ensures Lives(s0, s, a, Apply(s, a), b, write, h)
  {
    hide Inv, Guard, Safe, Moves, ApplyPrepare, ApplyPublish, ApplyIntr, ApplyFinish, ApplyTake, ApplyPerform, ApplyPost;
    if a == DevPerform(h) {
      OwnWork(s0, s, b, write, h);
    } else if a.DevPerform? {
      OthersWork(s0, s, a.h, b, write, h);
    } else {
      Waits(s0, s, a, b, write, h);
    }
  }

  /** From the call to the state `v`, which comes no later than its end. */
  ghost predicate Called(trace: seq<State>, acts: seq<Action>, t: nat, v: nat, b: nat, write: bool, h: nat) {
    && IsRun(trace, acts) && t < v < |trace| == |acts| + 1
    && acts[t].Prepare? && acts[t].b == b && acts[t].write == write && acts[t].h == h
    && forall w :: t < w < v ==> acts[w] != Finish(b)
  }

  lemma {:induction false} Life(trace: seq<State>, acts: seq<Action>, t: nat, v: nat, b: nat, write: bool, h: nat)
    requires Called(trace, acts, t, v, b, write, h)
    ensures Pending(trace[t], trace[v], b, write, h) && SameData(trace[t], trace[t + 1], b)
    ensures v == t + 1 ==> Early(trace[v].reqs[h].stage)
    ensures v > t + 1 ==> Lives(trace[t], trace[v - 1], acts[v - 1], trace[v], b, write, h)
    decreases v
  {
    hide Inv, Guard, Safe, Apply, Init, ApplyPrepare, Pending;
    if v == t + 1 {
      RunInv(trace, acts, t);
      RunSafe(trace, acts, t);
      Asks(trace[t], b, write, h, acts[t].i1, acts[t].i2);
      PrepareApplies(trace[t], acts[t]);
    } else {
      Life(trace, acts, t, v - 1, b, write, h);
      RunInv(trace, acts, v - 1);
      RunSafe(trace, acts, v - 1);
      LifeStep(trace[t], trace[v - 1], acts[v - 1], b, write, h);
    }
  }

  lemma PrepareApplies(s: State, a: Action)
    requires Guard(s, a) && Safe(s, a) && a.Prepare?
    ensures Apply(s, a) == ApplyPrepare(s, a.b, a.write, a.h, a.i1, a.i2)
  {
  }

  /** The request is performed at step `v`. */
  predicate At(acts: seq<Action>, t: nat, v: nat, u: nat, h: nat) {
    t < v < u <= |acts| && acts[v] == DevPerform(h)
  }

  /** It is performed at most once, and has been when its stage says so. */
  lemma {:induction false} Once(trace: seq<State>, acts: seq<Action>, t: nat, u: nat, b: nat, write: bool, h: nat)
    requires Called(trace, acts, t, u, b, write, h)
    ensures Pending(trace[t], trace[u], b, write, h)
    ensures Early(trace[u].reqs[h].stage) <==> !exists v: nat :: At(acts, t, v, u, h)
    ensures forall v: nat, w: nat :: At(acts, t, v, u, h) && At(acts, t, w, u, h) ==> v == w
    decreases u
  {
    hide IsRun, Pending, Moves, SameData, Early;
    Life(trace, acts, t, u, b, write, h);
    if u > t + 1 {
      var k: nat := u - 1;
      Once(trace, acts, t, k, b, write, h);
      forall v: nat | At(acts, t, v, u, h)
        ensures v == k || At(acts, t, v, k, h)
      {
      }
      forall v: nat | At(acts, t, v, k, h)
        ensures At(acts, t, v, u, h)
      {
      }
      if acts[k] == DevPerform(h) { assert At(acts, t, k, u, h); }
    }
  }

  lemma Done(s: State, b: nat)
    requires Inv(s) && Guard(s, Finish(b))
    ensures s.heads[b].value in s.reqs && s.reqs[s.heads[b].value].stage == Seen
  {
    assert Counted(s, b) && Tracked(s, s.heads[b].value);
  }

  /** Between a call and its end the device performs the request exactly once. It moves the
      bytes the buffer held at the call to the block, or the block's bytes to the buffer,
      as the caller asked, and nothing else. No other step touches the buffer's bytes. */
  lemma Transfers(trace: seq<State>, acts: seq<Action>, t: nat, u: nat, b: nat, write: bool, h: nat)
    requires Called(trace, acts, t, u, b, write, h) && u < |acts| && acts[u] == Finish(b)
    ensures b < |trace[t].bufs|
    ensures exists v: nat :: At(acts, t, v, u, h) && Moves(trace[t], trace[v], trace[v + 1], b, write)
    ensures forall v: nat, w: nat :: At(acts, t, v, u, h) && At(acts, t, w, u, h) ==> v == w
    ensures forall w :: t <= w < u && acts[w] != DevPerform(h) ==> SameData(trace[w], trace[w + 1], b)
  {
    hide IsRun, Pending, Moves, SameData;
    Once(trace, acts, t, u, b, write, h);
    assert Guard(trace[u], acts[u]) by { AtFinish(trace, acts, u, b); }
    RunInv(trace, acts, u);
    Done(trace[u], b);
    assert trace[u].heads[b] == Some(h) by { Headed(trace[t], trace[u], b, write, h); }
    var v: nat :| At(acts, t, v, u, h);
    Life(trace, acts, t, v + 1, b, write, h);
    forall w | t <= w < u && acts[w] != DevPerform(h)
      ensures SameData(trace[w], trace[w + 1], b)
    {
      Life(trace, acts, t, w + 1, b, write, h);
    }
  }

  lemma AtFinish(trace: seq<State>, acts: seq<Action>, u: nat, b: nat)
    requires IsRun(trace, acts) && u < |acts| && acts[u] == Finish(b)
    ensures Guard(trace[u], Finish(b))
  {
  }

  lemma Headed(s0: State, s: State, b: nat, write: bool, h: nat)
    requires Pending(s0, s, b, write, h)
    ensures b < |s0.bufs| && b < |s.heads| && s.heads[b] == Some(h)
  {
  }
}
