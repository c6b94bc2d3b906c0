/**
  The driver code of kernel/virtio_disk.c as it runs, with vdisk_lock held:
  each method takes exactly the steps of module Virtio.
 */
module VirtioDriver {

  import opened Common
  import opened Virtio

  /** No three descriptors are free. */
  ghost predicate TooFew(free: seq<bool>)
    requires |free| == NUM
  {
    forall a, b, c :: 0 <= a < b < c < NUM ==> !(free[a] && free[b] && free[c])
  }

  const BLANK := Desc(Nowhere, false, None)

  /** These steps lead from `s` to `s'`, each possible and safe. */
  ghost predicate Ran(s: State, acts: seq<Action>, s': State)
    decreases |acts|
  {
    if acts == [] then s' == s
    else
      var a := acts[|acts| - 1];
      exists m :: Ran(s, acts[..|acts| - 1], m) && Guard(m, a) && Safe(m, a) && s' == Apply(m, a)
  }

  lemma RanMore(s: State, acts: seq<Action>, m: State, a: Action)
    requires Ran(s, acts, m) && Guard(m, a) && Safe(m, a)
    ensures Ran(s, acts + [a], Apply(m, a))
  {
    hide Guard, Safe, Apply;
    var all := acts + [a];
    assert all[..|all| - 1] == acts && all[|all| - 1] == a;
  }

  predicate OfDevice(a: Action) {
    a.DevTake? || a.DevPerform? || a.DevPost?
  }

  /** Steps of the device and turns of the interrupt handler. */
  predicate Handling(acts: seq<Action>) {
    forall i :: 0 <= i < |acts| ==> OfDevice(acts[i]) || acts[i] == Intr
  }

  class Disk {
    var s: State

    constructor (s: State)
      ensures this.s == s
    {
      this.s := s;
    }

    /** alloc_desc: the lowest free descriptor, or -1 if there is none. */
    method AllocDesc() returns (i: int)
      requires Sized(s)
      modifies this
      ensures -1 <= i < NUM
      ensures i == -1 ==> s == old(s) && forall j :: 0 <= j < NUM ==> !s.free[j]
      ensures i >= 0 ==> old(s).free[i] && s == old(s).(free := old(s).free[i := false])
      ensures i >= 0 ==> forall j :: 0 <= j < i ==> !old(s).free[j]
      ensures i >= 0 ==> Sized(s) && |FreeDescs(old(s))| == |FreeDescs(s)| + 1
    {
      i := 0;
      while i < NUM
        invariant 0 <= i <= NUM && s == old(s) && forall j :: 0 <= j < i ==> !s.free[j]
      {
        if s.free[i] {
          OneFewer(s, i, s.desc);
          s := s.(free := s.free[i := false]);
          return;
        }
        i := i + 1;
      }
      i := -1;
    }

    /** free_desc. */
    method FreeDesc(i: nat)
      requires Sized(s) && i < NUM && !s.free[i]
      modifies this
      ensures s == old(s).(free := old(s).free[i := true], desc := old(s).desc[i := BLANK])
      ensures Sized(s) && |FreeDescs(s)| == |FreeDescs(old(s))| + 1
    {
      s := s.(desc := s.desc[i := BLANK], free := s.free[i := true]);
      OneFewer(s, i, old(s).desc);
      assert s.free[i := false] == old(s).free;
    }

    /** alloc3_desc: three different free descriptors, or, when no three are
        free, none taken. */
    method Alloc3() returns (ok: bool, h: nat, i1: nat, i2: nat)
      requires Sized(s)
      modifies this
      ensures ok ==> h < NUM && i1 < NUM && i2 < NUM && h != i1 && h != i2 && i1 != i2
      ensures ok ==> old(s).free[h] && old(s).free[i1] && old(s).free[i2]
      ensures ok ==> s == old(s).(free := old(s).free[h := false][i1 := false][i2 := false])
      ensures !ok ==> TooFew(old(s).free) && s == old(s).(desc := s.desc) && |s.desc| == NUM
      ensures !ok ==> forall i :: 0 <= i < NUM && !s.free[i] ==> s.desc[i] == old(s).desc[i]
    {
      ok, h, i1, i2 := false, 0, 0, 0;
      var a := AllocDesc();
      if a < 0 {
        return;
      }
      var b := AllocDesc();
      if b < 0 {
        FreeDesc(a);
        assert s.free == old(s).free;
        return;
      }
      var c := AllocDesc();
      if c < 0 {
        FreeDesc(a);
        FreeDesc(b);
        assert s.free == old(s).free;
        return;
      }
      return true, a, b, c;
    }

    /** free_chain: follows the links from `h` and frees all three. */
    method FreeChain(h: nat)
      requires Sized(s) && Followed(s, h)
      modifies this
      ensures var i1 := old(s).desc[h].next.value;
              var i2 := old(s).desc[i1].next.value;
              s == old(s).(free := old(s).free[h := true][i1 := true][i2 := true],
                           desc := old(s).desc[h := BLANK][i1 := BLANK][i2 := BLANK])
    {
      ghost var i1 := s.desc[h].next.value;
      ghost var i2 := s.desc[i1].next.value;
      ghost var turn := 0;
      var i := h;
      while true
        invariant 0 <= turn < 3 && i == (if turn == 0 then h else if turn == 1 then i1 else i2)
        invariant s == old(s).(free := if turn == 0 then old(s).free else if turn == 1 then old(s).free[h := true] else old(s).free[h := true][i1 := true],
                               desc := if turn == 0 then old(s).desc else if turn == 1 then old(s).desc[h := BLANK] else old(s).desc[h := BLANK][i1 := BLANK])
        decreases 3 - turn
      {
        var next := s.desc[i].next;
        FreeDesc(i);
        if next.None? {
          return;
        }
        i := next.value;
        turn := turn + 1;
      }
    }

    /** virtio_disk_rw up to the wait: if descriptors can be had, exactly the
        steps Prepare and Publish; if not, the caller sleeps and nothing in
        flight has changed. */
    method Start(b: nat, write: bool) returns (ok: bool, h: nat, i1: nat, i2: nat)
      requires Inv(s) && s.lock.None? && b < |s.bufs| && s.heads[b].None? && 2 * s.bufs[b].block in s.media
      modifies this
      ensures Inv(s)
      ensures ok ==> Guard(old(s), Prepare(b, write, h, i1, i2)) && s == ApplyPublish(ApplyPrepare(old(s), b, write, h, i1, i2))
      ensures !ok ==> TooFew(old(s).free) && s == old(s).(desc := s.desc)
    {
      hide Chains, Requests, Avail, Used;
      InvSized(s);
      ok, h, i1, i2 := Alloc3();
      if !ok {
        FreeDescOnly(old(s), s);
        return;
      }
      StepKeeps(old(s), Prepare(b, write, h, i1, i2));
      ghost var mid := ApplyPrepare(old(s), b, write, h, i1, i2);
      PrepareSized(old(s), b, write, h, i1, i2);
      StepKeeps(mid, Publish);
      hide Inv;
      Fill(b, write, h, i1, i2, old(s));
      s := s.(availIdx := (s.availIdx + 1) % U16, lock := None, alog := s.alog + [h],
              reqs := s.reqs[h := Next(s.reqs[h], Published)]);
    }

    /** Formatting the chain and filling the ring slot. */
    method Fill(b: nat, write: bool, h: nat, i1: nat, i2: nat, ghost was: State)
      requires Guard(was, Prepare(b, write, h, i1, i2)) && s == was.(free := was.free[h := false][i1 := false][i2 := false])
      modifies this
      ensures s == ApplyPrepare(was, b, write, h, i1, i2)
    {
      var op := Op(write, 2 * s.bufs[b].block);
      s := s.(ops := s.ops[h := op]);
      s := s.(desc := s.desc[h := Desc(OpAt(h), false, Some(i1))]);
      s := s.(desc := s.desc[i1 := Desc(DataAt(b), !write, Some(i2))]);
      s := s.(info := s.info[h := Info(Some(b), 0xff)]);
      s := s.(desc := s.desc[i2 := Desc(StatusAt(h), true, None)]);
      s := s.(bufs := s.bufs[b := s.bufs[b].(busy := true)]);
      s := s.(availRing := s.availRing[s.availIdx % NUM := h], heads := s.heads[b := Some(h)], lock := Some(h),
              reqs := s.reqs[h := Req(b, op, i1, i2, Prepared)], own := s.own[h := h][i1 := h][i2 := h],
              subs := s.subs[b := s.subs[b] + [op]]);
    }

    /** The end of virtio_disk_rw, woken with b->disk clear. */
    method End(b: nat)
      requires Inv(s) && Guard(s, Finish(b))
      modifies this
      ensures Inv(s) && Safe(old(s), Finish(b)) && s == ApplyFinish(old(s), b)
    {
      FinishKeeps(s, b);
      hide Inv;
      var h := s.heads[b].value;
      var chain := {h, s.desc[h].next.value, s.desc[s.desc[h].next.value].next.value};
      s := s.(info := s.info[h := Info(None, s.info[h].status)]);
      FreeChain(h);
      s := s.(heads := s.heads[b := None], reqs := s.reqs - {h}, own := s.own - chain);
    }

    /** One turn of the loop in virtio_disk_intr. */
    method Turn()
      requires Inv(s) && Guard(s, Intr)
      modifies this
      ensures Inv(s) && Safe(old(s), Intr) && s == Apply(old(s), Intr)
    {
      IntrKeeps(s);
      hide Inv;
      var id := s.usedRing[s.seenIdx % NUM];
      var b := s.info[id].b.value;
      s := s.(bufs := s.bufs[b := s.bufs[b].(busy := false)], seenIdx := (s.seenIdx + 1) % U16, seen := s.seen + 1,
              reqs := s.reqs[id := Next(s.reqs[id], Seen)], dones := s.dones[b := s.dones[b] + 1]);
    }

    /** The device does those of `acts` that it can. */
    method Device(acts: seq<Action>, ghost first: State, ghost did: seq<Action>) returns (ghost did': seq<Action>)
      requires Inv(s) && s.lock.None? && Ran(first, did, s) && Handling(did)
      modifies this
      ensures Inv(s) && s.lock.None? && Ran(first, did', s) && Handling(did')
    {
      hide Inv, Safe, Guard, Apply, Ran;
      did' := did;
      for i := 0 to |acts|
        invariant Inv(s) && s.lock.None? && Ran(first, did', s) && Handling(did')
      {
        InvSized(s);
        if OfDevice(acts[i]) && Guard(s, acts[i]) {
          StepKeeps(s, acts[i]);
          DeviceLock(s, acts[i]);
          RanMore(first, did', s, acts[i]);
          did' := did' + [acts[i]];
          s := Apply(s, acts[i]);
        }
      }
    }

    /** virtio_disk_intr, with the device at work all the while: before the t-th test of the
        loop it does what it can of `dev[t]`. Every entry of the used ring, those added
        meanwhile included, is consumed, one safe step each. */
    method Interrupt(dev: seq<seq<Action>>) returns (ghost did: seq<Action>)
      requires Inv(s) && s.lock.None?
      modifies this
      ensures Inv(s) && s.lock.None? && Ran(old(s), did, s) && Handling(did)
      ensures s.seen == |s.ulog| && s.seenIdx == s.usedIdx
    {
      hide Inv, Safe, Apply, Ran;
      ghost var first := s;
      RanNone(first);
      did := [];
      var t := 0;
      if t < |dev| { did := Device(dev[t], first, did); }
      InvCounts(s);
      while s.seenIdx != s.usedIdx
        invariant Inv(s) && s.lock.None? && Ran(first, did, s) && Handling(did)
        decreases if t < |dev| then |dev| - t else 0, if s.seen <= |s.ulog| then |s.ulog| - s.seen else 0
      {
        ghost var m := s;
        InvSized(s);
        InvCounts(s);
        Turn();
        IntrEffect(m);
        InvCounts(s);
        RanMore(first, did, m, Intr);
        did := did + [Intr];
        if t < |dev| {
          t := t + 1;
          if t < |dev| { did := Device(dev[t], first, did); }
        }
      }
      InvCounts(s);
    }
  }

  lemma RanNone(s: State)
    ensures Ran(s, [], s)
  {
  }

  lemma DeviceLock(s: State, a: Action)
    requires Guard(s, a) && Safe(s, a) && OfDevice(a)
    ensures Apply(s, a).lock == s.lock
  {
  }

  lemma OneFewer(s: State, i: nat, desc: seq<Desc>)
    requires Sized(s) && i < NUM && s.free[i] && |desc| == NUM
    ensures |FreeDescs(s)| == |FreeDescs(s.(free := s.free[i := false], desc := desc))| + 1
  {
    assert FreeDescs(s) == FreeDescs(s.(free := s.free[i := false], desc := desc)) + {i};
  }

  lemma IntrEffect(s: State)
    requires Guard(s, Intr) && Safe(s, Intr)
    ensures var s' := Apply(s, Intr); s'.ulog == s.ulog && s'.seen == s.seen + 1 && s'.lock == s.lock
  {
  }

  lemma InvSized(s: State)
    requires Inv(s)
    ensures Sized(s)
  {
  }

  lemma PrepareSized(s: State, b: nat, write: bool, h: nat, i1: nat, i2: nat)
    requires Guard(s, Prepare(b, write, h, i1, i2))
    ensures Guard(ApplyPrepare(s, b, write, h, i1, i2), Publish)
    ensures h in ApplyPrepare(s, b, write, h, i1, i2).reqs && ApplyPrepare(s, b, write, h, i1, i2).lock == Some(h)
  {
  }

  lemma InvCounts(s: State)
    requires Inv(s)
    ensures s.seen <= |s.ulog| && (s.seenIdx == s.usedIdx <==> s.seen == |s.ulog|)
  {
    UsedFew(s);
  }

  /** Descriptors that are free can be blanked. */
  lemma FreeDescChain(s: State, s': State, h: nat)
    requires Chains(s) && s' == s.(desc := s'.desc) && |s'.desc| == NUM && h in s.reqs
    requires forall i :: 0 <= i < NUM && !s'.free[i] ==> s'.desc[i] == s.desc[i]
    ensures Chain(s', h)
  {
    assert Chain(s, h) && Owned(s, h) && Owned(s, s.reqs[h].i1) && Owned(s, s.reqs[h].i2);
  }

  lemma FreeDescChains(s: State, s': State)
    requires Chains(s) && s' == s.(desc := s'.desc) && |s'.desc| == NUM
    requires forall i :: 0 <= i < NUM && !s'.free[i] ==> s'.desc[i] == s.desc[i]
    ensures Chains(s')
  {
    forall h: nat | h in s'.reqs
      ensures Chain(s', h)
    {
      FreeDescChain(s, s', h);
    }
    forall i: nat | i < NUM
      ensures Owned(s', i)
    {
      assert Owned(s, i);
    }
  }

  lemma FreeDescRequests(s: State, s': State)
    requires Requests(s) && s' == s.(desc := s'.desc) && |s'.desc| == NUM
    ensures Requests(s')
  {
    forall h: nat | h in s'.reqs
      ensures Tracked(s', h)
    {
      assert Tracked(s, h);
    }
    forall b: nat | b < |s'.bufs|
      ensures Counted(s', b)
    {
      assert Counted(s, b);
    }
  }

  lemma FreeDescOnly(s: State, s': State)
    requires Inv(s) && s' == s.(desc := s'.desc) && |s'.desc| == NUM
    requires forall i :: 0 <= i < NUM && !s'.free[i] ==> s'.desc[i] == s.desc[i]
    ensures Inv(s')
  {
    hide Chains, Requests, Avail, Used;
    FreeDescChains(s, s');
    FreeDescRequests(s, s');
    AvailKept(s, s');
    UsedKept(s, s');
  }
}
