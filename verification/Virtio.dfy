/**
  The virtio disk driver (kernel/virtio_disk.c) and a device that obeys
  sections 2.6 and 5.2 of VIRTIO 1.1, as interleaved steps. vdisk_lock makes
  each driver step atomic for the other driver steps; the device can act
  between any two.
 */
module Virtio {

  import opened Common

  const NUM: nat := 8
  const U16: nat := 65536

  type Data = seq<bv8>

  /** What a descriptor points to: a request header, the bytes of a buffer, a status byte. */
  datatype Addr = Nowhere | OpAt(h: nat) | DataAt(b: nat) | StatusAt(h: nat)

  /** struct virtq_desc: `write` and `next` stand for the two flags. */
  datatype Desc = Desc(addr: Addr, write: bool, next: Option<nat>)

  /** struct virtio_blk_req; a block is two sectors. */
  datatype Op = Op(write: bool, sector: nat)

  datatype Info = Info(b: Option<nat>, status: nat)

  /** struct buf: `busy` is b->disk. */
  datatype Buf = Buf(block: nat, data: Data, busy: bool)

  /** How far a request has come. */
  datatype Stage = Prepared | Published | Taken | Performed | Posted | Seen

  /** A request in flight: its buffer, its operation, its second and third descriptors. */
  datatype Req = Req(b: nat, op: Op, i1: nat, i2: nat, stage: Stage)

  /** The driver's and the device's variables; from `reqs` on, history only. */
  datatype State = State(
    free: seq<bool>, desc: seq<Desc>, ops: seq<Op>, info: seq<Info>,
    availRing: seq<nat>, availIdx: nat, usedRing: seq<nat>, usedIdx: nat,
    seenIdx: nat,                      // disk.used_idx
    bufs: seq<Buf>,
    heads: seq<Option<nat>>,           // idx[0] of the virtio_disk_rw at work on each buffer
    lock: Option<nat>,                 // vdisk_lock held, between filling the ring slot and publishing it
    media: map<nat, Data>, devIdx: nat, devTaken: set<nat>, devDone: set<nat>,
    reqs: map<nat, Req>, own: map<nat, nat>,
    alog: seq<nat>, taken: nat, ulog: seq<nat>, seen: nat,
    subs: seq<seq<Op>>, effs: seq<seq<Op>>, dones: seq<nat>)

  datatype Action =
    | Prepare(b: nat, write: bool, h: nat, i1: nat, i2: nat)  // alloc3_desc and formatting, up to the ring slot
    | Publish                                                // avail->idx += 1
    | Intr                                                   // one turn of virtio_disk_intr
    | Finish(b: nat)                                         // b->disk is clear: free the chain
    | DevTake                                                // the device takes the next avail entry
    | DevPerform(h: nat)                                     // and performs any request it has taken
    | DevPost(h: nat)                                        // and posts any it has performed
    | Touch(b: nat, data: Data)                              // a holder changes its buffer

  predicate Sized(s: State) {
    && |s.free| == |s.desc| == |s.ops| == |s.info| == |s.availRing| == |s.usedRing| == NUM
    && |s.heads| == |s.bufs| == |s.subs| == |s.effs| == |s.dones|
  }

  // ---- steps

  /** When a step can be taken. */
  predicate Guard(s: State, a: Action) {
    && Sized(s)
    && match a
       case Prepare(b, _, h, i1, i2) =>
         && s.lock.None? && b < |s.bufs| && s.heads[b].None? && 2 * s.bufs[b].block in s.media
         && h < NUM && i1 < NUM && i2 < NUM && h != i1 && h != i2 && i1 != i2 && s.free[h] && s.free[i1] && s.free[i2]
       case Publish => s.lock.Some?
       case Intr => s.lock.None? && s.seenIdx != s.usedIdx
       case Finish(b) => s.lock.None? && b < |s.bufs| && s.heads[b].Some? && !s.bufs[b].busy
       case DevTake => s.devIdx != s.availIdx
       case DevPerform(h) => h in s.devTaken
       case DevPost(h) => h in s.devDone
       case Touch(b, _) => b < |s.bufs| && s.heads[b].None?
  }

  /** The chain from `h` is one the device can perform and free_chain can free:
      header, data in the right direction, status, all of them in use. */
  predicate Followed(s: State, h: nat)
    requires Sized(s)
  {
    && h < NUM && !s.free[h] && s.desc[h].addr.OpAt? && s.desc[h].addr.h < NUM && s.desc[h].next.Some?
    && var op, i1 := s.ops[s.desc[h].addr.h], s.desc[h].next.value;
       && i1 < NUM && i1 != h && !s.free[i1] && s.desc[i1].addr.DataAt? && s.desc[i1].addr.b < |s.bufs|
       && s.desc[i1].write == !op.write && op.sector in s.media && s.desc[i1].next.Some?
       && var i2 := s.desc[i1].next.value;
          && i2 < NUM && i2 != h && i2 != i1 && !s.free[i2]
          && s.desc[i2].addr.StatusAt? && s.desc[i2].addr.h < NUM && s.desc[i2].write && s.desc[i2].next.None?
  }

  /** No panic and no stray pointer: what the step takes for granted. */
  predicate Safe(s: State, a: Action)
    requires Guard(s, a)
  {
    match a
    case Prepare(_, _, _, _, _) => true
    case Publish => true
    case Intr =>
      var id := s.usedRing[s.seenIdx % NUM];
      id < NUM && s.info[id].status == 0 && s.info[id].b.Some? && s.info[id].b.value < |s.bufs| && id in s.reqs
    case Finish(b) => Followed(s, s.heads[b].value) && s.heads[b].value in s.reqs
    case DevTake => s.availRing[s.devIdx % NUM] in s.reqs
    case DevPerform(h) => Followed(s, h) && h in s.reqs
    case DevPost(h) => h in s.reqs
    case Touch(_, _) => true
  }

  function Next(q: Req, stage: Stage): Req {
    q.(stage := stage)
  }

  function ApplyPrepare(s: State, b: nat, write: bool, h: nat, i1: nat, i2: nat): State
    requires Guard(s, Prepare(b, write, h, i1, i2))
  {
    var op := Op(write, 2 * s.bufs[b].block);
    s.(free := s.free[h := false][i1 := false][i2 := false],
       ops := s.ops[h := op],
       desc := s.desc[h := Desc(OpAt(h), false, Some(i1))]
                     [i1 := Desc(DataAt(b), !write, Some(i2))]
                     [i2 := Desc(StatusAt(h), true, None)],
       info := s.info[h := Info(Some(b), 0xff)],
       bufs := s.bufs[b := s.bufs[b].(busy := true)],
       availRing := s.availRing[s.availIdx % NUM := h],
       heads := s.heads[b := Some(h)], lock := Some(h),
       reqs := s.reqs[h := Req(b, op, i1, i2, Prepared)], own := s.own[h := h][i1 := h][i2 := h],
       subs := s.subs[b := s.subs[b] + [op]])
  }

  function ApplyPublish(s: State): State
    requires Guard(s, Publish)
  {
    var h := s.lock.value;
    s.(availIdx := (s.availIdx + 1) % U16, lock := None, alog := s.alog + [h],
       reqs := if h in s.reqs then s.reqs[h := Next(s.reqs[h], Published)] else s.reqs)
  }

  function ApplyIntr(s: State): State
    requires Guard(s, Intr) && Safe(s, Intr)
  {
    var id := s.usedRing[s.seenIdx % NUM];
    var b := s.info[id].b.value;
    s.(bufs := s.bufs[b := s.bufs[b].(busy := false)], seenIdx := (s.seenIdx + 1) % U16, seen := s.seen + 1,
       reqs := s.reqs[id := Next(s.reqs[id], Seen)], dones := s.dones[b := s.dones[b] + 1])
  }

  function ApplyFinish(s: State, b: nat): State
    requires Guard(s, Finish(b)) && Safe(s, Finish(b))
  {
    var h := s.heads[b].value;
    var i1 := s.desc[h].next.value;
    var i2 := s.desc[i1].next.value;
    var blank := Desc(Nowhere, false, None);
    s.(info := s.info[h := Info(None, s.info[h].status)],
       free := s.free[h := true][i1 := true][i2 := true],
       desc := s.desc[h := blank][i1 := blank][i2 := blank],
       heads := s.heads[b := None], reqs := s.reqs - {h}, own := s.own - {h, i1, i2})
  }

  function ApplyTake(s: State): State
    requires Guard(s, DevTake) && Safe(s, DevTake)
  {
    var h := s.availRing[s.devIdx % NUM];
    s.(devIdx := (s.devIdx + 1) % U16, devTaken := s.devTaken + {h}, taken := s.taken + 1,
       reqs := s.reqs[h := Next(s.reqs[h], Taken)])
  }

  /** The device reads header, data and status through the descriptors alone. */
  function ApplyPerform(s: State, h: nat): State
    requires Guard(s, DevPerform(h)) && Safe(s, DevPerform(h))
  {
    var op, i1 := s.ops[s.desc[h].addr.h], s.desc[h].next.value;
    var b, st := s.desc[i1].addr.b, s.desc[s.desc[i1].next.value].addr.h;
    s.(media := if op.write then s.media[op.sector := s.bufs[b].data] else s.media,
       bufs := if op.write then s.bufs else s.bufs[b := s.bufs[b].(data := s.media[op.sector])],
       info := s.info[st := Info(s.info[st].b, 0)],
       devTaken := s.devTaken - {h}, devDone := s.devDone + {h},
       reqs := s.reqs[h := Next(s.reqs[h], Performed)], effs := s.effs[b := s.effs[b] + [op]])
  }

  function ApplyPost(s: State, h: nat): State
    requires Guard(s, DevPost(h)) && Safe(s, DevPost(h))
  {
    s.(usedRing := s.usedRing[s.usedIdx % NUM := h], usedIdx := (s.usedIdx + 1) % U16,
       devDone := s.devDone - {h}, ulog := s.ulog + [h], reqs := s.reqs[h := Next(s.reqs[h], Posted)])
  }

  function Apply(s: State, a: Action): State
    requires Guard(s, a) && Safe(s, a)
  {
    match a
    case Prepare(b, write, h, i1, i2) => ApplyPrepare(s, b, write, h, i1, i2)
    case Publish => ApplyPublish(s)
    case Intr => ApplyIntr(s)
    case Finish(b) => ApplyFinish(s, b)
    case DevTake => ApplyTake(s)
    case DevPerform(h) => ApplyPerform(s, h)
    case DevPost(h) => ApplyPost(s, h)
    case Touch(b, data) => s.(bufs := s.bufs[b := s.bufs[b].(data := data)])
  }

  // ---- the invariant

  predicate Chain(s: State, h: nat)
    requires Sized(s) && h in s.reqs
  {
    var q := s.reqs[h];
    && h < NUM && q.i1 < NUM && q.i2 < NUM && h != q.i1 && h != q.i2 && q.i1 != q.i2
    && h in s.own && q.i1 in s.own && q.i2 in s.own && s.own[h] == s.own[q.i1] == s.own[q.i2] == h
    && s.desc[h] == Desc(OpAt(h), false, Some(q.i1))
    && s.desc[q.i1] == Desc(DataAt(q.b), !q.op.write, Some(q.i2))
    && s.desc[q.i2] == Desc(StatusAt(h), true, None)
    && s.ops[h] == q.op && q.op.sector in s.media
  }

  predicate Early(stage: Stage) {
    stage == Prepared || stage == Published || stage == Taken
  }

  predicate Tracked(s: State, h: nat)
    requires Sized(s) && h in s.reqs
  {
    var q := s.reqs[h];
    && h < NUM && q.b < |s.bufs| && s.heads[q.b] == Some(h)
    && s.info[h] == Info(Some(q.b), if Early(q.stage) then 0xff else 0)
    && s.bufs[q.b].busy == (q.stage != Seen) && q.op.sector == 2 * s.bufs[q.b].block
    && (q.stage == Prepared <==> s.lock == Some(h))
    && (q.stage == Taken <==> h in s.devTaken)
    && (q.stage == Performed <==> h in s.devDone)
  }

  /** Per buffer: every request submitted took effect once, as submitted, except
      that the last may be under way; the same of completions. */
  predicate Counted(s: State, b: nat)
    requires Sized(s) && b < |s.bufs|
  {
    match s.heads[b]
    case None => s.effs[b] == s.subs[b] && s.dones[b] == |s.subs[b]|
    case Some(h) =>
      && h in s.reqs && s.reqs[h].b == b
      && s.subs[b] != [] && s.subs[b][|s.subs[b]| - 1] == s.reqs[h].op
      && s.effs[b] == (if Early(s.reqs[h].stage) then s.subs[b][..|s.subs[b]| - 1] else s.subs[b])
      && s.dones[b] == |s.subs[b]| - if s.reqs[h].stage == Seen then 0 else 1
  }

  /** A descriptor is free exactly when no chain owns it. */
  predicate Owned(s: State, i: nat)
    requires Sized(s) && i < NUM
  {
    && (i in s.own <==> !s.free[i])
    && (i in s.own ==> s.own[i] in s.reqs && (i == s.own[i] || i == s.reqs[s.own[i]].i1 || i == s.reqs[s.own[i]].i2))
  }

  /** Entry `i` of the avail ring: published and not yet taken, still in its slot. */
  predicate AvailAt(s: State, i: nat)
    requires Sized(s) && s.taken <= i < |s.alog|
  {
    s.alog[i] in s.reqs && s.reqs[s.alog[i]].stage == Published && s.availRing[i % NUM] == s.alog[i]
  }

  /** Entry `i` of the used ring: posted and not yet seen, still in its slot. */
  predicate UsedAt(s: State, i: nat)
    requires Sized(s) && s.seen <= i < |s.ulog|
  {
    s.ulog[i] in s.reqs && s.reqs[s.ulog[i]].stage == Posted && s.usedRing[i % NUM] == s.ulog[i]
  }

  ghost predicate Chains(s: State) {
    && Sized(s) && (forall i :: i in s.own ==> i < NUM)
    && (forall h: nat {:trigger Chain(s, h)} :: h in s.reqs ==> Chain(s, h))
    && (forall i: nat {:trigger Owned(s, i)} :: i < NUM ==> Owned(s, i))
  }

  ghost predicate Requests(s: State) {
    && Sized(s) && s.devTaken <= s.reqs.Keys && s.devDone <= s.reqs.Keys && (s.lock.Some? ==> s.lock.value in s.reqs)
    && (forall h: nat {:trigger Tracked(s, h)} :: h in s.reqs ==> Tracked(s, h))
    && (forall b: nat {:trigger Counted(s, b)} :: b < |s.bufs| ==> Counted(s, b))
  }

  /** The 16-bit indices agree with the true counts. */
  predicate AvailIndices(s: State) {
    && Sized(s) && s.taken <= |s.alog| && s.availIdx == |s.alog| % U16 && s.devIdx == s.taken % U16
    && (s.lock.Some? ==> s.availRing[|s.alog| % NUM] == s.lock.value)
  }

  predicate UsedIndices(s: State) {
    && Sized(s) && s.seen <= |s.ulog| && s.usedIdx == |s.ulog| % U16 && s.seenIdx == s.seen % U16
  }

  ghost predicate Avail(s: State) {
    && AvailIndices(s)
    && (forall i: nat {:trigger AvailAt(s, i)} :: s.taken <= i < |s.alog| ==> AvailAt(s, i))
    && (forall i, j :: s.taken <= i < j < |s.alog| ==> s.alog[i] != s.alog[j])
  }

  ghost predicate Used(s: State) {
    && UsedIndices(s)
    && (forall i: nat {:trigger UsedAt(s, i)} :: s.seen <= i < |s.ulog| ==> UsedAt(s, i))
    && (forall i, j :: s.seen <= i < j < |s.ulog| ==> s.ulog[i] != s.ulog[j])
  }

  ghost predicate Inv(s: State) {
    Chains(s) && Requests(s) && Avail(s) && Used(s)
  }

  // ---- at most two chains

  predicate Triple(own: map<nat, nat>, t: set<nat>, h: nat) {
    |t| == 3 && forall i :: i in t ==> i < NUM && i in own && own[i] == h
  }

  lemma ChainTriple(s: State, h: nat)
    requires Chains(s) && h in s.reqs
    ensures Triple(s.own, {h, s.reqs[h].i1, s.reqs[h].i2}, h)
  {
    assert Chain(s, h);
    var q := s.reqs[h];
    assert {h, q.i1, q.i2} == {h} + {q.i1} + {q.i2};
  }

  /** Three chains would need nine descriptors. */
  lemma NoThreeTriples(own: map<nat, nat>, x: set<nat>, a: nat, y: set<nat>, b: nat, z: set<nat>, c: nat)
    requires Triple(own, x, a) && Triple(own, y, b) && Triple(own, z, c) && a != b && a != c
    ensures b == c
  {
    if b != c {
      ThreeSets(x, y, z);
      var all: set<nat> := {0, 1, 2, 3, 4, 5, 6, 7};
      Fewer(x + y + z, all);
    }
  }

  lemma ThreeSets(x: set<nat>, y: set<nat>, z: set<nat>)
    requires |x| == |y| == |z| == 3 && x !! y && x !! z && y !! z
    ensures |x + y + z| == 9
  {
    assert |x + y| == 6 && (x + y) !! z;
  }

  lemma NoThree(s: State, a: nat, b: nat, c: nat)
    requires Chains(s) && a in s.reqs && b in s.reqs && c in s.reqs && a != b && a != c
    ensures b == c
  {
    ChainTriple(s, a);
    ChainTriple(s, b);
    ChainTriple(s, c);
    var p, q, r := s.reqs[a], s.reqs[b], s.reqs[c];
    NoThreeTriples(s.own, {a, p.i1, p.i2}, a, {b, q.i1, q.i2}, b, {c, r.i1, r.i2}, c);
  }

  lemma AvailFew(s: State)
    requires Chains(s) && Avail(s)
    ensures |s.alog| - s.taken <= 2
  {
    if |s.alog| - s.taken > 2 {
      var t := s.taken;
      assert AvailAt(s, t) && AvailAt(s, t + 1) && AvailAt(s, t + 2);
      NoThree(s, s.alog[t], s.alog[t + 1], s.alog[t + 2]);
    }
  }

  lemma UsedFew(s: State)
    requires Chains(s) && Used(s)
    ensures |s.ulog| - s.seen <= 2
  {
    if |s.ulog| - s.seen > 2 {
      var t := s.seen;
      assert UsedAt(s, t) && UsedAt(s, t + 1) && UsedAt(s, t + 2);
      NoThree(s, s.ulog[t], s.ulog[t + 1], s.ulog[t + 2]);
    }
  }

  // ---- every step is safe and keeps the invariant

  lemma Remainder(a: nat, k: nat, r: nat)
    requires a == NUM * k + r && r < NUM
    ensures a % NUM == r
  {
  }

  lemma SlotOf(c: nat)
    ensures c % U16 % NUM == c % NUM
  {
    var q, r := c / U16, c % U16;
    Remainder(c, 8192 * q + r / NUM, r % NUM);
  }

  lemma ChainFollowed(s: State, h: nat)
    requires Sized(s) && h in s.reqs && Chain(s, h) && Tracked(s, h)
    requires Owned(s, h) && Owned(s, s.reqs[h].i1) && Owned(s, s.reqs[h].i2)
    ensures Followed(s, h)
  {
  }

  /** In a state the invariant admits, no step panics or follows a stray pointer. */
  lemma SafeAlways(s: State, a: Action)
    requires Inv(s) && Guard(s, a)
    ensures Safe(s, a)
  {
    match a {
      case Intr =>
        SlotOf(s.seen);
        assert UsedAt(s, s.seen);
        assert Tracked(s, s.ulog[s.seen]);
      case Finish(b) =>
        assert Counted(s, b);
        var h := s.heads[b].value;
        assert Chain(s, h) && Tracked(s, h);
        assert Owned(s, h) && Owned(s, s.reqs[h].i1) && Owned(s, s.reqs[h].i2);
        ChainFollowed(s, h);
      case DevTake =>
        SlotOf(s.taken);
        assert AvailAt(s, s.taken);
      case DevPerform(h) =>
        assert Chain(s, h) && Tracked(s, h);
        assert Owned(s, h) && Owned(s, s.reqs[h].i1) && Owned(s, s.reqs[h].i2);
        ChainFollowed(s, h);
      case _ =>
    }
  }

  /** Only stages changed, not chains. */
  predicate SameChains(s: State, s': State) {
    && Sized(s) && Sized(s') && s'.desc == s.desc && s'.ops == s.ops && s'.own == s.own && s'.free == s.free
    && s'.media.Keys == s.media.Keys && s'.reqs.Keys == s.reqs.Keys
    && forall h :: h in s.reqs ==> s'.reqs[h] == Next(s.reqs[h], s'.reqs[h].stage)
  }

  lemma ChainsKept(s: State, s': State)
    requires Chains(s) && SameChains(s, s')
    ensures Chains(s')
  {
    forall h: nat | h in s'.reqs
      ensures Chain(s', h)
    {
      assert Chain(s, h);
    }
    forall i: nat | i < NUM
      ensures Owned(s', i)
    {
      assert Owned(s, i);
    }
  }

  /** The avail ring is not touched and its entries stay published. */
  lemma AvailKept(s: State, s': State)
    requires Avail(s) && Sized(s') && s'.alog == s.alog && s'.taken == s.taken && s'.availIdx == s.availIdx && s'.devIdx == s.devIdx
    requires s'.availRing == s.availRing && (s'.lock.Some? ==> s'.lock == s.lock)
    requires forall h :: h in s.reqs && s.reqs[h].stage == Published ==> h in s'.reqs && s'.reqs[h].stage == Published
    ensures Avail(s')
  {
    forall i: nat | s'.taken <= i < |s'.alog|
      ensures AvailAt(s', i)
    {
      assert AvailAt(s, i);
    }
  }

  /** The used ring is not touched and its entries stay posted. */
  lemma UsedKept(s: State, s': State)
    requires Used(s) && Sized(s') && s'.ulog == s.ulog && s'.seen == s.seen && s'.usedIdx == s.usedIdx && s'.seenIdx == s.seenIdx
    requires s'.usedRing == s.usedRing
    requires forall h :: h in s.reqs && s.reqs[h].stage == Posted ==> h in s'.reqs && s'.reqs[h].stage == Posted
    ensures Used(s')
  {
    forall i: nat | s'.seen <= i < |s'.ulog|
      ensures UsedAt(s', i)
    {
      assert UsedAt(s, i);
    }
  }

  lemma NextIndex(c: nat)
    ensures (c % U16 + 1) % U16 == (c + 1) % U16
  {
  }

  // Publish

  lemma PublishRequests(s: State)
    requires Requests(s) && s.lock.Some?
    ensures Requests(ApplyPublish(s))
  {
    var s', h := ApplyPublish(s), s.lock.value;
    assert Tracked(s, h);
    forall g: nat | g in s'.reqs
      ensures Tracked(s', g)
    {
      assert Tracked(s, g);
    }
    forall b: nat | b < |s'.bufs|
      ensures Counted(s', b)
    {
      assert Counted(s, b);
    }
  }

  lemma PublishAvail(s: State)
    requires Avail(s) && s.lock.Some? && s.lock.value in s.reqs && s.reqs[s.lock.value].stage == Prepared
    ensures Avail(ApplyPublish(s))
  {
    var s', h := ApplyPublish(s), s.lock.value;
    NextIndex(|s.alog|);
    forall i: nat | s'.taken <= i < |s'.alog|
      ensures AvailAt(s', i) && (i < |s.alog| ==> s.alog[i] != h)
    {
      if i < |s.alog| {
        assert AvailAt(s, i);
      }
    }
  }

  lemma PublishKeeps(s: State)
    requires Inv(s) && Guard(s, Publish)
    ensures Inv(ApplyPublish(s))
  {
    var s' := ApplyPublish(s);
    assert Tracked(s, s.lock.value);
    hide Chains, Requests, Avail, Used;
    PublishRequests(s);
    ChainsKept(s, s');
    PublishAvail(s);
    UsedKept(s, s');
  }

  // DevTake

  lemma TakeRequests(s: State, h: nat)
    requires Requests(s) && Guard(s, DevTake) && Safe(s, DevTake) && h == s.availRing[s.devIdx % NUM] && s.reqs[h].stage == Published
    ensures Requests(ApplyTake(s))
  {
    var s' := ApplyTake(s);
    assert Tracked(s, h);
    forall g: nat | g in s'.reqs
      ensures Tracked(s', g)
    {
      assert Tracked(s, g);
    }
    forall b: nat | b < |s'.bufs|
      ensures Counted(s', b)
    {
      assert Counted(s, b);
    }
  }

  lemma TakeAvail(s: State)
    requires Avail(s) && Guard(s, DevTake) && Safe(s, DevTake) && s.taken < |s.alog| && s.alog[s.taken] == s.availRing[s.devIdx % NUM]
    ensures Avail(ApplyTake(s))
  {
    var s' := ApplyTake(s);
    NextIndex(s.taken);
    forall i: nat | s'.taken <= i < |s'.alog|
      ensures AvailAt(s', i)
    {
      assert AvailAt(s, i);
    }
  }

  lemma TakeKeeps(s: State)
    requires Inv(s) && Guard(s, DevTake)
    ensures Safe(s, DevTake) && Inv(ApplyTake(s))
  {
    SafeAlways(s, DevTake);
    var s' := ApplyTake(s);
    SlotOf(s.taken);
    assert AvailAt(s, s.taken);
    hide Chains, Requests, Avail, Used;
    TakeRequests(s, s.alog[s.taken]);
    ChainsKept(s, s');
    TakeAvail(s);
    UsedKept(s, s');
  }

  // DevPerform

  lemma PerformRequests(s: State, h: nat)
    requires Requests(s) && Guard(s, DevPerform(h)) && Safe(s, DevPerform(h)) && Chain(s, h)
    ensures Requests(ApplyPerform(s, h))
  {
    var s' := ApplyPerform(s, h);
    assert Tracked(s, h);
    forall g: nat | g in s'.reqs
      ensures Tracked(s', g)
    {
      assert Tracked(s, g);
    }
    forall b: nat | b < |s'.bufs|
      ensures Counted(s', b)
    {
      assert Counted(s, b);
    }
  }

  lemma PerformKeeps(s: State, h: nat)
    requires Inv(s) && Guard(s, DevPerform(h))
    ensures Safe(s, DevPerform(h)) && Inv(ApplyPerform(s, h))
  {
    SafeAlways(s, DevPerform(h));
    var s' := ApplyPerform(s, h);
    assert Tracked(s, h) && Chain(s, h);
    hide Chains, Requests, Avail, Used;
    PerformRequests(s, h);
    ChainsKept(s, s');
    AvailKept(s, s');
    UsedKept(s, s');
  }

  // DevPost

  lemma PostRequests(s: State, h: nat)
    requires Requests(s) && Guard(s, DevPost(h)) && Safe(s, DevPost(h))
    ensures Requests(ApplyPost(s, h))
  {
    var s' := ApplyPost(s, h);
    assert Tracked(s, h);
    forall g: nat | g in s'.reqs
      ensures Tracked(s', g)
    {
      assert Tracked(s, g);
    }
    forall b: nat | b < |s'.bufs|
      ensures Counted(s', b)
    {
      assert Counted(s, b);
    }
  }

  lemma OtherSlot(i: nat, n: nat)
    requires n - 8 < i < n
    ensures i % NUM != n % NUM
  {
  }

  lemma PostUsed(s: State, h: nat)
    requires Used(s) && Guard(s, DevPost(h)) && Safe(s, DevPost(h)) && s.reqs[h].stage == Performed && |s.ulog| - s.seen <= 2
    ensures Used(ApplyPost(s, h))
  {
    var s' := ApplyPost(s, h);
    NextIndex(|s.ulog|);
    SlotOf(|s.ulog|);
    forall i: nat | s'.seen <= i < |s'.ulog|
      ensures UsedAt(s', i) && (i < |s.ulog| ==> s.ulog[i] != h)
    {
      if i < |s.ulog| {
        assert UsedAt(s, i);
        OtherSlot(i, |s.ulog|);
      }
    }
  }

  lemma PostKeeps(s: State, h: nat)
    requires Inv(s) && Guard(s, DevPost(h))
    ensures Safe(s, DevPost(h)) && Inv(ApplyPost(s, h))
  {
    SafeAlways(s, DevPost(h));
    var s' := ApplyPost(s, h);
    assert Tracked(s, h);
    UsedFew(s);
    hide Chains, Requests, Avail, Used;
    PostRequests(s, h);
    ChainsKept(s, s');
    AvailKept(s, s');
    PostUsed(s, h);
  }

  // Intr

  lemma IntrRequests(s: State, h: nat)
    requires Requests(s) && Guard(s, Intr) && Safe(s, Intr) && h == s.usedRing[s.seenIdx % NUM] && s.reqs[h].stage == Posted
    ensures Requests(ApplyIntr(s))
  {
    var s' := ApplyIntr(s);
    assert Tracked(s, h);
    assert Counted(s, s.reqs[h].b);
    forall g: nat | g in s'.reqs
      ensures Tracked(s', g)
    {
      assert Tracked(s, g);
    }
    forall b: nat | b < |s'.bufs|
      ensures Counted(s', b)
    {
      assert Counted(s, b);
    }
  }

  lemma IntrUsed(s: State)
    requires Used(s) && Guard(s, Intr) && Safe(s, Intr) && s.seen < |s.ulog| && s.ulog[s.seen] == s.usedRing[s.seenIdx % NUM]
    ensures Used(ApplyIntr(s))
  {
    var s' := ApplyIntr(s);
    NextIndex(s.seen);
    forall i: nat | s'.seen <= i < |s'.ulog|
      ensures UsedAt(s', i)
    {
      assert UsedAt(s, i);
    }
  }

  lemma IntrKeeps(s: State)
    requires Inv(s) && Guard(s, Intr)
    ensures Safe(s, Intr) && Inv(ApplyIntr(s))
  {
    SafeAlways(s, Intr);
    var s' := ApplyIntr(s);
    SlotOf(s.seen);
    assert UsedAt(s, s.seen);
    hide Chains, Requests, Avail, Used;
    IntrRequests(s, s.ulog[s.seen]);
    ChainsKept(s, s');
    AvailKept(s, s');
    IntrUsed(s);
  }

  // Touch

  lemma TouchKeeps(s: State, b: nat, data: Data)
    requires Inv(s) && Guard(s, Touch(b, data))
    ensures Inv(Apply(s, Touch(b, data)))
  {
    var s' := Apply(s, Touch(b, data));
    forall g: nat | g in s'.reqs
      ensures Tracked(s', g)
    {
      assert Tracked(s, g);
    }
    forall c: nat | c < |s'.bufs|
      ensures Counted(s', c)
    {
      assert Counted(s, c);
    }
    assert Requests(s');
    hide Chains, Requests, Avail, Used;
    ChainsKept(s, s');
    AvailKept(s, s');
    UsedKept(s, s');
  }

  // Prepare

  /** A free descriptor is in no chain. */
  lemma FreeOutside(s: State, i: nat, g: nat)
    requires Chains(s) && i < NUM && s.free[i] && g in s.reqs
    ensures i !in s.own && i != g && i != s.reqs[g].i1 && i != s.reqs[g].i2
  {
    assert Owned(s, i) && Chain(s, g);
  }

  lemma PrepareChain(s: State, b: nat, write: bool, h: nat, i1: nat, i2: nat, g: nat)
    requires Chains(s) && Guard(s, Prepare(b, write, h, i1, i2)) && g in s.reqs + map[h := Req(b, Op(write, 0), i1, i2, Prepared)]
    ensures Chain(ApplyPrepare(s, b, write, h, i1, i2), g)
  {
    if g != h {
      FreeOutside(s, h, g);
      FreeOutside(s, i1, g);
      FreeOutside(s, i2, g);
      assert Chain(s, g);
    }
    hide Chains;
  }

  lemma PrepareChains(s: State, b: nat, write: bool, h: nat, i1: nat, i2: nat)
    requires Chains(s) && Guard(s, Prepare(b, write, h, i1, i2))
    ensures h !in s.reqs && Chains(ApplyPrepare(s, b, write, h, i1, i2))
  {
    var s' := ApplyPrepare(s, b, write, h, i1, i2);
    assert h in s.reqs ==> Chain(s, h);
    assert Owned(s, h);
    hide Chain;
    forall g: nat | g in s'.reqs
      ensures Chain(s', g)
    {
      PrepareChain(s, b, write, h, i1, i2, g);
    }
    forall i: nat | i < NUM
      ensures Owned(s', i)
    {
      assert Owned(s, i);
    }
  }

  lemma PrepareRequests(s: State, b: nat, write: bool, h: nat, i1: nat, i2: nat)
    requires Requests(s) && Guard(s, Prepare(b, write, h, i1, i2)) && h !in s.reqs
    ensures Requests(ApplyPrepare(s, b, write, h, i1, i2))
  {
    var s' := ApplyPrepare(s, b, write, h, i1, i2);
    assert Counted(s, b);
    forall g: nat | g in s'.reqs
      ensures Tracked(s', g)
    {
      if g != h {
        assert Tracked(s, g);
      }
    }
    forall c: nat | c < |s'.bufs|
      ensures Counted(s', c)
    {
      assert Counted(s, c);
    }
  }

  lemma PrepareAvail(s: State, b: nat, write: bool, h: nat, i1: nat, i2: nat)
    requires Avail(s) && Guard(s, Prepare(b, write, h, i1, i2)) && h !in s.reqs && |s.alog| - s.taken <= 2
    ensures Avail(ApplyPrepare(s, b, write, h, i1, i2))
  {
    var s' := ApplyPrepare(s, b, write, h, i1, i2);
    SlotOf(|s.alog|);
    forall i: nat | s'.taken <= i < |s'.alog|
      ensures AvailAt(s', i)
    {
      assert AvailAt(s, i);
      OtherSlot(i, |s.alog|);
    }
  }

  lemma PrepareKeeps(s: State, b: nat, write: bool, h: nat, i1: nat, i2: nat)
    requires Inv(s) && Guard(s, Prepare(b, write, h, i1, i2))
    ensures Inv(ApplyPrepare(s, b, write, h, i1, i2))
  {
    AvailFew(s);
    hide Chains, Requests, Avail, Used;
    PrepareChains(s, b, write, h, i1, i2);
    PrepareRequests(s, b, write, h, i1, i2);
    PrepareAvail(s, b, write, h, i1, i2);
    UsedKept(s, ApplyPrepare(s, b, write, h, i1, i2));
  }

  // Finish

  lemma FinishChains(s: State, b: nat)
    requires Chains(s) && Guard(s, Finish(b)) && Safe(s, Finish(b))
    ensures Chains(ApplyFinish(s, b))
  {
    var s', h := ApplyFinish(s, b), s.heads[b].value;
    assert Chain(s, h);
    forall g: nat | g in s'.reqs
      ensures Chain(s', g)
    {
      assert Chain(s, g);
    }
    forall i: nat | i < NUM
      ensures Owned(s', i)
    {
      assert Owned(s, i);
    }
  }

  lemma FinishRequests(s: State, b: nat)
    requires Requests(s) && Guard(s, Finish(b)) && Safe(s, Finish(b))
    ensures Requests(ApplyFinish(s, b))
  {
    var s', h := ApplyFinish(s, b), s.heads[b].value;
    assert Counted(s, b) && Tracked(s, h);
    forall g: nat | g in s'.reqs
      ensures Tracked(s', g)
    {
      assert Tracked(s, g);
    }
    forall c: nat | c < |s'.bufs|
      ensures Counted(s', c)
    {
      assert Counted(s, c);
    }
  }

  lemma FinishKeeps(s: State, b: nat)
    requires Inv(s) && Guard(s, Finish(b))
    ensures Safe(s, Finish(b)) && Inv(ApplyFinish(s, b))
  {
    SafeAlways(s, Finish(b));
    assert Counted(s, b);
    assert Tracked(s, s.heads[b].value);
    hide Chains, Requests, Avail, Used;
    FinishChains(s, b);
    FinishRequests(s, b);
    AvailKept(s, ApplyFinish(s, b));
    UsedKept(s, ApplyFinish(s, b));
  }

  /** Every step that can be taken is safe and keeps the invariant. */
  lemma StepKeeps(s: State, a: Action)
    requires Inv(s) && Guard(s, a)
    ensures Safe(s, a) && Inv(Apply(s, a))
  {
    SafeAlways(s, a);
    hide Inv, ApplyPrepare, ApplyPublish, ApplyIntr, ApplyFinish, ApplyTake, ApplyPerform, ApplyPost;
    match a {
      case Prepare(b, write, h, i1, i2) => PrepareKeeps(s, b, write, h, i1, i2);
      case Publish => PublishKeeps(s);
      case Intr => IntrKeeps(s);
      case Finish(b) => FinishKeeps(s, b);
      case DevTake => TakeKeeps(s);
      case DevPerform(h) => PerformKeeps(s, h);
      case DevPost(h) => PostKeeps(s, h);
      case Touch(b, data) => TouchKeeps(s, b, data);
    }
  }

  // ---- runs

  /** After virtio_disk_init: all descriptors free, nothing in flight. */
  ghost predicate Init(s: State) {
    && Sized(s) && (forall i :: 0 <= i < NUM ==> s.free[i]) && s.own == map[] && s.reqs == map[]
    && s.lock == None && s.devTaken == {} && s.devDone == {}
    && s.alog == [] && s.ulog == [] && s.taken == s.seen == s.availIdx == s.devIdx == s.usedIdx == s.seenIdx == 0
    && forall b :: 0 <= b < |s.bufs| ==> s.heads[b] == None && s.subs[b] == [] && s.effs[b] == [] && s.dones[b] == 0
  }

  /** A run takes only steps whose guard holds, and knows nothing of what an
      unsafe step would do. */
  ghost predicate IsRun(trace: seq<State>, acts: seq<Action>) {
    && |trace| == |acts| + 1 && Init(trace[0])
    && forall t :: 0 <= t < |acts| ==> Guard(trace[t], acts[t]) && (Safe(trace[t], acts[t]) ==> trace[t + 1] == Apply(trace[t], acts[t]))
  }

  lemma InitInv(s: State)
    requires Init(s)
    ensures Inv(s)
  {
    forall i: nat | i < NUM
      ensures Owned(s, i)
    {
    }
    forall b: nat | b < |s.bufs|
      ensures Counted(s, b)
    {
      assert s.heads[b] == None;
    }
  }

  lemma {:induction false} RunInv(trace: seq<State>, acts: seq<Action>, t: nat)
    requires IsRun(trace, acts) && t < |trace|
    ensures Inv(trace[t])
  {
    if t == 0 {
      InitInv(trace[0]);
    } else {
      RunInv(trace, acts, t - 1);
      hide Inv, Guard, Safe, Apply;
      StepKeeps(trace[t - 1], acts[t - 1]);
    }
  }

  /** No step of any run panics, finds a null buffer or a bad status, or
      follows a chain that is not three descriptors in use. */
  lemma RunSafe(trace: seq<State>, acts: seq<Action>, t: nat)
    requires IsRun(trace, acts) && t < |acts|
    ensures Safe(trace[t], acts[t])
  {
    RunInv(trace, acts, t);
    hide Inv, Safe;
    SafeAlways(trace[t], acts[t]);
  }

  /** When nobody is at work on a buffer, every request ever made on it took
      effect exactly once, in order and as made, and completed exactly once. */
  lemma ExactlyOnce(trace: seq<State>, acts: seq<Action>, t: nat, b: nat)
    requires IsRun(trace, acts) && t < |trace| && b < |trace[t].bufs|
    ensures var s := trace[t];
            && Sized(s) && s.effs[b] <= s.subs[b] && |s.subs[b]| <= |s.effs[b]| + 1
            && (s.heads[b].None? ==> s.effs[b] == s.subs[b] && s.dones[b] == |s.subs[b]|)
            && (s.heads[b].Some? && !s.bufs[b].busy ==> s.effs[b] == s.subs[b] && s.dones[b] == |s.subs[b]|)
  {
    RunInv(trace, acts, t);
    var s := trace[t];
    assert Counted(s, b);
    if s.heads[b].Some? {
      assert Tracked(s, s.heads[b].value);
    }
  }

  /** At most two requests are in flight in either ring, so no ring slot is
      reused before it is consumed: each entry still stands in its slot. */
  lemma NoOverrun(trace: seq<State>, acts: seq<Action>, t: nat)
    requires IsRun(trace, acts) && t < |trace|
    ensures var s := trace[t];
            && Sized(s) && s.taken <= |s.alog| <= s.taken + 2 && s.seen <= |s.ulog| <= s.seen + 2
            && (forall i :: s.taken <= i < |s.alog| ==> s.availRing[i % NUM] == s.alog[i])
            && (forall i :: s.seen <= i < |s.ulog| ==> s.usedRing[i % NUM] == s.ulog[i])
            && (s.devIdx == s.availIdx <==> s.taken == |s.alog|) && (s.seenIdx == s.usedIdx <==> s.seen == |s.ulog|)
  {
    RunInv(trace, acts, t);
    var s := trace[t];
    AvailFew(s);
    UsedFew(s);
    hide Chains, Requests;
    forall i | s.taken <= i < |s.alog|
      ensures s.availRing[i % NUM] == s.alog[i]
    {
      assert AvailAt(s, i);
    }
    forall i | s.seen <= i < |s.ulog|
      ensures s.usedRing[i % NUM] == s.ulog[i]
    {
      assert UsedAt(s, i);
    }
  }

  /** The device, going by the descriptors alone, moves exactly the request's
      own block to or from exactly the request's own buffer. */
  lemma OwnBuffer(trace: seq<State>, acts: seq<Action>, t: nat, h: nat)
    requires IsRun(trace, acts) && t < |acts| && acts[t] == DevPerform(h)
    ensures var s, s' := trace[t], trace[t + 1];
            && h in s.reqs && Sized(s)
            && var q := s.reqs[h];
               && q.b < |s.bufs| && s.heads[q.b] == Some(h) && q.op.sector == 2 * s.bufs[q.b].block && q.op.sector in s.media
               && s'.media == (if q.op.write then s.media[2 * s.bufs[q.b].block := s.bufs[q.b].data] else s.media)
               && s'.bufs == (if q.op.write then s.bufs else s.bufs[q.b := s.bufs[q.b].(data := s.media[2 * s.bufs[q.b].block])])
  {
    RunInv(trace, acts, t);
    var s := trace[t];
    SafeAlways(s, DevPerform(h));
    assert Chain(s, h) && Tracked(s, h);
    hide Inv;
  }

  // ---- counting descriptors

  ghost function FreeDescs(s: State): set<nat>
    requires Sized(s)
  {
    set i: nat | i < NUM && s.free[i]
  }

  ghost function OwnedBy(own: map<nat, nat>, hs: set<nat>): set<nat> {
    set i | i in own && own[i] in hs
  }

  lemma OneMore(own: map<nat, nat>, hs: set<nat>, h: nat, chain: set<nat>)
    requires h !in hs && Triple(own, chain, h) && forall i :: i in own && own[i] == h ==> i in chain
    ensures |OwnedBy(own, hs + {h})| == |OwnedBy(own, hs)| + 3
  {
    assert OwnedBy(own, hs + {h}) == OwnedBy(own, hs) + chain;
    assert OwnedBy(own, hs) !! chain;
  }

  lemma {:induction false} OwnCount(s: State, hs: set<nat>)
    requires Chains(s) && hs <= s.reqs.Keys
    ensures |OwnedBy(s.own, hs)| == 3 * |hs|
    decreases |hs|
  {
    if hs == {} {
      assert OwnedBy(s.own, hs) == {};
    } else {
      var h :| h in hs;
      OwnCount(s, hs - {h});
      ChainTriple(s, h);
      var chain := {h, s.reqs[h].i1, s.reqs[h].i2};
      forall i | i in s.own && s.own[i] == h
        ensures i in chain
      {
        assert Owned(s, i);
      }
      hide Chains, OwnedBy;
      OneMore(s.own, hs - {h}, h, chain);
      assert hs - {h} + {h} == hs;
    }
  }

  lemma Complement(free: set<nat>, used: set<nat>)
    requires forall i: nat :: i in free || i in used <==> i < NUM
    requires free !! used
    ensures |free| + |used| == NUM
  {
    var all: set<nat> := {0, 1, 2, 3, 4, 5, 6, 7};
    assert free + used == all;
    assert |all| == 8;
  }

  lemma Conserved(s: State)
    requires Inv(s)
    ensures Sized(s) && |FreeDescs(s)| + 3 * |s.reqs| == NUM
  {
    OwnCount(s, s.reqs.Keys);
    forall i: nat
      ensures i < NUM ==> (i in OwnedBy(s.own, s.reqs.Keys) <==> !s.free[i])
      ensures i in OwnedBy(s.own, s.reqs.Keys) ==> i < NUM
    {
      if i < NUM {
        assert Owned(s, i);
      }
    }
    hide Inv, Chains, OwnedBy;
    Complement(FreeDescs(s), OwnedBy(s.own, s.reqs.Keys));
    assert |s.reqs| == |s.reqs.Keys|;
  }

  /** Free descriptors plus three for every request in flight are always 8. */
  lemma DescriptorsConserved(trace: seq<State>, acts: seq<Action>, t: nat)
    requires IsRun(trace, acts) && t < |trace|
    ensures Sized(trace[t]) && |FreeDescs(trace[t])| + 3 * |trace[t].reqs| == NUM
  {
    RunInv(trace, acts, t);
    hide Inv;
    Conserved(trace[t]);
  }
}
