/**
  How many blocks a call needs and how many are left: a read or write of a file
  fails for want of a block exactly when the blocks missing under its range are
  more than the free ones.
 */
module FsNeeds {
  import opened Common
  import opened FsLayout
  import opened FsBlocks
  import opened FsEffects

  ghost function FreeSet(sb: Super, fs: Fs): set<nat>
    requires WellSized(sb, fs.disk)
  {
    set b | 0 <= b < sb.size && b !in UsedSet(sb, fs.disk)
  }

  lemma FullFree(sb: Super, fs: Fs)
    requires WellSized(sb, fs.disk)
    ensures Full(sb, fs) <==> FreeSet(sb, fs) == {}
  {
    hide UsedSet;
    if FreeSet(sb, fs) == {} {
      forall c | 0 <= c < sb.size
        ensures c in UsedSet(sb, fs.disk)
      {
        assert c !in FreeSet(sb, fs);
      }
    }
  }

  /** Slot `k` is used on the way to some file block lo..hi-1. */
  predicate Uses(lo: nat, hi: nat, k: nat) {
    if k < NDIRECT then lo <= k < hi
    else if k == NDIRECT then lo < hi && NDIRECT < hi
    else lo <= k - 1 < hi
  }

  /** The slots to be filled before the file blocks lo..hi-1 of file `i` all exist. */
  ghost function Needs(sb: Super, fs: Fs, i: nat, lo: nat, hi: nat): set<nat>
    requires Shape(sb, fs) && i < |fs.inodes|
  {
    set k: nat | k < NSLOT && Uses(lo, hi, k) && Ptr(sb, fs, i, k) == 0
  }

  /** There are free blocks enough for them. */
  ghost predicate Fits(sb: Super, fs: Fs, i: nat, lo: nat, hi: nat)
    requires Shape(sb, fs) && i < |fs.inodes|
  {
    |Needs(sb, fs, i, lo, hi)| <= |FreeSet(sb, fs)|
  }

  // ---- taking blocks

  /** The empty slots `ks` of file `i` got a block each, and no other slot did. */
  ghost predicate Took(sb: Super, a: Fs, b: Fs, i: nat, ks: set<nat>) {
    && Shape(sb, a) && Shape(sb, b) && i < |a.inodes| == |b.inodes|
    && (forall k :: k in ks ==> k < NSLOT && Ptr(sb, a, i, k) == 0)
    && (forall j: nat, l: nat :: ValidPlace(a, j, l) ==>
          (Ptr(sb, b, j, l) == 0 <==> Ptr(sb, a, j, l) == 0 && !(j == i && l in ks)))
    && |FreeSet(sb, b)| + |ks| == |FreeSet(sb, a)|
  }

  lemma TookNone(sb: Super, fs: Fs, i: nat)
    requires Shape(sb, fs) && i < |fs.inodes|
    ensures Took(sb, fs, fs, i, {})
  {
    hide Ptr, UsedSet;
  }

  lemma TookOne(sb: Super, fs: Fs, owner: map<nat, Place>, i: nat, k: nat, b: nat)
    requires CanTake(sb, fs, owner, i, k, b) && b != 0
    ensures Took(sb, fs, Placed(sb, fs, i, k, b), i, {k})
  {
    hide Ptr, UsedSet, Placed, SameBytes, Zeroes;
    PlacedOwned(sb, fs, owner, i, k, b);
    PlacedDisk(sb, fs, owner, i, k, b);
    hide Owned;
    var fs' := Placed(sb, fs, i, k, b);
    assert FreeSet(sb, fs) == FreeSet(sb, fs') + {b} && b !in FreeSet(sb, fs');
  }

  lemma TookJoin(sb: Super, a: Fs, b: Fs, c: Fs, i: nat, ks: set<nat>, ls: set<nat>)
    requires Took(sb, a, b, i, ks) && Took(sb, b, c, i, ls)
    ensures Took(sb, a, c, i, ks + ls) && ks !! ls
  {
    hide Ptr, FreeSet;
    forall k | k in ks
      ensures k !in ls
    {
      assert ValidPlace(a, i, k);
    }
    forall k | k in ls
      ensures k < NSLOT && Ptr(sb, a, i, k) == 0
    {
      assert ValidPlace(a, i, k);
    }
  }

  /** Writing into a block, or changing a size, takes none. */
  lemma TookSame(sb: Super, a: Fs, b: Fs, c: Fs, i: nat, ks: set<nat>)
    requires Took(sb, a, b, i, ks) && Shape(sb, c) && SamePtrs(sb, b, c) && UsedSet(sb, c.disk) == UsedSet(sb, b.disk)
    ensures Took(sb, a, c, i, ks)
  {
    hide Ptr, UsedSet;
    assert FreeSet(sb, c) == FreeSet(sb, b);
    forall j: nat, l: nat | ValidPlace(a, j, l)
      ensures Ptr(sb, c, j, l) == Ptr(sb, b, j, l)
    {
      assert ValidPlace(b, j, l);
    }
  }

  /** No slot of another file was filled or emptied. */
  ghost predicate SameSlots(sb: Super, a: Fs, b: Fs, i: nat) {
    && Shape(sb, a) && Shape(sb, b) && |a.inodes| == |b.inodes|
    && forall j: nat, l: nat :: ValidPlace(a, j, l) && j != i ==> Ptr(sb, b, j, l) == Ptr(sb, a, j, l)
  }

  lemma SameSlotsSelf(sb: Super, fs: Fs, i: nat)
    requires Shape(sb, fs)
    ensures SameSlots(sb, fs, fs, i)
  {
  }

  lemma SameSlotsJoin(sb: Super, a: Fs, b: Fs, c: Fs, i: nat)
    requires SameSlots(sb, a, b, i) && SameSlots(sb, b, c, i)
    ensures SameSlots(sb, a, c, i)
  {
    hide Ptr;
    forall j: nat, l: nat | ValidPlace(a, j, l) && j != i
      ensures Ptr(sb, c, j, l) == Ptr(sb, a, j, l)
    {
      assert ValidPlace(b, j, l);
    }
  }

  lemma SameSlotsSame(sb: Super, a: Fs, b: Fs, c: Fs, i: nat)
    requires SameSlots(sb, a, b, i) && Shape(sb, c) && SamePtrs(sb, b, c)
    ensures SameSlots(sb, a, c, i)
  {
    hide Ptr;
    forall j: nat, l: nat | ValidPlace(a, j, l) && j != i
      ensures Ptr(sb, c, j, l) == Ptr(sb, a, j, l)
    {
      assert ValidPlace(b, j, l);
    }
  }

  // ---- the blocks under a range

  /** The blocks lo..hi-1 of file `i` exist now, and no slot was filled that they do not use. */
  ghost predicate Drawn(sb: Super, a: Fs, b: Fs, i: nat, lo: nat, hi: nat) {
    Shape(sb, a) && i < |a.inodes| && Took(sb, a, b, i, Needs(sb, a, i, lo, hi))
  }

  lemma DrawnNone(sb: Super, fs: Fs, i: nat, lo: nat)
    requires Shape(sb, fs) && i < |fs.inodes|
    ensures Drawn(sb, fs, fs, i, lo, lo)
  {
    hide Ptr, Took;
    assert Needs(sb, fs, i, lo, lo) == {};
    TookNone(sb, fs, i);
  }

  /** What is missing under one file block. */
  lemma NeedsOne(sb: Super, fs: Fs, i: nat, bn: nat)
    requires Shape(sb, fs) && i < |fs.inodes| && bn < MAXFILE
    ensures Needs(sb, fs, i, bn, bn + 1) ==
            (if bn >= NDIRECT && Ptr(sb, fs, i, NDIRECT) == 0 then {NDIRECT} else {}) +
            (if BlockOf(sb, fs, i, bn) == 0 then {SlotOf(bn)} else {})
  {
    hide Ptr;
  }

  /** With the indirect block there, the word for `bn` is as empty as it was; and if no
      block is left, there were too few for both. */
  lemma IndirectTook(sb: Super, a: Fs, b: Fs, i: nat, bn: nat)
    requires Shape(sb, a) && i < |a.inodes| && NDIRECT <= bn < MAXFILE
    requires Took(sb, a, b, i, if a.inodes[i].addrs[NDIRECT] == 0 then {NDIRECT} else {})
    ensures BlockOf(sb, b, i, bn) == 0 <==> BlockOf(sb, a, i, bn) == 0
    ensures FreeSet(sb, b) == {} && BlockOf(sb, a, i, bn) == 0 ==> !Fits(sb, a, i, bn, bn + 1)
  {
    NeedsOne(sb, a, i, bn);
    assert Ptr(sb, a, i, NDIRECT) == a.inodes[i].addrs[NDIRECT];
    hide Ptr, FreeSet, Needs;
    assert ValidPlace(a, i, SlotOf(bn));
  }

  lemma WordTook(sb: Super, a: Fs, b: Fs, c: Fs, i: nat, bn: nat)
    requires Shape(sb, a) && Shape(sb, b) && i < |a.inodes| == |b.inodes| && NDIRECT <= bn < MAXFILE
    requires Took(sb, a, b, i, if a.inodes[i].addrs[NDIRECT] == 0 then {NDIRECT} else {})
    requires Took(sb, b, c, i, if BlockOf(sb, b, i, bn) == 0 then {SlotOf(bn)} else {})
    ensures Drawn(sb, a, c, i, bn, bn + 1)
  {
    IndirectTook(sb, a, b, i, bn);
    NeedsOne(sb, a, i, bn);
    assert Ptr(sb, a, i, NDIRECT) == a.inodes[i].addrs[NDIRECT];
    hide Took, Needs, Ptr;
    TookJoin(sb, a, b, c, i, if a.inodes[i].addrs[NDIRECT] == 0 then {NDIRECT} else {},
             if BlockOf(sb, b, i, bn) == 0 then {SlotOf(bn)} else {});
  }

  lemma NeedsDirect(sb: Super, fs: Fs, i: nat, bn: nat)
    requires Shape(sb, fs) && i < |fs.inodes| && bn < NDIRECT
    ensures Needs(sb, fs, i, bn, bn + 1) == if fs.inodes[i].addrs[bn] == 0 then {bn} else {}
  {
    NeedsOne(sb, fs, i, bn);
  }

  /** What is missing under lo..h is what was drawn under lo..m and what is now missing under l..h. */
  lemma NeedsOn(sb: Super, a: Fs, b: Fs, i: nat, lo: nat, m: nat, l: nat, h: nat)
    requires Drawn(sb, a, b, i, lo, m) && lo <= l <= m <= h
    ensures Needs(sb, a, i, lo, h) == Needs(sb, a, i, lo, m) + Needs(sb, b, i, l, h)
    ensures Needs(sb, a, i, lo, m) !! Needs(sb, b, i, l, h)
    ensures Fits(sb, b, i, l, h) <==> Fits(sb, a, i, lo, h)
  {
    var xs, ys := Needs(sb, a, i, lo, m), Needs(sb, b, i, l, h);
    assert Needs(sb, a, i, lo, h) == xs + ys && xs !! ys by {
      hide Ptr, FreeSet, Uses;
      forall k: nat | k < NSLOT
        ensures Ptr(sb, b, i, k) == 0 <==> Ptr(sb, a, i, k) == 0 && !Uses(lo, m, k)
        ensures Uses(lo, h, k) <==> Uses(lo, m, k) || Uses(l, h, k)
      {
        assert ValidPlace(a, i, k);
        UsesOn(lo, m, l, h, k);
      }
    }
    hide Ptr, FreeSet, Needs;
    assert |xs + ys| == |xs| + |ys|;
  }

  lemma UsesOn(lo: nat, m: nat, l: nat, h: nat, k: nat)
    requires lo <= l <= m <= h
    ensures Uses(lo, h, k) <==> Uses(lo, m, k) || Uses(l, h, k)
  {
  }

  lemma DrawnOn(sb: Super, a: Fs, b: Fs, c: Fs, i: nat, lo: nat, m: nat, l: nat, h: nat)
    requires Drawn(sb, a, b, i, lo, m) && lo <= l <= m <= h && Drawn(sb, b, c, i, l, h)
    ensures Drawn(sb, a, c, i, lo, h)
  {
    NeedsOn(sb, a, b, i, lo, m, l, h);
    hide Needs, Took, Ptr;
    TookJoin(sb, a, b, c, i, Needs(sb, a, i, lo, m), Needs(sb, b, i, l, h));
  }

  lemma DrawnFits(sb: Super, a: Fs, b: Fs, i: nat, lo: nat, hi: nat)
    requires Drawn(sb, a, b, i, lo, hi)
    ensures Fits(sb, a, i, lo, hi)
  {
    hide Needs, FreeSet, Ptr;
  }

  /** What is drawn is there. */
  lemma DrawnNeeds(sb: Super, a: Fs, b: Fs, i: nat, lo: nat, hi: nat, l: nat, h: nat)
    requires Drawn(sb, a, b, i, lo, hi) && lo <= l <= h <= hi
    ensures Shape(sb, b) && i < |b.inodes| && Needs(sb, b, i, l, h) == {} && Fits(sb, b, i, l, h)
  {
    hide Ptr, FreeSet;
    forall k: nat | k < NSLOT && Uses(l, h, k)
      ensures Ptr(sb, b, i, k) != 0
    {
      assert ValidPlace(a, i, k) && Uses(lo, hi, k);
    }
  }

  /** Looking again at what is drawn draws nothing. */
  lemma DrawnOver(sb: Super, a: Fs, b: Fs, c: Fs, i: nat, lo: nat, hi: nat, l: nat, h: nat)
    requires Drawn(sb, a, b, i, lo, hi) && lo <= l <= h <= hi && Drawn(sb, b, c, i, l, h)
    ensures Drawn(sb, a, c, i, lo, hi)
  {
    hide Ptr, FreeSet;
    DrawnNeeds(sb, a, b, i, lo, hi, l, h);
    TookJoin(sb, a, b, c, i, Needs(sb, a, i, lo, hi), {});
    assert Needs(sb, a, i, lo, hi) + {} == Needs(sb, a, i, lo, hi);
  }

  /** Blocks enough for blocks 0..h-1 of file `d` and blocks 0..e-1 of another file `i`. */
  ghost predicate Affords(sb: Super, fs: Fs, d: nat, h: nat, i: nat, e: nat)
    requires Shape(sb, fs) && d < |fs.inodes| && i < |fs.inodes|
  {
    |Needs(sb, fs, d, 0, h)| + |Needs(sb, fs, i, 0, e)| <= |FreeSet(sb, fs)|
  }

  lemma OtherNeeds(sb: Super, a: Fs, b: Fs, d: nat, h: nat, i: nat, e: nat)
    requires Drawn(sb, a, b, d, 0, h) && i < |a.inodes| && i != d
    ensures Shape(sb, b) && i < |b.inodes| && Needs(sb, b, i, 0, e) == Needs(sb, a, i, 0, e)
    ensures Fits(sb, b, i, 0, e) <==> Affords(sb, a, d, h, i, e)
  {
    hide Ptr, FreeSet;
    forall k: nat | k < NSLOT
      ensures Ptr(sb, b, i, k) == 0 <==> Ptr(sb, a, i, k) == 0
    {
      assert ValidPlace(a, i, k);
    }
  }

  lemma AffordsLess(sb: Super, fs: Fs, d: nat, h: nat, hi: nat, i: nat, e: nat)
    requires Shape(sb, fs) && d < |fs.inodes| && i < |fs.inodes| && h <= hi && Affords(sb, fs, d, hi, i, e)
    ensures Affords(sb, fs, d, h, i, e) && Fits(sb, fs, d, 0, h)
  {
    hide Ptr, FreeSet;
    assert Needs(sb, fs, d, 0, h) <= Needs(sb, fs, d, 0, hi);
    Fewer(Needs(sb, fs, d, 0, h), Needs(sb, fs, d, 0, hi));
  }

  /** Blocks of `d`, then of `i`, then more of `d`: all can be had exactly when they can together. */
  lemma ThenMore(sb: Super, a: Fs, b: Fs, c: Fs, d: nat, h: nat, i: nat, e: nat, hi: nat)
    requires Drawn(sb, a, b, d, 0, h) && i < |a.inodes| && i != d && Drawn(sb, b, c, i, 0, e) && h <= hi
    ensures Shape(sb, a) && Shape(sb, c) && d < |c.inodes| && d < |a.inodes|
    ensures Fits(sb, c, d, 0, hi) <==> Affords(sb, a, d, hi, i, e)
  {
    OtherNeeds(sb, a, b, d, h, i, e);
    NeedsOn(sb, a, b, d, 0, h, 0, hi);
    OtherNeeds(sb, b, c, i, e, d, hi);
    hide Needs, FreeSet, Ptr, Fits;
    var xs, ys := Needs(sb, a, d, 0, h), Needs(sb, b, d, 0, hi);
    assert |xs + ys| == |xs| + |ys|;
  }

  lemma FitsLess(sb: Super, fs: Fs, i: nat, lo: nat, m: nat, hi: nat)
    requires Shape(sb, fs) && i < |fs.inodes| && lo <= m <= hi && Fits(sb, fs, i, lo, hi)
    ensures Fits(sb, fs, i, lo, m)
  {
    hide Ptr, FreeSet;
    assert Needs(sb, fs, i, lo, m) <= Needs(sb, fs, i, lo, hi);
    Fewer(Needs(sb, fs, i, lo, m), Needs(sb, fs, i, lo, hi));
  }

  /** A file block of its own needs a block exactly when it is missing. */
  lemma FitsMissing(sb: Super, fs: Fs, i: nat, lo: nat, hi: nat, bn: nat)
    requires Shape(sb, fs) && i < |fs.inodes| && lo <= bn < hi && bn < MAXFILE && BlockOf(sb, fs, i, bn) == 0 && Full(sb, fs)
    ensures !Fits(sb, fs, i, lo, hi)
  {
    FullFree(sb, fs);
    hide Ptr, FreeSet;
    assert SlotOf(bn) in Needs(sb, fs, i, lo, hi);
  }

  /** A transfer at `off` that got `tot` bytes along is at its start, or at the start of a block. */
  predicate Aligned(off: nat, tot: nat) {
    tot == 0 || (off + tot) % BSIZE == 0
  }

  /** The file block just past the range of `n` bytes at `off`. */
  function BlocksEnd(off: nat, n: nat): nat {
    if n == 0 then off / BSIZE else (off + n - 1) / BSIZE + 1
  }

  /** How far into `n` bytes a copy goes that faults at byte `room`: up to the fault, which
      needs the block it lies in. */
  function Reach(n: nat, room: nat): nat {
    if room < n then room + 1 else n
  }

  /** The blocks that a transfer of `n` bytes at `off`, faulting at byte `room`, goes through, can all be had. */
  ghost predicate Supplied(sb: Super, fs: Fs, i: nat, off: nat, n: nat, room: nat)
    requires Shape(sb, fs) && i < |fs.inodes|
  {
    Fits(sb, fs, i, off / BSIZE, BlocksEnd(off, Reach(n, room)))
  }

  /** The first block from `m` on that cannot be had along with those from `lo` to it. */
  ghost function FirstLack(sb: Super, fs: Fs, i: nat, lo: nat, m: nat): (r: nat)
    requires Shape(sb, fs) && i < |fs.inodes| && m <= MAXFILE
    ensures m <= r <= MAXFILE
    decreases MAXFILE - m
  {
    if m == MAXFILE || !Fits(sb, fs, i, lo, m + 1) then m else FirstLack(sb, fs, i, lo, m + 1)
  }

  /** How many bytes of a transfer at `off` come before that block. */
  ghost function StopAt(sb: Super, fs: Fs, i: nat, off: nat): nat
    requires Shape(sb, fs) && i < |fs.inodes| && off < MAXFILE * BSIZE
  {
    var bn := FirstLack(sb, fs, i, off / BSIZE, off / BSIZE);
    if bn == off / BSIZE then 0 else bn * BSIZE - off
  }

  /** A transfer at `off` stops after `r` bytes, at the first block that cannot be had. */
  ghost predicate Stops(sb: Super, fs: Fs, i: nat, off: nat, r: nat)
    requires Shape(sb, fs) && i < |fs.inodes|
  {
    && Aligned(off, r) && (off + r) / BSIZE < MAXFILE
    && Fits(sb, fs, i, off / BSIZE, (off + r) / BSIZE)
    && !Fits(sb, fs, i, off / BSIZE, (off + r) / BSIZE + 1)
  }

  /** The part of bytes tot..n of a transfer at `off` that lies in one block. */
  function ChunkLen(off: nat, tot: nat, n: nat): (m: nat)
    requires tot < n
    ensures 0 < m <= n - tot
  {
    if n - tot < BSIZE - (off + tot) % BSIZE then n - tot else BSIZE - (off + tot) % BSIZE
  }

  lemma ChunkStep(off: nat, tot: nat, n: nat, m: nat)
    requires Aligned(off, tot) && tot < n
    ensures BlocksEnd(off, tot) == (off + tot) / BSIZE
    ensures m == ChunkLen(off, tot, n) ==>
              && (tot + m == n || Aligned(off, tot + m))
              && BlocksEnd(off, tot + m) == (off + tot) / BSIZE + 1
  {
  }

  lemma SameChunk(off: nat, tot: nat, n: nat)
    requires tot < n
    ensures ChunkLen(off + tot, 0, n - tot) == ChunkLen(off, tot, n) && (off + tot) % BSIZE + ChunkLen(off, tot, n) <= BSIZE
  {
  }

  lemma Untouched(off: nat)
    ensures BlocksEnd(off, 0) == off / BSIZE && Aligned(off, 0)
  {
  }

  lemma InChunk(off: nat, tot: nat, m: nat, n: nat, x: nat)
    requires tot < n && m == ChunkLen(off, tot, n) && tot < x <= tot + m
    ensures BlocksEnd(off, x) == (off + tot) / BSIZE + 1
  {
  }

  lemma Slices(c: seq<byte>, a: nat, b: nat, d: nat)
    requires a <= b <= d <= |c|
    ensures c[a..b] + c[b..d] == c[a..d]
  {
  }

  /** A copy that faults in the chunk at byte `tot` counts just those before it. */
  lemma FaultCounts(off: nat, tot: nat, n: nat, avail: nat)
    requires Aligned(off, tot) && tot <= avail < n && avail < tot + ChunkLen(off, tot, n)
    ensures Whole(off, n, avail) == tot
    ensures BlocksEnd(off, Reach(n, avail)) == (off + tot) / BSIZE + 1
  {
  }

  lemma WholeAll(off: nat, n: nat)
    ensures Whole(off, n, n) == n
  {
  }

  /** The next block cannot be had: the transfer stops short of `n` and of any fault. */
  lemma TransferStops(sb: Super, a: Fs, b: Fs, i: nat, off: nat, tot: nat, n: nat, room: nat)
    requires Drawn(sb, a, b, i, off / BSIZE, (off + tot) / BSIZE) && Aligned(off, tot)
    requires Shape(sb, a) && i < |a.inodes| && Shape(sb, b) && i < |b.inodes|
    requires tot < n && tot <= room && off + tot < MAXFILE * BSIZE
    requires !Fits(sb, b, i, (off + tot) / BSIZE, (off + tot) / BSIZE + 1)
    ensures !Supplied(sb, a, i, off, n, room) && Stops(sb, a, i, off, tot)
  {
    hide Fits, Drawn;
    var lo, m := off / BSIZE, (off + tot) / BSIZE;
    DrawnFits(sb, a, b, i, lo, m);
    NeedsOn(sb, a, b, i, lo, m, m, m + 1);
    if Supplied(sb, a, i, off, n, room) {
      FitsLess(sb, a, i, lo, m + 1, BlocksEnd(off, Reach(n, room)));
    }
  }

  /** One turn of a transfer: with `b` the state before the chunk at byte `tot` and `c` after
      it, the next block cannot be had, or it is drawn. */
  lemma TransferTurn(sb: Super, a: Fs, b: Fs, c: Fs, i: nat, off: nat, tot: nat, n: nat, room: nat)
    requires Shape(sb, a) && i < |a.inodes| && Shape(sb, b) && i < |b.inodes|
    requires Aligned(off, tot) && tot < n && tot <= room && off + n <= MAXFILE * BSIZE
    requires Drawn(sb, a, b, i, off / BSIZE, BlocksEnd(off, tot))
    requires Fits(sb, b, i, (off + tot) / BSIZE, (off + tot) / BSIZE + 1) ==>
               Drawn(sb, b, c, i, (off + tot) / BSIZE, (off + tot) / BSIZE + 1)
    ensures !Fits(sb, b, i, (off + tot) / BSIZE, (off + tot) / BSIZE + 1) ==>
              !Supplied(sb, a, i, off, n, room) && Stops(sb, a, i, off, tot)
    ensures var m := ChunkLen(off, tot, n);
            Fits(sb, b, i, (off + tot) / BSIZE, (off + tot) / BSIZE + 1) ==>
              && Drawn(sb, a, c, i, off / BSIZE, BlocksEnd(off, tot + m))
              && (tot + m == n || Aligned(off, tot + m))
              && (room < tot + m ==> Supplied(sb, a, i, off, n, room) && BlocksEnd(off, Reach(n, room)) == BlocksEnd(off, tot + m))
  {
    hide Fits, Drawn, BlocksEnd, Aligned;
    var m, lo, bn := ChunkLen(off, tot, n), off / BSIZE, (off + tot) / BSIZE;
    ChunkStep(off, tot, n, m);
    if Fits(sb, b, i, bn, bn + 1) {
      DrawnOn(sb, a, b, c, i, lo, bn, bn, bn + 1);
      DrawnFits(sb, a, c, i, lo, bn + 1);
      if room < tot + m { InChunk(off, tot, m, n, room + 1); }
    } else {
      TransferStops(sb, a, b, i, off, tot, n, room);
    }
  }

  lemma SizeBounds(sb: Super, fs: Fs, i: nat)
    requires Shape(sb, fs) && i < |fs.inodes|
    ensures fs.inodes[i].size <= MAXFILE * BSIZE
  {
    assert InodeShape(sb, fs.inodes[i]);
  }

  lemma {:induction false} LackIs(sb: Super, fs: Fs, i: nat, lo: nat, m: nat, bn: nat)
    requires Shape(sb, fs) && i < |fs.inodes| && lo <= m <= bn < MAXFILE && Fits(sb, fs, i, lo, bn) && !Fits(sb, fs, i, lo, bn + 1)
    ensures FirstLack(sb, fs, i, lo, m) == bn
    decreases bn - m
  {
    hide Fits;
    if m < bn {
      FitsLess(sb, fs, i, lo, m + 1, bn);
      LackIs(sb, fs, i, lo, m + 1, bn);
    }
  }

  /** Only one count is where a transfer can stop. */
  lemma StopsAt(sb: Super, fs: Fs, i: nat, off: nat, r: nat)
    requires Shape(sb, fs) && i < |fs.inodes| && Stops(sb, fs, i, off, r)
    ensures off < MAXFILE * BSIZE && StopAt(sb, fs, i, off) == r
  {
    hide Fits;
    LackIs(sb, fs, i, off / BSIZE, off / BSIZE, (off + r) / BSIZE);
  }

  /** Where nothing is missing, nothing is lacking. */
  lemma NoNeed(sb: Super, fs: Fs, i: nat, lo: nat, hi: nat)
    requires Shape(sb, fs) && i < |fs.inodes| && Needs(sb, fs, i, lo, hi) == {}
    ensures Fits(sb, fs, i, lo, hi)
  {
  }

  /** A range without holes is always supplied. */
  lemma HoleFreeFits(sb: Super, fs: Fs, i: nat, lo: nat, hi: nat)
    requires Shape(sb, fs) && i < |fs.inodes| && HoleFree(sb, fs, i) && (hi == 0 || (hi - 1) * BSIZE < fs.inodes[i].size)
    ensures Needs(sb, fs, i, lo, hi) == {} && Fits(sb, fs, i, lo, hi)
  {
    hide Word, UsedSet;
    assert InodeShape(sb, fs.inodes[i]);
    forall k: nat | k < NSLOT && Uses(lo, hi, k)
      ensures Ptr(sb, fs, i, k) != 0
    {
      if k == NDIRECT {
        assert BlockOf(sb, fs, i, hi - 1) != 0;
      } else {
        var bn := if k < NDIRECT then k else k - 1;
        assert SlotOf(bn) == k && BlockOf(sb, fs, i, bn) != 0;
      }
    }
  }

  /** What a read needs of a file without holes can be had. */
  lemma RangeFits(sb: Super, fs: Fs, i: nat, off: nat, n: nat, room: nat)
    requires Shape(sb, fs) && i < |fs.inodes| && HoleFree(sb, fs, i)
    ensures Supplied(sb, fs, i, off, Readable(fs.inodes[i].size, off, n), room)
  {
    hide Fits, HoleFree;
    var reach := Reach(Readable(fs.inodes[i].size, off, n), room);
    if reach == 0 {
      DrawnNone(sb, fs, i, off / BSIZE);
      DrawnFits(sb, fs, fs, i, off / BSIZE, off / BSIZE);
    } else {
      HoleFreeFits(sb, fs, i, off / BSIZE, BlocksEnd(off, reach));
    }
  }
}
