/**
  mkfs: the initial disk image. Blocks are handed out by a counter while the
  free map is still empty, and the map is written last. `plan` is the image as
  it will be once the map is written; building keeps the plan owned.
 */
module Mkfs {
  import opened Common
  import opened FsLayout
  import opened FsBlocks
  import opened FsEffects
  import opened DirFormat

  const FSSIZE: nat := 2000
  const NINODES: nat := 200
  const BMAPSTART: nat := 45     // 2 + 30 log blocks + 13 inode blocks
  const NMETA: nat := 46
  const ROOTINO: nat := 1

  const SUPER: Super := Super(FSSIZE, BMAPSTART, NMETA)

  /** The bitmap block says: exactly the first `used` blocks are taken. */
  predicate MarksFirst(b: Block, used: nat) {
    forall c :: 0 <= c < BPB ==> (Bit(b[c / 8], c % 8) <==> c < used)
  }

  lemma MarkNext(b: Block, used: nat)
    requires used < BPB && MarksFirst(b, used)
    ensures MarksFirst(b[used / 8 := SetBit(b[used / 8], used % 8)], used + 1)
  {
    hide Bit, SetBit;
    var b' := b[used / 8 := SetBit(b[used / 8], used % 8)];
    forall c | 0 <= c < BPB
      ensures Bit(b'[c / 8], c % 8) <==> c < used + 1
    {
      SetBitAt(b[used / 8], used % 8, c % 8);
    }
  }

  lemma Marks(used: nat) returns (b: Block)
    requires used <= BPB
    ensures MarksFirst(b, used)
  {
    hide Bit, SetBit, MarksFirst;
    if used == 0 {
      b := Zeroes();
      ZeroMarks();
    } else {
      var a := Marks(used - 1);
      MarkNext(a, used - 1);
      b := a[(used - 1) / 8 := SetBit(a[(used - 1) / 8], (used - 1) % 8)];
    }
  }

  lemma ZeroMarks()
    ensures MarksFirst(Zeroes(), 0)
  {
  }

  /** Equal bits make equal bytes, so a map has one encoding. */
  lemma ByteBits(x: byte, y: byte)
    requires forall k :: 0 <= k < 8 ==> Bit(x, k) == Bit(y, k)
    ensures x == y
  {
    assert Bit(x, 0) == Bit(y, 0) && Bit(x, 1) == Bit(y, 1) && Bit(x, 2) == Bit(y, 2) && Bit(x, 3) == Bit(y, 3);
    assert Bit(x, 4) == Bit(y, 4) && Bit(x, 5) == Bit(y, 5) && Bit(x, 6) == Bit(y, 6) && Bit(x, 7) == Bit(y, 7);
  }

  lemma MarksUnique(a: Block, b: Block, used: nat)
    requires MarksFirst(a, used) && MarksFirst(b, used)
    ensures a == b
  {
    hide Bit;
    forall x | 0 <= x < BSIZE
      ensures a[x] == b[x]
    {
      forall k | 0 <= k < 8
        ensures Bit(a[x], k) == Bit(b[x], k)
      {
        assert (8 * x + k) / 8 == x && (8 * x + k) % 8 == k;
        assert Bit(a[(8 * x + k) / 8], (8 * x + k) % 8) <==> 8 * x + k < used;
      }
      ByteBits(a[x], b[x]);
    }
  }

  lemma MarksSet(disk: seq<Block>, used: nat)
    requires WellSized(SUPER, disk) && MarksFirst(disk[BMAPSTART], used)
    ensures forall c :: 0 <= c < FSSIZE ==> (c in UsedSet(SUPER, disk) <==> c < used)
  {
    hide Bit;
  }

  /** Nothing is stored past the end of a file. */
  ghost predicate CleanTails(fs: Fs)
    requires Shape(SUPER, fs)
  {
    forall i: nat, x: nat :: i < |fs.inodes| && fs.inodes[i].size <= x < MAXFILE * BSIZE ==> ByteAt(SUPER, fs, i, x) == 0
  }

  /** No file has a block past its end. */
  ghost predicate NoSpare(fs: Fs)
    requires Shape(SUPER, fs)
  {
    forall i: nat, bn: nat :: i < |fs.inodes| && bn < MAXFILE && fs.inodes[i].size <= bn * BSIZE ==> BlockOf(SUPER, fs, i, bn) == 0
  }

  /** The block maps agree, but for file block `fbn` of inode `i`. */
  ghost predicate SameMap(a: Fs, b: Fs, i: nat, fbn: nat)
    requires Shape(SUPER, a) && Shape(SUPER, b) && |a.inodes| == |b.inodes|
  {
    forall j: nat, bn: nat :: j < |a.inodes| && bn < MAXFILE && (j != i || bn != fbn) ==>
      BlockOf(SUPER, b, j, bn) == BlockOf(SUPER, a, j, bn)
  }

  lemma SlotMap(a: Fs, b: Fs, i: nat, fbn: nat, k: nat, x: nat)
    requires Shape(SUPER, a) && Shape(SUPER, b) && i < |a.inodes| && fbn < MAXFILE && (k == NDIRECT || k == SlotOf(fbn))
    requires OnlySlot(SUPER, a, b, i, k, x)
    ensures SameMap(a, b, i, fbn)
  {
    hide Word, Ptr;
    forall j: nat, bn: nat | j < |a.inodes| && bn < MAXFILE && (j != i || bn != fbn)
      ensures BlockOf(SUPER, b, j, bn) == BlockOf(SUPER, a, j, bn)
    {
      assert ValidPlace(a, j, SlotOf(bn));
    }
  }

  /** A word of the indirect block was filled. */
  lemma SlotTaken(a: Fs, b: Fs, i: nat, j: nat, x: nat)
    requires Shape(SUPER, a) && Shape(SUPER, b) && i < |a.inodes| && j < NINDIRECT
    requires OnlySlot(SUPER, a, b, i, j + NDIRECT + 1, x)
    ensures SameMap(a, b, i, j + NDIRECT) && b.inodes[i].addrs[NDIRECT] == a.inodes[i].addrs[NDIRECT]
    ensures Ptr(SUPER, b, i, j + NDIRECT + 1) == x
  {
    hide Word, SameMap;
    SlotMap(a, b, i, j + NDIRECT, j + NDIRECT + 1, x);
    assert ValidPlace(a, i, NDIRECT) && ValidPlace(a, i, j + NDIRECT + 1);
  }

  lemma SameMapReflexive(fs: Fs, i: nat, fbn: nat)
    requires Shape(SUPER, fs)
    ensures SameMap(fs, fs, i, fbn)
  {
  }

  lemma SameMapJoin(a: Fs, b: Fs, c: Fs, i: nat, fbn: nat)
    requires Shape(SUPER, a) && Shape(SUPER, b) && Shape(SUPER, c) && |a.inodes| == |b.inodes| == |c.inodes|
    requires SameMap(a, b, i, fbn) && SameMap(b, c, i, fbn)
    ensures SameMap(a, c, i, fbn)
  {
    hide BlockOf;
  }

  /** What the plan promises while blocks below `free` have been handed out. */
  ghost predicate Planned(plan: Fs, owner: map<nat, Place>, free: nat) {
    && Owned(SUPER, plan, owner) && |plan.inodes| == NINODES
    && NMETA <= free <= FSSIZE
    && MarksFirst(plan.disk[BMAPSTART], free)
    && CleanTails(plan) && Solid(SUPER, plan)
    && forall c :: free <= c < FSSIZE ==> plan.disk[c] == Zeroes()
  }

  /** The next block of the counter can go to any empty slot. */
  lemma PlanTakes(plan: Fs, owner: map<nat, Place>, free: nat, i: nat, k: nat)
    requires Planned(plan, owner, free) && free < FSSIZE && ValidPlace(plan, i, k)
    requires Ptr(SUPER, plan, i, k) == 0 && (k > NDIRECT ==> plan.inodes[i].addrs[NDIRECT] != 0)
    ensures var plan' := Placed(SUPER, plan, i, k, free);
            && Planned(plan', owner[free := (i, k)], free + 1)
            && OnlySlot(SUPER, plan, plan', i, k, free)
            && SameBytes(SUPER, plan, plan')
            && MarkUsed(SUPER, plan.disk, free)[free := Zeroes()] == plan.disk[BMAPSTART := plan'.disk[BMAPSTART]]
  {
    hide Word, Used, Bit, SetBit, ByteAt, PutWord;
    var plan' := Placed(SUPER, plan, i, k, free);
    MarksSet(plan.disk, free);
    MarkNext(plan.disk[BMAPSTART], free);
    PlacedOwned(SUPER, plan, owner, i, k, free);
    if k > NDIRECT {
      var a := Ptr(SUPER, plan, i, NDIRECT);
      assert a in owner && a < free;
    }
    forall j: nat, bn: nat | j < NINODES && bn < MAXFILE && BlockOf(SUPER, plan, j, bn) != 0
      ensures BlockOf(SUPER, plan', j, bn) != 0
    {
      assert ValidPlace(plan, j, SlotOf(bn));
    }
    forall j: nat | j < NINODES
      ensures HoleFree(SUPER, plan', j)
    {
      assert HoleFree(SUPER, plan, j);
    }
  }

  /** `d` put into the last block of file `i`, which grows by |d|. */
  function Appended(plan: Fs, i: nat, d: seq<byte>): Fs
    requires Shape(SUPER, plan) && i < |plan.inodes|
    requires plan.inodes[i].size % BSIZE + |d| <= BSIZE && plan.inodes[i].size < MAXFILE * BSIZE
  {
    var ip := plan.inodes[i];
    var b := BlockOf(SUPER, plan, i, ip.size / BSIZE);
    if b >= FSSIZE then plan else
    Fs(plan.disk[b := Patch(plan.disk[b], ip.size % BSIZE, d)], plan.inodes[i := Inode(ip.size + |d|, ip.addrs)])
  }

  lemma PlanAppends(plan: Fs, owner: map<nat, Place>, free: nat, i: nat, d: seq<byte>)
    requires Planned(plan, owner, free) && i < NINODES
    requires 0 < |d| && plan.inodes[i].size % BSIZE + |d| <= BSIZE && plan.inodes[i].size < MAXFILE * BSIZE
    requires BlockOf(SUPER, plan, i, plan.inodes[i].size / BSIZE) != 0
    ensures var plan' := Appended(plan, i, d);
            && Planned(plan', owner, free)
            && NMETA <= BlockOf(SUPER, plan, i, plan.inodes[i].size / BSIZE) < FSSIZE
            && Content(SUPER, plan', i) == Content(SUPER, plan, i) + d
            && forall j: nat :: j < NINODES && j != i ==> Content(SUPER, plan', j) == Content(SUPER, plan, j)
  {
    hide Word, Used, Bit, MarksFirst;
    var off := plan.inodes[i].size;
    var b := BlockOf(SUPER, plan, i, off / BSIZE);
    assert b in owner;
    MarksSet(plan.disk, free);
    var mid := Fs(plan.disk[b := Patch(plan.disk[b], off % BSIZE, d)], plan.inodes);
    PatchBytes(SUPER, plan, owner, i, off, d);
    var plan' := Appended(plan, i, d);
    Resized(SUPER, mid, plan', owner, i);
    AppendSeen(plan, mid, plan', i, d);
  }

  lemma AppendSeen(plan: Fs, mid: Fs, plan': Fs, i: nat, d: seq<byte>)
    requires Shape(SUPER, plan) && Shape(SUPER, mid) && Shape(SUPER, plan') && i < |plan.inodes| == |mid.inodes| == |plan'.inodes|
    requires 0 < |d| && plan.inodes[i].size % BSIZE + |d| <= BSIZE && plan.inodes[i].size < MAXFILE * BSIZE
    requires BlockOf(SUPER, plan, i, plan.inodes[i].size / BSIZE) != 0
    requires SamePtrs(SUPER, plan, mid) && WroteBytes(SUPER, plan, mid, i, plan.inodes[i].size, d)
    requires SamePtrs(SUPER, mid, plan') && plan'.disk == mid.disk && plan.inodes == mid.inodes
    requires plan'.inodes == plan.inodes[i := Inode(plan.inodes[i].size + |d|, plan.inodes[i].addrs)]
    requires CleanTails(plan) && Solid(SUPER, plan)
    ensures CleanTails(plan') && Solid(SUPER, plan')
    ensures Content(SUPER, plan', i) == Content(SUPER, plan, i) + d
    ensures forall j: nat :: j < |plan.inodes| && j != i ==> Content(SUPER, plan', j) == Content(SUPER, plan, j)
  {
    hide Word, Used, Ptr;
    forall j: nat, x: nat | j < |plan.inodes| && x < MAXFILE * BSIZE
      ensures ByteAt(SUPER, plan', j, x) == ByteAt(SUPER, mid, j, x)
    {
      assert ValidPlace(mid, j, SlotOf(x / BSIZE));
    }
    forall j: nat, bn: nat | j < |plan.inodes| && bn < MAXFILE && bn * BSIZE < plan'.inodes[j].size
      ensures BlockOf(SUPER, plan', j, bn) != 0
    {
      assert ValidPlace(plan, j, SlotOf(bn)) && HoleFree(SUPER, plan, j);
      assert BlockOf(SUPER, plan, j, bn) != 0;
    }
  }

  /** The free map block with the first `used` bits set. */
  method BitmapBlock(used: nat) returns (buf: Block)
    requires used < BPB
    ensures MarksFirst(buf, used)
  {
    hide Bit, SetBit, MarksFirst;
    buf := Zeroes();
    ZeroMarks();
    for i := 0 to used
      invariant MarksFirst(buf, i)
    {
      MarkNext(buf, i);
      buf := buf[i / 8 := SetBit(buf[i / 8], i % 8)];
    }
  }

  lemma EmptyPlan(plan: Fs)
    requires |plan.disk| == FSSIZE && plan.inodes == seq(NINODES, _ => Blank())
    requires MarksFirst(plan.disk[BMAPSTART], NMETA)
    requires forall c :: NMETA <= c < FSSIZE ==> plan.disk[c] == Zeroes()
    ensures Planned(plan, map[], NMETA) && NoSpare(plan)
    ensures forall i: nat :: i < NINODES ==> Content(SUPER, plan, i) == []
  {
    hide Word, Bit;
    MarksSet(plan.disk, NMETA);
  }

  lemma InData(fs: Fs, owner: map<nat, Place>, i: nat, k: nat)
    requires Owned(SUPER, fs, owner) && ValidPlace(fs, i, k)
    ensures Ptr(SUPER, fs, i, k) != 0 ==> NMETA <= Ptr(SUPER, fs, i, k) < FSSIZE
  {
    hide Word, Used;
  }

  lemma SameBytesReflexive(fs: Fs)
    requires Shape(SUPER, fs)
    ensures SameBytes(SUPER, fs, fs)
  {
  }

  lemma SameBytesJoin(a: Fs, b: Fs, c: Fs)
    requires Shape(SUPER, a) && Shape(SUPER, b) && Shape(SUPER, c) && |a.inodes| == |b.inodes| == |c.inodes|
    requires SameBytes(SUPER, a, b) && SameBytes(SUPER, b, c)
    ensures SameBytes(SUPER, a, c)
  {
    hide ByteAt;
  }

  lemma PlannedShape(plan: Fs, owner: map<nat, Place>, free: nat)
    requires Planned(plan, owner, free)
    ensures Shape(SUPER, plan) && |plan.inodes| == NINODES && Owned(SUPER, plan, owner)
  {
  }

  lemma SameContent(a: Fs, b: Fs, i: nat)
    requires Shape(SUPER, a) && Shape(SUPER, b) && SameSizes(a.inodes, b.inodes) && SameBytes(SUPER, a, b) && i < |a.inodes|
    ensures Content(SUPER, b, i) == Content(SUPER, a, i)
  {
    hide ByteAt;
  }

  /** Rounding a size up shows the zeroes past the old end. */
  lemma Padded(plan: Fs, fs: Fs, owner: map<nat, Place>, free: nat, i: nat)
    requires Planned(plan, owner, free) && i < NINODES == |fs.inodes|
    requires fs.disk == plan.disk && plan.inodes[i].size <= fs.inodes[i].size <= MAXFILE * BSIZE
    requires fs.inodes == plan.inodes[i := Inode(fs.inodes[i].size, plan.inodes[i].addrs)]
    ensures Owned(SUPER, fs, owner)
    ensures Content(SUPER, fs, i)[..plan.inodes[i].size] == Content(SUPER, plan, i)
    ensures forall x :: plan.inodes[i].size <= x < fs.inodes[i].size ==> Content(SUPER, fs, i)[x] == 0
    ensures forall j: nat :: j < NINODES && j != i ==>
              Content(SUPER, fs, j) == Content(SUPER, plan, j) && HoleFree(SUPER, fs, j)
  {
    hide Word, Used, Ptr;
    Resized(SUPER, plan, fs, owner, i);
    forall j: nat, bn: nat | j < NINODES && bn < MAXFILE
      ensures BlockOf(SUPER, fs, j, bn) == BlockOf(SUPER, plan, j, bn)
    {
      assert ValidPlace(plan, j, SlotOf(bn));
    }
    forall j: nat | j < NINODES && j != i
      ensures HoleFree(SUPER, fs, j)
    {
      assert HoleFree(SUPER, plan, j);
    }
    forall x: nat | x < fs.inodes[i].size
      ensures Content(SUPER, fs, i)[x] == if x < plan.inodes[i].size then Content(SUPER, plan, i)[x] else 0
    {
      assert ByteAt(SUPER, fs, i, x) == ByteAt(SUPER, plan, i, x);
    }
  }

  lemma MapNoSpare(a: Fs, b: Fs, i: nat, fbn: nat)
    requires Shape(SUPER, a) && Shape(SUPER, b) && SameSizes(a.inodes, b.inodes) && i < |a.inodes| && fbn < MAXFILE
    requires NoSpare(a) && SameMap(a, b, i, fbn) && BlockOf(SUPER, b, i, fbn) == BlockOf(SUPER, a, i, fbn)
    ensures NoSpare(b)
  {
    hide BlockOf;
  }

  lemma AppendedNoSpare(a: Fs, b: Fs, owner: map<nat, Place>, free: nat, i: nat, d: seq<byte>)
    requires Shape(SUPER, a) && SameSizes(a.inodes, b.inodes) && i < |a.inodes| && NoSpare(a)
    requires Planned(b, owner, free) && SameMap(a, b, i, a.inodes[i].size / BSIZE)
    requires 0 < |d| && b.inodes[i].size % BSIZE + |d| <= BSIZE && b.inodes[i].size < MAXFILE * BSIZE
    requires BlockOf(SUPER, b, i, b.inodes[i].size / BSIZE) != 0
    ensures Shape(SUPER, Appended(b, i, d)) && NoSpare(Appended(b, i, d))
  {
    hide Word, Used, Ptr, Patch;
    var off := b.inodes[i].size;
    var x := BlockOf(SUPER, b, i, off / BSIZE);
    InData(b, owner, i, SlotOf(off / BSIZE));
    var mid := Fs(b.disk[x := Patch(b.disk[x], off % BSIZE, d)], b.inodes);
    assert owner[x] == (i, SlotOf(off / BSIZE));
    BlockWritePtrs(SUPER, b, owner, x, Patch(b.disk[x], off % BSIZE, d));
    var c := Appended(b, i, d);
    Resized(SUPER, mid, c, owner, i);
    forall j: nat, bn: nat | j < |a.inodes| && bn < MAXFILE && c.inodes[j].size <= bn * BSIZE
      ensures BlockOf(SUPER, c, j, bn) == 0
    {
      assert ValidPlace(b, j, SlotOf(bn));
      assert BlockOf(SUPER, a, j, bn) == 0;
    }
  }

  /** Only inode `i` differs. */
  ghost predicate OnlyInode(a: seq<Inode>, b: seq<Inode>, i: nat) {
    |a| == |b| && forall j: nat :: j < |a| && j != i ==> b[j] == a[j]
  }

  /** No inode from `n` on was ever written. */
  ghost predicate Unused(inodes: seq<Inode>, n: nat) {
    |inodes| == NINODES && forall i: nat :: n <= i < NINODES ==> inodes[i] == Blank()
  }

  class Image {
    var disk: seq<Block>
    var inodes: seq<Inode>
    var freeinode: nat
    var freeblock: nat
    ghost var plan: Fs
    ghost var owner: map<nat, Place>

    ghost predicate Valid()
      reads this
    {
      && |disk| == FSSIZE && plan.inodes == inodes
      && 1 <= freeinode <= NINODES
      && Planned(plan, owner, freeblock)
      && plan.disk == disk[BMAPSTART := plan.disk[BMAPSTART]]
    }

    /** Between appends no file has a spare block. */
    ghost predicate Tight()
      reads this
    {
      Valid() && NoSpare(plan)
    }

    ghost function ContentOf(i: nat): seq<byte>
      requires Valid() && i < NINODES
      reads this
    {
      Content(SUPER, plan, i)
    }

    /** Zeroed disk, no inodes, first free block after the metadata. */
    constructor ()
      ensures Tight() && freeinode == 1 && freeblock == NMETA && Unused(inodes, 1)
      ensures forall i: nat :: i < NINODES ==> ContentOf(i) == []
    {
      disk := seq(FSSIZE, _ => Zeroes());
      inodes := seq(NINODES, _ => Blank());
      freeinode, freeblock := 1, NMETA;
      owner := map[];
      new;
      ghost var marks := Marks(NMETA);
      plan := Fs(disk[BMAPSTART := marks], inodes);
      EmptyPlan(plan);
    }

    method Ialloc() returns (inum: nat)
      requires Tight() && freeinode < NINODES
      modifies this`freeinode
      ensures Tight() && inum == old(freeinode) && freeinode == inum + 1
      ensures forall i: nat :: i < NINODES ==> ContentOf(i) == old(ContentOf(i))
    {
      inum := freeinode;
      freeinode := freeinode + 1;
    }

    /** Gives the next free block to an empty slot; false when the disk has none left. */
    method Take(i: nat, k: nat) returns (ok: bool)
      requires Valid() && ValidPlace(plan, i, k) && Ptr(SUPER, plan, i, k) == 0
      requires k > NDIRECT ==> inodes[i].addrs[NDIRECT] != 0
      modifies this
      ensures Valid() && freeinode == old(freeinode)
      ensures SameSizes(old(inodes), inodes) && SameBytes(SUPER, old(plan), plan) && OnlyInode(old(inodes), inodes, i)
      ensures ok ==> old(freeblock) != 0 && OnlySlot(SUPER, old(plan), plan, i, k, old(freeblock))
      ensures !ok ==> plan == old(plan) && freeblock == FSSIZE
    {
      hide Word, Used, MarksFirst, SameBytes, OnlySlot, CleanTails, Solid, MarkUsed, PutWord;
      SameBytesReflexive(plan);
      if freeblock == FSSIZE { return false; }
      PlanTakes(plan, owner, freeblock, i, k);
      plan := Placed(SUPER, plan, i, k, freeblock);
      owner := owner[freeblock := (i, k)];
      if k <= NDIRECT {
        inodes := inodes[i := Inode(inodes[i].size, inodes[i].addrs[k := freeblock])];
      } else {
        var a := inodes[i].addrs[NDIRECT];
        disk := disk[a := PutWord(disk[a], k - NDIRECT - 1, freeblock)];
      }
      freeblock := freeblock + 1;
      ok := true;
    }

    /** The block for file block `fbn` of inode `i`, taken from the counter if absent. */
    method BlockFor(i: nat, fbn: nat) returns (ok: bool, x: nat)
      requires Valid() && i < NINODES && fbn < MAXFILE
      modifies this
      ensures Valid() && freeinode == old(freeinode) && SameSizes(old(inodes), inodes) && SameBytes(SUPER, old(plan), plan)
      ensures SameMap(old(plan), plan, i, fbn) && OnlyInode(old(inodes), inodes, i)
      ensures ok ==> x != 0 && x == BlockOf(SUPER, plan, i, fbn)
      ensures !ok ==> BlockOf(SUPER, plan, i, fbn) == BlockOf(SUPER, old(plan), i, fbn)
      ensures !ok ==> freeblock == FSSIZE
    {
      hide Word, Used, MarksFirst, CleanTails, Solid, ByteAt, SameBytes, UsedSet;
      ok, x := true, 0;
      SameBytesReflexive(plan);
      if fbn < NDIRECT {
        if inodes[i].addrs[fbn] == 0 {
          ok := Take(i, fbn);
          assert ValidPlace(plan, i, fbn);
          if ok { SlotMap(old(plan), plan, i, fbn, fbn, old(freeblock)); }
        }
        x := inodes[i].addrs[fbn];
      } else {
        if inodes[i].addrs[NDIRECT] == 0 {
          ok := Take(i, NDIRECT);
          assert ValidPlace(plan, i, NDIRECT) && ValidPlace(plan, i, fbn + 1);
          if ok { SlotMap(old(plan), plan, i, fbn, NDIRECT, old(freeblock)); }
        }
        ghost var mid := plan;
        if ok {
          ok, x := WordFor(i, fbn - NDIRECT);
          SameBytesJoin(old(plan), mid, plan);
          SameMapJoin(old(plan), mid, plan, i, fbn);
        }
      }
    }

    /** The same through an indirect block that exists. */
    method WordFor(i: nat, j: nat) returns (ok: bool, x: nat)
      requires Valid() && i < NINODES && j < NINDIRECT && inodes[i].addrs[NDIRECT] != 0
      modifies this
      ensures Valid() && freeinode == old(freeinode) && SameSizes(old(inodes), inodes) && SameBytes(SUPER, old(plan), plan)
      ensures SameMap(old(plan), plan, i, j + NDIRECT) && OnlyInode(old(inodes), inodes, i)
      ensures ok ==> x != 0 && x == BlockOf(SUPER, plan, i, j + NDIRECT)
      ensures !ok ==> plan == old(plan)
      ensures !ok ==> freeblock == FSSIZE
    {
      hide Word, Used, MarksFirst, CleanTails, Solid, ByteAt, SameBytes, UsedSet, SameMap, OnlySlot;
      SameBytesReflexive(plan);
      SameMapReflexive(plan, i, j + NDIRECT);
      ok := true;
      InData(plan, owner, i, NDIRECT);
      if Word(disk[inodes[i].addrs[NDIRECT]], j) == 0 {
        ok := Take(i, j + NDIRECT + 1);
        assert ValidPlace(old(plan), i, NDIRECT) && ValidPlace(plan, i, j + NDIRECT + 1);
        if ok { SlotTaken(old(plan), plan, i, j, old(freeblock)); }
        InData(plan, owner, i, NDIRECT);
      }
      x := Word(disk[inodes[i].addrs[NDIRECT]], j);
    }

    /** One turn of the append loop: as much of `d` as fits in the last block. */
    method AppendChunk(i: nat, d: seq<byte>) returns (n1: nat)
      requires Tight() && i < NINODES && d != []
      modifies this
      ensures Tight() && freeinode == old(freeinode) && n1 <= |d|
      ensures ContentOf(i) == old(ContentOf(i)) + d[..n1] && OnlyInode(old(inodes), inodes, i)
      ensures forall j: nat :: j < NINODES && j != i ==> ContentOf(j) == old(ContentOf(j))
      ensures n1 == 0 ==> freeblock == FSSIZE || |old(ContentOf(i))| >= MAXFILE * BSIZE
    {
      hide Word, Used, Planned, Content, SameBytes, Patch, SameMap, NoSpare, BlockOf;
      PlannedShape(plan, owner, freeblock);
      var off := inodes[i].size;
      if off / BSIZE >= MAXFILE { return 0; }
      var ok, x := BlockFor(i, off / BSIZE);
      PlannedShape(plan, owner, freeblock);
      forall j: nat | j < NINODES
        ensures ContentOf(j) == old(ContentOf(j))
      {
        SameContent(old(plan), plan, j);
      }
      if !ok {
        MapNoSpare(old(plan), plan, i, off / BSIZE);
        return 0;
      }
      n1 := if |d| < BSIZE - off % BSIZE then |d| else BSIZE - off % BSIZE;
      PlanAppends(plan, owner, freeblock, i, d[..n1]);
      AppendedNoSpare(old(plan), plan, owner, freeblock, i, d[..n1]);
      plan := Appended(plan, i, d[..n1]);
      disk := disk[x := Patch(disk[x], off % BSIZE, d[..n1])];
      inodes := inodes[i := Inode(off + n1, inodes[i].addrs)];
    }

    /** Appends `data` to file `i`; false when the file or the disk is full. */
    method Iappend(i: nat, data: seq<byte>) returns (ok: bool)
      requires Tight() && i < NINODES
      modifies this
      ensures Tight() && freeinode == old(freeinode)
      ensures ok ==> ContentOf(i) == old(ContentOf(i)) + data
      ensures !ok ==> freeblock == FSSIZE || |old(ContentOf(i))| + |data| > MAXFILE * BSIZE
      ensures OnlyInode(old(inodes), inodes, i)
      ensures forall j: nat :: j < NINODES && j != i ==> ContentOf(j) == old(ContentOf(j))
    {
      hide Planned, Content, NoSpare;
      var pos := 0;
      while pos < |data|
        invariant 0 <= pos <= |data| && Tight() && freeinode == old(freeinode)
        invariant ContentOf(i) == old(ContentOf(i)) + data[..pos] && OnlyInode(old(inodes), inodes, i)
        invariant forall j: nat :: j < NINODES && j != i ==> ContentOf(j) == old(ContentOf(j))
      {
        var n1 := AppendChunk(i, data[pos..]);
        if n1 == 0 { return false; }
        Consecutive(data, pos, n1);
        pos := pos + n1;
      }
      assert data[..pos] == data;
      ok := true;
    }
  }

  // ---- the image of a list of files

  const DOT: byte := 46   // '.'

  datatype HostFile = HostFile(name: seq<byte>, data: seq<byte>)

  /** The root directory of `n` files: ".", "..", then one entry a file, inode 2 on. */
  function RootDir(files: seq<HostFile>, n: nat): (d: seq<byte>)
    requires n <= |files| < NINODES - 1
    ensures |d| == 16 * (n + 2)
  {
    if n == 0 then Entry(ROOTINO, [DOT]) + Entry(ROOTINO, [DOT, DOT])
    else RootDir(files, n - 1) + Entry(n + 1, files[n - 1].name)
  }

  /** The image of `files`: ownership holds, every file has its bytes, the root
      directory is the list of names rounded up with zeroes, and only a root
      directory that exactly fills its blocks ends in a hole. */
  ghost predicate Built(files: seq<HostFile>, fs: Fs, owner: map<nat, Place>)
    requires |files| < NINODES - 2
  {
    && Owned(SUPER, fs, owner) && |fs.inodes| == NINODES
    && FilesBuilt(files, fs)
    && RootBuilt(files, Content(SUPER, fs, ROOTINO))
    && Unused(fs.inodes, |files| + 2)
    && HolesLeft(fs, |files| + 2)
  }

  ghost predicate FilesBuilt(files: seq<HostFile>, fs: Fs)
    requires |files| < NINODES - 2 && Shape(SUPER, fs) && |fs.inodes| == NINODES
  {
    forall k: nat :: k < |files| ==> Content(SUPER, fs, k + 2) == files[k].data
  }

  /** With `m` entries in the root, a hole only at its end, if they fill their blocks. */
  ghost predicate HolesLeft(fs: Fs, m: nat)
    requires Shape(SUPER, fs) && |fs.inodes| == NINODES
  {
    && (forall i: nat :: i < NINODES && i != ROOTINO ==> HoleFree(SUPER, fs, i))
    && (HoleFree(SUPER, fs, ROOTINO) <==> m % 64 != 0)
  }

  predicate RootBuilt(files: seq<HostFile>, c: seq<byte>)
    requires |files| < NINODES - 2
  {
    && |c| == (16 * (|files| + 2) / BSIZE + 1) * BSIZE
    && c[..16 * (|files| + 2)] == RootDir(files, |files|)
    && forall x :: 16 * (|files| + 2) <= x < |c| ==> c[x] == 0
  }

  /** The final inode table: the plan's, with the root rounded up. */
  ghost predicate RoundedUp(plan: Fs, fs: Fs) {
    && |plan.inodes| == |fs.inodes| == NINODES
    && fs.disk == plan.disk
    && fs.inodes[ROOTINO].size == (plan.inodes[ROOTINO].size / BSIZE + 1) * BSIZE
    && fs.inodes == plan.inodes[ROOTINO := Inode(fs.inodes[ROOTINO].size, plan.inodes[ROOTINO].addrs)]
  }

  lemma FinishedSolid(plan: Fs, fs: Fs, owner: map<nat, Place>, free: nat, m: nat)
    requires Planned(plan, owner, free) && NoSpare(plan) && RoundedUp(plan, fs) && m < NINODES
    requires plan.inodes[ROOTINO].size == 16 * m
    ensures Owned(SUPER, fs, owner)
    ensures HolesLeft(fs, m)
  {
    hide Planned, Owned, InodeShape, HoleFree, NoSpare, Content;
    Padded(plan, fs, owner, free, ROOTINO);
    OwnedShape(SUPER, fs, owner);
    RootHole(plan, fs, owner, free);
    Sixteen(m);
  }

  lemma FinishedRoot(files: seq<HostFile>, plan: Fs, fs: Fs, owner: map<nat, Place>, free: nat)
    requires |files| < NINODES - 2 && Planned(plan, owner, free) && RoundedUp(plan, fs)
    requires Content(SUPER, plan, ROOTINO) == RootDir(files, |files|)
    requires plan.inodes[ROOTINO].size == 16 * (|files| + 2) && Shape(SUPER, fs)
    ensures RootBuilt(files, Content(SUPER, fs, ROOTINO))
  {
    hide Planned, Owned, InodeShape, HoleFree, RootDir, RootBuilt, Shape;
    Padded(plan, fs, owner, free, ROOTINO);
    hide Content;
    RootRounded(files, Content(SUPER, fs, ROOTINO));
  }

  lemma FinishedFile(plan: Fs, fs: Fs, owner: map<nat, Place>, free: nat, j: nat)
    requires Planned(plan, owner, free) && RoundedUp(plan, fs) && ROOTINO != j < NINODES
    requires plan.inodes[ROOTINO].size < 16 * NINODES && Shape(SUPER, plan) && Shape(SUPER, fs)
    ensures Content(SUPER, fs, j) == Content(SUPER, plan, j)
  {
    hide Planned, Owned, InodeShape, HoleFree, Shape, Content;
    Padded(plan, fs, owner, free, ROOTINO);
  }

  lemma RoundedUnused(plan: Fs, fs: Fs, n: nat)
    requires RoundedUp(plan, fs) && Unused(plan.inodes, n) && n > ROOTINO
    ensures Unused(fs.inodes, n)
  {
    hide Blank;
  }

  lemma FinishedFiles(files: seq<HostFile>, plan: Fs, fs: Fs, owner: map<nat, Place>, free: nat)
    requires |files| < NINODES - 2 && Planned(plan, owner, free) && RoundedUp(plan, fs)
    requires plan.inodes[ROOTINO].size < 16 * NINODES && Shape(SUPER, plan) && Shape(SUPER, fs) && FilesBuilt(files, plan)
    ensures FilesBuilt(files, fs)
  {
    hide Planned, Owned, InodeShape, HoleFree, Shape, Content;
    forall k: nat | k < |files|
      ensures Content(SUPER, fs, k + 2) == files[k].data
    {
      FinishedFile(plan, fs, owner, free, k + 2);
    }
  }

  /** Rounding up the root and writing the free map completes the plan. */
  lemma Finished(files: seq<HostFile>, plan: Fs, fs: Fs, owner: map<nat, Place>, free: nat)
    requires |files| < NINODES - 2 && Planned(plan, owner, free) && NoSpare(plan)
    requires Content(SUPER, plan, ROOTINO) == RootDir(files, |files|) && FilesBuilt(files, plan)
    requires RoundedUp(plan, fs) && Unused(plan.inodes, |files| + 2)
    ensures Built(files, fs, owner)
  {
    RoundedUnused(plan, fs, |files| + 2);
    hide Planned, Owned, InodeShape, HoleFree, NoSpare, RootDir, Content, RootBuilt, Shape, Unused, HolesLeft, FilesBuilt, Blank;
    PlannedShape(plan, owner, free);
    assert plan.inodes[ROOTINO].size == |Content(SUPER, plan, ROOTINO)| == 16 * (|files| + 2);
    FinishedSolid(plan, fs, owner, free, |files| + 2);
    OwnedShape(SUPER, fs, owner);
    FinishedRoot(files, plan, fs, owner, free);
    FinishedFiles(files, plan, fs, owner, free);
  }

  lemma RootRounded(files: seq<HostFile>, c: seq<byte>)
    requires |files| < NINODES - 2
    requires |c| == (16 * (|files| + 2) / BSIZE + 1) * BSIZE
    requires c[..16 * (|files| + 2)] == RootDir(files, |files|)
    requires forall x :: 16 * (|files| + 2) <= x < |c| ==> c[x] == 0
    ensures RootBuilt(files, c)
  {
  }

  lemma Sixteen(m: nat)
    ensures (16 * m) % BSIZE != 0 <==> m % 64 != 0
  {
  }

  /** Some file is larger than a file can be. */
  predicate TooBig(files: seq<HostFile>) {
    exists k :: 0 <= k < |files| && |files[k].data| > MAXFILE * BSIZE
  }

  /** Builds the image out of the first `used` blocks; fails only when a file is
      too big or the disk is used up. */
  method Build(files: seq<HostFile>)
      returns (ok: bool, used: nat, disk: seq<Block>, inodes: seq<Inode>, ghost owner: map<nat, Place>)
    requires |files| < NINODES - 2
    ensures ok ==> Built(files, Fs(disk, inodes), owner)
    ensures ok ==> WellSized(SUPER, disk) && forall b :: 0 <= b < FSSIZE ==> (b in UsedSet(SUPER, disk) <==> b < used)
    ensures !ok ==> used == FSSIZE || TooBig(files)
  {
    hide Content, ByteAt, HoleFree, NoSpare, MarksFirst, RootDir, Used, UsedSet, Ptr, Built;
    var img := new Image();
    ok := Populate(img, files);
    disk, inodes := img.disk, img.inodes;
    owner := img.owner;
    used := img.freeblock;
    if !ok { return; }
    var off := (inodes[ROOTINO].size / BSIZE + 1) * BSIZE;
    var marks := BitmapBlock(img.freeblock);
    MarksUnique(marks, img.plan.disk[BMAPSTART], img.freeblock);
    disk := disk[BMAPSTART := marks];
    inodes := inodes[ROOTINO := Inode(off, inodes[ROOTINO].addrs)];
    Finished(files, img.plan, Fs(disk, inodes), owner, img.freeblock);
    MarksSet(disk, used);
  }

  /** One file of the host: a new inode, its entry in the root, its bytes. */
  method AddFile(img: Image, file: HostFile) returns (ok: bool)
    requires img.Tight() && 1 < img.freeinode < NINODES && img.ContentOf(img.freeinode) == []
    requires |img.ContentOf(ROOTINO)| + ENTRY <= MAXFILE * BSIZE
    modifies img
    ensures img.Tight() && img.freeinode == old(img.freeinode) + 1
    ensures Unused(old(img.inodes), old(img.freeinode)) ==> Unused(img.inodes, img.freeinode)
    ensures ok ==> img.ContentOf(ROOTINO) == old(img.ContentOf(ROOTINO)) + Entry(old(img.freeinode), file.name)
    ensures ok ==> img.ContentOf(old(img.freeinode)) == file.data
    ensures !ok ==> img.freeblock == FSSIZE || |file.data| > MAXFILE * BSIZE
    ensures forall j: nat :: j < NINODES && j != ROOTINO && j != old(img.freeinode) ==> img.ContentOf(j) == old(img.ContentOf(j))
  {
    hide Planned, Content, Entry, NoSpare;
    var inum := img.Ialloc();
    ok := img.Iappend(ROOTINO, Entry(inum, file.name));
    if !ok { return; }
    ok := img.Iappend(inum, file.data);
  }

  /** The directory entries and the files, in order; false when they do not fit. */
  method Populate(img: Image, files: seq<HostFile>) returns (ok: bool)
    requires |files| < NINODES - 2
    requires img.Tight() && img.freeinode == 1 && Unused(img.inodes, 1) && forall i: nat :: i < NINODES ==> img.ContentOf(i) == []
    modifies img
    ensures img.Tight() && (ok ==> Unused(img.inodes, |files| + 2))
    ensures ok ==> img.ContentOf(ROOTINO) == RootDir(files, |files|)
    ensures ok ==> FilesBuilt(files, img.plan)
    ensures !ok ==> img.freeblock == FSSIZE || TooBig(files)
  {
    hide Planned, Content, Entry, NoSpare;
    var root := img.Ialloc();
    ok := img.Iappend(root, Entry(root, [DOT]));
    if !ok { return; }
    ok := img.Iappend(root, Entry(root, [DOT, DOT]));
    if !ok { return; }
    assert [] + Entry(root, [DOT]) + Entry(root, [DOT, DOT]) == RootDir(files, 0);
    var k := 0;
    while k < |files|
      invariant 0 <= k <= |files| && img.Tight() && img.freeinode == k + 2 && Unused(img.inodes, k + 2)
      invariant img.ContentOf(ROOTINO) == RootDir(files, k)
      invariant forall j: nat :: j < k ==> img.ContentOf(j + 2) == files[j].data
      invariant forall j: nat :: k + 2 <= j < NINODES ==> img.ContentOf(j) == []
    {
      ok := AddFile(img, files[k]);
      if !ok {
        assert img.freeblock != FSSIZE ==> |files[k].data| > MAXFILE * BSIZE;
        return;
      }
      k := k + 1;
    }
  }

  /** The extra root block exists unless the entries filled the last one. */
  lemma RootHole(plan: Fs, fs: Fs, owner: map<nat, Place>, free: nat)
    requires Planned(plan, owner, free) && |fs.inodes| == NINODES
    requires plan.inodes[ROOTINO].size < 4 * BSIZE && RoundedUp(plan, fs)
    requires Owned(SUPER, fs, owner) && NoSpare(plan)
    ensures HoleFree(SUPER, fs, ROOTINO) <==> plan.inodes[ROOTINO].size % BSIZE != 0
  {
    hide Word, Used, Ptr;
    Resized(SUPER, plan, fs, owner, ROOTINO);
    var size := plan.inodes[ROOTINO].size;
    forall bn: nat | bn < MAXFILE
      ensures BlockOf(SUPER, fs, ROOTINO, bn) == BlockOf(SUPER, plan, ROOTINO, bn)
    {
      assert ValidPlace(plan, ROOTINO, SlotOf(bn));
    }
    assert HoleFree(SUPER, plan, ROOTINO);
    if size % BSIZE == 0 {
      assert BlockOf(SUPER, fs, ROOTINO, size / BSIZE) == 0;
    }
  }
}
