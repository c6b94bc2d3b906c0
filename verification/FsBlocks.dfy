/**
  Block ownership in the xv6 file system.

  A slot of an inode is one of its 12 direct pointers (0..11), its pointer to
  the indirect block (12), or one of the 256 words of that block (13..268).
  `Owned` says that the nonzero slots of all inodes and the blocks marked used
  in the data area are in one-to-one correspondence, `owner` being the inverse.
 */
module FsBlocks {
  import opened Common
  import opened FsLayout

  const NSLOT: nat := 269

  /** `size` in bytes; `addrs` holds the 13 block numbers of struct dinode. */
  datatype Inode = Inode(size: nat, addrs: seq<nat>)

  /** A dinode that is all zeroes. */
  function Blank(): Inode {
    Inode(0, seq(NDIRECT + 1, _ => 0))
  }

  datatype Fs = Fs(disk: seq<Block>, inodes: seq<Inode>)

  type Place = (nat, nat)

  predicate Shape(sb: Super, fs: Fs) {
    && WellSized(sb, fs.disk)
    && forall i :: 0 <= i < |fs.inodes| ==> InodeShape(sb, fs.inodes[i])
  }

  predicate InodeShape(sb: Super, ip: Inode) {
    && |ip.addrs| == NDIRECT + 1
    && ip.size <= MAXFILE * BSIZE
    && forall k :: 0 <= k <= NDIRECT ==> ip.addrs[k] < sb.size
  }

  predicate ValidPlace(fs: Fs, i: nat, k: nat) {
    i < |fs.inodes| && k < NSLOT
  }

  /** The block number held in slot `k` of inode `i`; 0 when there is none. */
  function Ptr(sb: Super, fs: Fs, i: nat, k: nat): nat
    requires Shape(sb, fs) && ValidPlace(fs, i, k)
  {
    var a := fs.inodes[i].addrs;
    if k <= NDIRECT then a[k]
    else if a[NDIRECT] == 0 then 0
    else Word(fs.disk[a[NDIRECT]], k - NDIRECT - 1)
  }

  /** The blocks marked used in the bitmap. */
  ghost function UsedSet(sb: Super, disk: seq<Block>): set<nat>
    requires WellSized(sb, disk)
  {
    set b | 0 <= b < sb.size && Used(sb, disk, b)
  }

  ghost predicate Owned(sb: Super, fs: Fs, owner: map<nat, Place>) {
    && Shape(sb, fs)
    && (forall b :: 0 <= b < sb.size ==> (b in UsedSet(sb, fs.disk) <==> b < sb.dataStart || b in owner))
    && (forall b :: b in owner ==>
          && sb.dataStart <= b < sb.size
          && ValidPlace(fs, owner[b].0, owner[b].1)
          && Ptr(sb, fs, owner[b].0, owner[b].1) == b)
    && (forall i: nat, k: nat :: ValidPlace(fs, i, k) && Ptr(sb, fs, i, k) != 0 ==>
          Ptr(sb, fs, i, k) in owner && owner[Ptr(sb, fs, i, k)] == (i, k))
  }

  /** What ownership means, without the inverse map: every nonzero pointer is a
      used data block, no two places hold the same block, and a used data
      block is held somewhere (nothing leaks). */
  lemma OwnedMeans(sb: Super, fs: Fs, owner: map<nat, Place>)
    requires Owned(sb, fs, owner)
    ensures forall i: nat, k: nat :: ValidPlace(fs, i, k) && Ptr(sb, fs, i, k) != 0 ==>
              sb.dataStart <= Ptr(sb, fs, i, k) < sb.size && Used(sb, fs.disk, Ptr(sb, fs, i, k))
    ensures forall i: nat, k: nat, j: nat, l: nat ::
              ValidPlace(fs, i, k) && ValidPlace(fs, j, l) && Ptr(sb, fs, i, k) != 0 && Ptr(sb, fs, i, k) == Ptr(sb, fs, j, l)
              ==> i == j && k == l
    ensures forall b :: sb.dataStart <= b < sb.size && Used(sb, fs.disk, b) ==>
              exists i: nat, k: nat :: ValidPlace(fs, i, k) && Ptr(sb, fs, i, k) == b
  {
    forall b | sb.dataStart <= b < sb.size && Used(sb, fs.disk, b)
      ensures exists i: nat, k: nat :: ValidPlace(fs, i, k) && Ptr(sb, fs, i, k) == b
    {
      assert b in UsedSet(sb, fs.disk);
      assert Ptr(sb, fs, owner[b].0, owner[b].1) == b;
    }
    forall i: nat, k: nat | ValidPlace(fs, i, k) && Ptr(sb, fs, i, k) != 0
      ensures Used(sb, fs.disk, Ptr(sb, fs, i, k))
    {
      assert Ptr(sb, fs, i, k) in UsedSet(sb, fs.disk);
    }
  }

  // ---- file contents

  function SlotOf(bn: nat): (k: nat)
    requires bn < MAXFILE
    ensures k < NSLOT && k != NDIRECT
  {
    if bn < NDIRECT then bn else bn + 1
  }

  function BlockOf(sb: Super, fs: Fs, i: nat, bn: nat): nat
    requires Shape(sb, fs) && i < |fs.inodes| && bn < MAXFILE
  {
    Ptr(sb, fs, i, SlotOf(bn))
  }

  /** Byte `x` of file `i`, whatever its size; a hole reads as zero. */
  function ByteAt(sb: Super, fs: Fs, i: nat, x: nat): byte
    requires Shape(sb, fs) && i < |fs.inodes| && x < MAXFILE * BSIZE
  {
    var b := BlockOf(sb, fs, i, x / BSIZE);
    if b == 0 || b >= sb.size then 0 else fs.disk[b][x % BSIZE]
  }

  function Content(sb: Super, fs: Fs, i: nat): (c: seq<byte>)
    requires Shape(sb, fs) && i < |fs.inodes|
    ensures |c| == fs.inodes[i].size
  {
    seq(fs.inodes[i].size, x requires 0 <= x < fs.inodes[i].size => ByteAt(sb, fs, i, x))
  }

  predicate HoleFree(sb: Super, fs: Fs, i: nat)
    requires Shape(sb, fs) && i < |fs.inodes|
  {
    forall bn :: 0 <= bn < MAXFILE && bn * BSIZE < fs.inodes[i].size ==> BlockOf(sb, fs, i, bn) != 0
  }

  /** The same bytes, at every offset of every file. */
  ghost predicate SameBytes(sb: Super, fs: Fs, fs': Fs)
    requires Shape(sb, fs) && Shape(sb, fs') && |fs.inodes| == |fs'.inodes|
  {
    forall i, x :: 0 <= i < |fs.inodes| && 0 <= x < MAXFILE * BSIZE ==>
      ByteAt(sb, fs', i, x) == ByteAt(sb, fs, i, x)
  }

  // ---- putting a block into a slot

  function SetSlot(sb: Super, fs: Fs, i: nat, k: nat, b: nat): Fs
    requires Shape(sb, fs) && ValidPlace(fs, i, k) && b < sb.size
    requires k > NDIRECT ==> fs.inodes[i].addrs[NDIRECT] != 0
  {
    var a := fs.inodes[i].addrs;
    if k <= NDIRECT then Fs(fs.disk, fs.inodes[i := Inode(fs.inodes[i].size, a[k := b])])
    else Fs(fs.disk[a[NDIRECT] := PutWord(fs.disk[a[NDIRECT]], k - NDIRECT - 1, b)], fs.inodes)
  }

  /** The disk after `balloc` takes block `b`: marked used and zeroed. */
  function Taken(sb: Super, fs: Fs, b: nat): Fs
    requires Shape(sb, fs) && b < sb.size
  {
    Fs(MarkUsed(sb, fs.disk, b)[b := Zeroes()], fs.inodes)
  }

  ghost predicate CanTake(sb: Super, fs: Fs, owner: map<nat, Place>, i: nat, k: nat, b: nat) {
    && Owned(sb, fs, owner)
    && ValidPlace(fs, i, k) && Ptr(sb, fs, i, k) == 0
    && b < sb.size && b !in UsedSet(sb, fs.disk)
    && (k > NDIRECT ==> fs.inodes[i].addrs[NDIRECT] != 0)
  }

  function Placed(sb: Super, fs: Fs, i: nat, k: nat, b: nat): Fs
    requires Shape(sb, fs) && ValidPlace(fs, i, k) && b < sb.size
    requires k > NDIRECT ==> fs.inodes[i].addrs[NDIRECT] != 0
  {
    SetSlot(sb, Taken(sb, fs, b), i, k, b)
  }

  lemma MarkUsedSet(sb: Super, disk: seq<Block>, b: nat)
    requires WellSized(sb, disk) && b < sb.size
    ensures UsedSet(sb, MarkUsed(sb, disk, b)) == UsedSet(sb, disk) + {b}
  {
    forall c | 0 <= c < sb.size
      ensures Used(sb, MarkUsed(sb, disk, b), c) == (c == b || Used(sb, disk, c))
    {
      MarkUsedAt(sb, disk, b, c);
    }
  }

  lemma MarkFreeSet(sb: Super, disk: seq<Block>, b: nat)
    requires WellSized(sb, disk) && b < sb.size
    ensures UsedSet(sb, MarkFree(sb, disk, b)) == UsedSet(sb, disk) - {b}
  {
    forall c | 0 <= c < sb.size
      ensures Used(sb, MarkFree(sb, disk, b), c) == (c != b && Used(sb, disk, c))
    {
      MarkFreeAt(sb, disk, b, c);
    }
  }

  /** Writing a data block leaves the bitmap alone. */
  lemma DataWriteSet(sb: Super, disk: seq<Block>, b: nat, w: Block)
    requires WellSized(sb, disk) && sb.dataStart <= b < sb.size
    ensures UsedSet(sb, disk[b := w]) == UsedSet(sb, disk)
  {
    forall c | 0 <= c < sb.size
      ensures Used(sb, disk[b := w], c) == Used(sb, disk, c)
    {
    }
  }

  /** How the disk changes when block `b` goes to slot (i, k). */
  ghost predicate PlacedOn(sb: Super, fs: Fs, fs': Fs, i: nat, k: nat, b: nat)
    requires Shape(sb, fs) && ValidPlace(fs, i, k) && b < sb.size
  {
    && Shape(sb, fs')
    && UsedSet(sb, fs'.disk) == UsedSet(sb, fs.disk) + {b}
    && fs'.disk[b] == Zeroes()
    && forall c :: sb.dataStart <= c < sb.size && c != b && (k > NDIRECT ==> c != fs.inodes[i].addrs[NDIRECT]) ==>
         fs'.disk[c] == fs.disk[c]
  }

  lemma PlacedDisk(sb: Super, fs: Fs, owner: map<nat, Place>, i: nat, k: nat, b: nat)
    requires CanTake(sb, fs, owner, i, k, b)
    ensures PlacedOn(sb, fs, Placed(sb, fs, i, k, b), i, k, b)
  {
    hide Word, PutWord, Used;
    var disk := MarkUsed(sb, fs.disk, b);
    MarkUsedSet(sb, fs.disk, b);
    DataWriteSet(sb, disk, b, Zeroes());
    if k > NDIRECT {
      var a := Ptr(sb, fs, i, NDIRECT);
      assert a in owner;
      disk := disk[b := Zeroes()];
      DataWriteSet(sb, disk, a, PutWord(disk[a], k - NDIRECT - 1, b));
    }
  }

  /** The slots before and after, as a relation: only slot (i, k) changes. */
  ghost predicate OnlySlot(sb: Super, fs: Fs, fs': Fs, i: nat, k: nat, b: nat)
    requires Shape(sb, fs) && Shape(sb, fs')
  {
    && |fs'.inodes| == |fs.inodes|
    && forall j: nat, l: nat :: ValidPlace(fs, j, l) ==>
         Ptr(sb, fs', j, l) == if j == i && l == k then b else Ptr(sb, fs, j, l)
  }

  lemma PlacedInode(sb: Super, fs: Fs, owner: map<nat, Place>, i: nat, k: nat, b: nat, j: nat, l: nat)
    requires CanTake(sb, fs, owner, i, k, b) && k <= NDIRECT
    requires ValidPlace(fs, j, l)
    ensures Shape(sb, Placed(sb, fs, i, k, b))
    ensures Ptr(sb, Placed(sb, fs, i, k, b), j, l) == if j == i && l == k then b else Ptr(sb, fs, j, l)
  {
    PlacedDisk(sb, fs, owner, i, k, b);
    if l > NDIRECT {
      var a := Ptr(sb, fs, j, NDIRECT);
      if a == 0 {
        if j == i && k == NDIRECT { ZeroWord(l - NDIRECT - 1); }
      } else {
        assert a in owner;
      }
    }
  }

  lemma WordSlot(sb: Super, fs: Fs, fs': Fs, owner: map<nat, Place>, i: nat, k: nat, b: nat, j: nat, l: nat)
    requires CanTake(sb, fs, owner, i, k, b) && k > NDIRECT
    requires PlacedOn(sb, fs, fs', i, k, b) && fs'.inodes == fs.inodes
    requires forall m :: 0 <= m < NINDIRECT ==>
               Word(fs'.disk[fs.inodes[i].addrs[NDIRECT]], m) ==
               if m == k - NDIRECT - 1 then b else Word(fs.disk[fs.inodes[i].addrs[NDIRECT]], m)
    requires ValidPlace(fs, j, l)
    ensures Ptr(sb, fs', j, l) == if j == i && l == k then b else Ptr(sb, fs, j, l)
  {
    hide Word, Used;
    var a := Ptr(sb, fs, i, NDIRECT);
    assert a in owner && owner[a] == (i, NDIRECT);
    var c := Ptr(sb, fs, j, NDIRECT);
    if l > NDIRECT && j != i && c != 0 {
      assert c in owner && owner[c] == (j, NDIRECT);
    }
  }

  /** The indirect block after one of its words was filled. */
  lemma PlacedBlock(sb: Super, fs: Fs, owner: map<nat, Place>, i: nat, k: nat, b: nat)
    requires CanTake(sb, fs, owner, i, k, b) && k > NDIRECT
    ensures var a := fs.inodes[i].addrs[NDIRECT];
            Shape(sb, fs) && a < sb.size && Placed(sb, fs, i, k, b).disk[a] == PutWord(fs.disk[a], k - NDIRECT - 1, b)
  {
    hide Word, PutWord, Used;
    var a := Ptr(sb, fs, i, NDIRECT);
    assert a in owner && a in UsedSet(sb, fs.disk);
  }

  lemma PlacedWord(sb: Super, fs: Fs, owner: map<nat, Place>, i: nat, k: nat, b: nat, m: nat)
    requires CanTake(sb, fs, owner, i, k, b) && k > NDIRECT && m < NINDIRECT
    ensures var a := fs.inodes[i].addrs[NDIRECT];
            Word(Placed(sb, fs, i, k, b).disk[a], m) == if m == k - NDIRECT - 1 then b else Word(fs.disk[a], m)
  {
    hide Word, PutWord, Placed, Owned, UsedSet;
    PlacedBlock(sb, fs, owner, i, k, b);
    PutWordAt(fs.disk[fs.inodes[i].addrs[NDIRECT]], k - NDIRECT - 1, b, m);
  }

  /** Slots and bitmap change together, so ownership survives. */
  lemma OwnedExtends(sb: Super, fs: Fs, fs': Fs, owner: map<nat, Place>, i: nat, k: nat, b: nat)
    requires CanTake(sb, fs, owner, i, k, b)
    requires PlacedOn(sb, fs, fs', i, k, b) && OnlySlot(sb, fs, fs', i, k, b)
    ensures Owned(sb, fs', owner[b := (i, k)])
  {
    hide Word, Used;
  }

  lemma BytesStay(sb: Super, fs: Fs, fs': Fs, owner: map<nat, Place>, i: nat, k: nat, b: nat, j: nat, x: nat)
    requires CanTake(sb, fs, owner, i, k, b)
    requires PlacedOn(sb, fs, fs', i, k, b) && OnlySlot(sb, fs, fs', i, k, b)
    requires j < |fs.inodes| && x < MAXFILE * BSIZE
    ensures ByteAt(sb, fs', j, x) == ByteAt(sb, fs, j, x)
  {
    hide Word, Used;
    var l := SlotOf(x / BSIZE);
    var c := Ptr(sb, fs, j, l);
    if c != 0 {
      assert c in owner && owner[c] == (j, l);
      if k > NDIRECT {
        var a := Ptr(sb, fs, i, NDIRECT);
        assert owner[a] == (i, NDIRECT);
      }
    }
  }

  /** Giving a free block to an empty slot keeps ownership and no byte of any
      file changes: the block arrives zeroed and a hole already read as zero. */
  lemma PlacedOwned(sb: Super, fs: Fs, owner: map<nat, Place>, i: nat, k: nat, b: nat)
    requires CanTake(sb, fs, owner, i, k, b)
    ensures Owned(sb, Placed(sb, fs, i, k, b), owner[b := (i, k)])
    ensures OnlySlot(sb, fs, Placed(sb, fs, i, k, b), i, k, b)
    ensures SameBytes(sb, fs, Placed(sb, fs, i, k, b))
  {
    var fs' := Placed(sb, fs, i, k, b);
    PlacedDisk(sb, fs, owner, i, k, b);
    if k > NDIRECT {
      forall m: nat | m < NINDIRECT
        ensures Word(fs'.disk[fs.inodes[i].addrs[NDIRECT]], m) ==
                if m == k - NDIRECT - 1 then b else Word(fs.disk[fs.inodes[i].addrs[NDIRECT]], m)
      {
        PlacedWord(sb, fs, owner, i, k, b, m);
      }
    }
    forall j: nat, l: nat | ValidPlace(fs, j, l)
      ensures Ptr(sb, fs', j, l) == if j == i && l == k then b else Ptr(sb, fs, j, l)
    {
      if k <= NDIRECT { PlacedInode(sb, fs, owner, i, k, b, j, l); } else { WordSlot(sb, fs, fs', owner, i, k, b, j, l); }
    }
    OwnedExtends(sb, fs, fs', owner, i, k, b);
    forall j: nat, x: nat | j < |fs.inodes| && x < MAXFILE * BSIZE
      ensures ByteAt(sb, fs', j, x) == ByteAt(sb, fs, j, x)
    {
      BytesStay(sb, fs, fs', owner, i, k, b, j, x);
    }
  }

  // ---- writing inside an owned block

  /** `d` copied over block `b` from offset `o` on. */
  function Patch(b: Block, o: nat, d: seq<byte>): Block
    requires o + |d| <= BSIZE
  {
    b[..o] + d + b[o + |d|..]
  }

  /** fs' has the bytes `d` at offset `off` of file `i`; every other byte of every file is as in fs. */
  ghost predicate WroteBytes(sb: Super, fs: Fs, fs': Fs, i: nat, off: nat, d: seq<byte>)
    requires Shape(sb, fs) && Shape(sb, fs') && |fs.inodes| == |fs'.inodes|
  {
    forall j: nat, x: nat :: j < |fs.inodes| && x < MAXFILE * BSIZE ==>
      ByteAt(sb, fs', j, x) == if j == i && off <= x < off + |d| then d[x - off] else ByteAt(sb, fs, j, x)
  }

  ghost predicate SamePtrs(sb: Super, fs: Fs, fs': Fs)
    requires Shape(sb, fs) && Shape(sb, fs')
  {
    && |fs'.inodes| == |fs.inodes|
    && forall j: nat, l: nat :: ValidPlace(fs, j, l) ==> Ptr(sb, fs', j, l) == Ptr(sb, fs, j, l)
  }

  /** Writing a block that is no indirect block moves no pointer. */
  lemma BlockWritePtrs(sb: Super, fs: Fs, owner: map<nat, Place>, b: nat, w: Block)
    requires Owned(sb, fs, owner) && sb.dataStart <= b < sb.size && (b in owner ==> owner[b].1 != NDIRECT)
    ensures var fs' := Fs(fs.disk[b := w], fs.inodes);
            Owned(sb, fs', owner) && SamePtrs(sb, fs, fs')
  {
    hide Word, Used;
    var fs' := Fs(fs.disk[b := w], fs.inodes);
    DataWriteSet(sb, fs.disk, b, w);
    forall j: nat, l: nat | ValidPlace(fs, j, l)
      ensures Ptr(sb, fs', j, l) == Ptr(sb, fs, j, l)
    {
      var a := Ptr(sb, fs, j, NDIRECT);
      if l > NDIRECT && a != 0 { assert owner[a] == (j, NDIRECT); }
    }
  }

  lemma PatchBytes(sb: Super, fs: Fs, owner: map<nat, Place>, i: nat, off: nat, d: seq<byte>)
    requires Owned(sb, fs, owner) && i < |fs.inodes|
    requires off % BSIZE + |d| <= BSIZE && off + |d| <= MAXFILE * BSIZE && off < MAXFILE * BSIZE
    requires BlockOf(sb, fs, i, off / BSIZE) != 0
    ensures var b := BlockOf(sb, fs, i, off / BSIZE);
            var fs' := Fs(fs.disk[b := Patch(fs.disk[b], off % BSIZE, d)], fs.inodes);
            Owned(sb, fs', owner) && SamePtrs(sb, fs, fs') && WroteBytes(sb, fs, fs', i, off, d)
  {
    hide Word, Used;
    var b := BlockOf(sb, fs, i, off / BSIZE);
    var w := Patch(fs.disk[b], off % BSIZE, d);
    var fs' := Fs(fs.disk[b := w], fs.inodes);
    assert owner[b] == (i, SlotOf(off / BSIZE));
    BlockWritePtrs(sb, fs, owner, b, w);
    forall j: nat, x: nat | j < |fs.inodes| && x < MAXFILE * BSIZE
      ensures ByteAt(sb, fs', j, x) == if j == i && off <= x < off + |d| then d[x - off] else ByteAt(sb, fs, j, x)
    {
      var c := BlockOf(sb, fs, j, x / BSIZE);
      if c != 0 {
        assert owner[c] == (j, SlotOf(x / BSIZE));
        if c == b { PatchAt(fs.disk[b], off, d, x); }
      }
    }
  }

  lemma PatchAt(b: Block, off: nat, d: seq<byte>, x: nat)
    requires off % BSIZE + |d| <= BSIZE && x / BSIZE == off / BSIZE
    ensures Patch(b, off % BSIZE, d)[x % BSIZE] == if off <= x < off + |d| then d[x - off] else b[x % BSIZE]
  {
  }

  // ---- releasing the blocks of one inode

  /** The blocks held by inode `i` in slots lo..hi. */
  ghost function Slots(owner: map<nat, Place>, i: nat, lo: nat, hi: nat): set<nat> {
    set b | b in owner && owner[b].0 == i && lo <= owner[b].1 < hi
  }

  ghost function Others(owner: map<nat, Place>, i: nat): map<nat, Place> {
    map b | b in owner && owner[b].0 != i :: owner[b]
  }

  /** One slot holds one block or none. */
  lemma SlotStep(sb: Super, fs: Fs, owner: map<nat, Place>, i: nat, lo: nat, k: nat)
    requires Owned(sb, fs, owner) && ValidPlace(fs, i, k) && lo <= k
    ensures Slots(owner, i, lo, k + 1) ==
            Slots(owner, i, lo, k) + if Ptr(sb, fs, i, k) == 0 then {} else {Ptr(sb, fs, i, k)}
    ensures Ptr(sb, fs, i, k) != 0 ==>
            Ptr(sb, fs, i, k) in owner && Ptr(sb, fs, i, k) < sb.size && owner[Ptr(sb, fs, i, k)] == (i, k)
  {
    hide Word, Used;
    forall b | b in Slots(owner, i, lo, k + 1) && b !in Slots(owner, i, lo, k)
      ensures b == Ptr(sb, fs, i, k) != 0
    {
      assert owner[b] == (i, k);
    }
  }

  /** Dropping every block of inode `i` from the bitmap and from the inode keeps
      ownership, and frees no block of another file. */
  lemma ClearedOwned(sb: Super, fs: Fs, fs': Fs, owner: map<nat, Place>, i: nat)
    requires Owned(sb, fs, owner) && i < |fs.inodes|
    requires Shape(sb, fs') && |fs'.inodes| == |fs.inodes| && fs'.inodes == fs.inodes[i := fs'.inodes[i]]
    requires forall k :: 0 <= k <= NDIRECT ==> fs'.inodes[i].addrs[k] == 0
    requires forall c :: sb.dataStart <= c < sb.size ==> fs'.disk[c] == fs.disk[c]
    requires UsedSet(sb, fs'.disk) == UsedSet(sb, fs.disk) - Slots(owner, i, 0, NSLOT)
    ensures Owned(sb, fs', Others(owner, i))
    ensures forall j: nat, l: nat :: ValidPlace(fs, j, l) ==> Ptr(sb, fs', j, l) == if j == i then 0 else Ptr(sb, fs, j, l)
    ensures forall j: nat, x: nat :: j < |fs.inodes| && j != i && x < MAXFILE * BSIZE ==>
              ByteAt(sb, fs', j, x) == ByteAt(sb, fs, j, x)
  {
    hide Word, Used;
    forall j: nat, l: nat | ValidPlace(fs, j, l)
      ensures Ptr(sb, fs', j, l) == if j == i then 0 else Ptr(sb, fs, j, l)
    {
      var a := Ptr(sb, fs, j, NDIRECT);
      if j != i && a != 0 { assert owner[a] == (j, NDIRECT); }
    }
    forall j: nat, x: nat | j < |fs.inodes| && j != i && x < MAXFILE * BSIZE
      ensures ByteAt(sb, fs', j, x) == ByteAt(sb, fs, j, x)
    {
      var c := BlockOf(sb, fs, j, x / BSIZE);
      if c != 0 { assert owner[c] == (j, SlotOf(x / BSIZE)); }
    }
  }
}
