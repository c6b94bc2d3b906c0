/**
  The xv6 file system as an object over one shared disk: block allocation,
  the block map of an inode, truncation, byte-range reads and writes.

  `disk` is what `bread` returns for each block, `unsaved` what the disk itself
  holds in those blocks whose buffer was released changed and unwritten;
  `inodes` the in-memory inodes, one record per inode number.
 */
module FileSystem {
  import opened Common
  import opened FsLayout
  import opened FsBlocks
  import opened FsEffects
  import opened FsNeeds
  import opened FsSaved
  import opened FsPieces
  import opened FsSnap

  /** Truncating one file leaves the others as they are and as they were saved. */
  lemma ClearedRest(sb: Super, fs: Fs, fs': Fs, u: Unsaved, i: nat)
    requires Shape(sb, fs) && Shape(sb, fs') && |fs'.inodes| == |fs.inodes|
    requires forall j: nat :: j < |fs.inodes| && j != i ==> fs'.inodes[j] == fs.inodes[j]
    requires forall j: nat, l: nat :: ValidPlace(fs, j, l) && j != i ==> Ptr(sb, fs', j, l) == Ptr(sb, fs, j, l)
    requires forall j: nat, x: nat :: j < |fs.inodes| && j != i && x < MAXFILE * BSIZE ==>
               ByteAt(sb, fs', j, x) == ByteAt(sb, fs, j, x)
    ensures forall j: nat, x: nat :: j < |fs.inodes| && j != i && x < MAXFILE * BSIZE ==>
              SavedAt(sb, fs', u, j, x) == SavedAt(sb, fs, u, j, x)
    ensures forall j: nat :: j < |fs.inodes| && j != i ==> Content(sb, fs', j) == Content(sb, fs, j)
  {
    hide Ptr, ByteAt;
    forall j: nat, x: nat | j < |fs.inodes| && j != i && x < MAXFILE * BSIZE
      ensures SavedAt(sb, fs', u, j, x) == SavedAt(sb, fs, u, j, x)
    {
      assert ValidPlace(fs, j, SlotOf(x / BSIZE));
    }
  }

  /** What giving block `b` to an empty slot means for files, disk and free blocks. */
  lemma PlacedAll(sb: Super, fs: Fs, owner: map<nat, Place>, u: Unsaved, i: nat, k: nat, b: nat)
    requires CanTake(sb, fs, owner, i, k, b) && b != 0
    ensures Owned(sb, Placed(sb, fs, i, k, b), owner[b := (i, k)]) && OnlySlot(sb, fs, Placed(sb, fs, i, k, b), i, k, b)
    ensures Grown(sb, fs, Placed(sb, fs, i, k, b)) && Shed(owner, u, owner[b := (i, k)], u - {b})
    ensures Took(sb, fs, Placed(sb, fs, i, k, b), i, {k}) && SameSlots(sb, fs, Placed(sb, fs, i, k, b), i)
  {
    hide Word, Used, UsedSet, Placed, Ptr, Took, Grown;
    PlacedOwned(sb, fs, owner, i, k, b);
    PlacedGrown(sb, fs, owner, i, k, b);
    ShedOne(owner, u, b, (i, k));
    TookOne(sb, fs, owner, i, k, b);
  }

  class FileSystem {
    const sb: Super
    var disk: seq<Block>
    var inodes: seq<Inode>
    var unsaved: Unsaved
    ghost var owner: map<nat, Place>

    ghost function State(): Fs
      reads this
    {
      Fs(disk, inodes)
    }

    ghost function Now(): Snap
      reads this
    {
      Snap(State(), owner, unsaved)
    }

    ghost predicate Valid()
      reads this
    {
      Owned(sb, State(), owner) && StaleOk(sb, owner, unsaved)
    }

    /** The mounted disk. */
    constructor (sb: Super, disk: seq<Block>, inodes: seq<Inode>, ghost owner: map<nat, Place>)
      requires Owned(sb, Fs(disk, inodes), owner)
      ensures Valid() && this.sb == sb && Now() == Snap(Fs(disk, inodes), owner, map[])
    {
      this.sb, this.disk, this.inodes, this.unsaved, this.owner := sb, disk, inodes, map[], owner;
    }

    /** The buffer of block `b` is recycled: reads find what the disk has. It can happen
        at any time; within a call it is as if before or after the call, each
        block of a file being read or written once. */
    method Recycle(b: nat)
      requires Valid()
      modifies this`disk, this`unsaved
      ensures Valid() && b !in unsaved && SamePtrs(sb, old(State()), State())
      ensures Reverted(sb, old(State()), old(unsaved), State(), unsaved, b)
    {
      hide Word, Used, UsedSet, Ptr;
      if b in unsaved {
        RecycledSaved(sb, State(), owner, unsaved, b);
        disk := disk[b := unsaved[b]];
        unsaved := unsaved - {b};
      } else {
        RevertedSelf(sb, State(), unsaved, b);
      }
    }

    /** ialloc clears the dinode it finds free; as itrunc and mkfs leave it, it is clear. */
    method Clear(i: nat)
      requires Valid() && i < |inodes| && inodes[i] == Blank()
      modifies this`inodes
      ensures Now() == old(Now())
    {
      inodes := inodes[i := Inode(0, seq(NDIRECT + 1, _ => 0))];
      assert inodes == old(inodes);
    }

    /** The lowest free block, marked used and zeroed; 0 when the disk is full. */
    method Balloc() returns (r: nat)
      requires Valid()
      modifies this`disk, this`unsaved
      ensures r == 0 ==> disk == old(disk) && unsaved == old(unsaved) && Full(sb, State())
      ensures r != 0 ==>
                && r < sb.size && r !in UsedSet(sb, old(disk))
                && (forall c :: 0 <= c < r ==> c in UsedSet(sb, old(disk)))
                && disk == MarkUsed(sb, old(disk), r)[r := Zeroes()] && unsaved == old(unsaved) - {r}
    {
      hide Ptr, Bit, SetBit, MarkUsed, Used, UsedSet;
      assert 0 in UsedSet(sb, disk);
      var b := 0;
      while b < sb.size
        invariant b % BPB == 0 && disk == old(disk) && unsaved == old(unsaved)
        invariant forall c :: 0 <= c < b && c < sb.size ==> c in UsedSet(sb, disk)
      {
        var m := disk[MapBlock(sb, b)];
        var bi := 0;
        while bi < BPB && b + bi < sb.size
          invariant 0 <= bi <= BPB && disk == old(disk) && unsaved == old(unsaved)
          invariant forall c :: 0 <= c < b + bi && c < sb.size ==> c in UsedSet(sb, disk)
        {
          BitOf(sb, disk, b, bi);
          if !Bit(m[bi / 8], bi % 8) {
            m := m[bi / 8 := SetBit(m[bi / 8], bi % 8)];
            disk := disk[MapBlock(sb, b) := m];
            disk := disk[b + bi := Zeroes()];
            unsaved := unsaved - {b + bi};
            return b + bi;
          }
          bi := bi + 1;
        }
        b := b + BPB;
      }
      return 0;
    }

    /** Freeing a free block is the panic the callers never reach. */
    method Bfree(b: nat)
      requires WellSized(sb, disk) && b < sb.size
      requires b in UsedSet(sb, disk)
      modifies this`disk
      ensures disk == MarkFree(sb, old(disk), b)
    {
      var bi := b % BPB;
      var m := disk[MapBlock(sb, b)];
      assert Bit(m[bi / 8], bi % 8);
      m := m[bi / 8 := ClearBit(m[bi / 8], bi % 8)];
      disk := disk[MapBlock(sb, b) := m];
    }

    /** The disk block of the `bn`-th block of file `i`, allocated if need be. */
    method Bmap(i: nat, bn: nat) returns (addr: nat)
      requires Valid() && i < |inodes| && bn < MAXFILE
      modifies this
      ensures Valid() && Grown(sb, old(State()), State())
      ensures Shed(old(owner), old(unsaved), owner, unsaved)
      ensures addr == BlockOf(sb, State(), i, bn)
      ensures BlockOf(sb, old(State()), i, bn) != 0 ==> State() == old(State()) && owner == old(owner)
      ensures addr == 0 ==> Full(sb, State())
      ensures addr != 0 <==> Fits(sb, old(State()), i, bn, bn + 1)
      ensures addr != 0 ==> Drawn(sb, old(State()), State(), i, bn, bn + 1)
      ensures SameSlots(sb, old(State()), State(), i)
    {
      hide Word, Used, Drawn, Fits, Full, SameBytes, KeptPtrs, Owned, StaleOk, Shed, SameSlots;
      OwnedShape(sb, State(), owner);
      if bn < NDIRECT {
        addr := BmapDirect(i, bn);
      } else {
        addr := BmapIndirect(i, bn - NDIRECT);
      }
    }

    method BmapDirect(i: nat, bn: nat) returns (addr: nat)
      requires Valid() && i < |inodes| && bn < NDIRECT
      modifies this
      ensures Valid() && Grown(sb, old(State()), State())
      ensures Shed(old(owner), old(unsaved), owner, unsaved)
      ensures addr == BlockOf(sb, State(), i, bn)
      ensures BlockOf(sb, old(State()), i, bn) != 0 ==> State() == old(State()) && owner == old(owner)
      ensures addr == 0 ==> Full(sb, State())
      ensures addr != 0 <==> Fits(sb, old(State()), i, bn, bn + 1)
      ensures addr != 0 ==> Drawn(sb, old(State()), State(), i, bn, bn + 1)
      ensures SameSlots(sb, old(State()), State(), i)
    {
      hide Word, Used, ByteAt, Took, FreeSet, Needs, Grown, Full;
      ghost var fs := State();
      ShedSelf(owner, unsaved);
      GrownReflexive(sb, fs);
      TookNone(sb, fs, i);
      SameSlotsSelf(sb, fs, i);
      NeedsDirect(sb, fs, i, bn);
      FullFree(sb, fs);
      addr := inodes[i].addrs[bn];
      if addr == 0 {
        addr := Balloc();
        if addr == 0 { return; }
        PlacedAll(sb, fs, owner, old(unsaved), i, bn, addr);
        inodes := inodes[i := Inode(inodes[i].size, inodes[i].addrs[bn := addr])];
        owner := owner[addr := (i, bn)];
      }
      DrawnFits(sb, fs, State(), i, bn, bn + 1);
    }

    /** The indirect block of file `i`, allocated if need be. */
    method IndirectOf(i: nat) returns (ind: nat)
      requires Valid() && i < |inodes|
      modifies this
      ensures Valid() && Grown(sb, old(State()), State()) && Shed(old(owner), old(unsaved), owner, unsaved)
      ensures ind == Ptr(sb, State(), i, NDIRECT)
      ensures old(inodes)[i].addrs[NDIRECT] != 0 ==> State() == old(State()) && owner == old(owner)
      ensures ind == 0 ==> State() == old(State()) && Full(sb, State())
      ensures ind != 0 ==> Took(sb, old(State()), State(), i, if old(inodes)[i].addrs[NDIRECT] == 0 then {NDIRECT} else {})
      ensures SameSlots(sb, old(State()), State(), i)
    {
      hide Word, Used, ByteAt, Took, Grown;
      ShedSelf(owner, unsaved);
      GrownReflexive(sb, State());
      TookNone(sb, State(), i);
      SameSlotsSelf(sb, State(), i);
      ind := inodes[i].addrs[NDIRECT];
      if ind == 0 {
        ind := Balloc();
        if ind == 0 { return; }
        PlacedAll(sb, old(State()), owner, old(unsaved), i, NDIRECT, ind);
        inodes := inodes[i := Inode(inodes[i].size, inodes[i].addrs[NDIRECT := ind])];
        owner := owner[ind := (i, NDIRECT)];
      }
    }

    /** The block named in word `bn` of the indirect block, allocated if need be. */
    method WordOf(i: nat, bn: nat) returns (addr: nat)
      requires Valid() && i < |inodes| && bn < NINDIRECT && inodes[i].addrs[NDIRECT] != 0
      modifies this
      ensures Valid() && Grown(sb, old(State()), State()) && Shed(old(owner), old(unsaved), owner, unsaved)
      ensures addr == BlockOf(sb, State(), i, bn + NDIRECT)
      ensures BlockOf(sb, old(State()), i, bn + NDIRECT) != 0 ==> State() == old(State()) && owner == old(owner)
      ensures addr == 0 ==> State() == old(State()) && Full(sb, State())
      ensures addr != 0 ==>
                Took(sb, old(State()), State(), i, if BlockOf(sb, old(State()), i, bn + NDIRECT) == 0 then {SlotOf(bn + NDIRECT)} else {})
      ensures SameSlots(sb, old(State()), State(), i)
    {
      hide Word, Used, ByteAt, PutWord, Took, Grown, SameSlots, Full;
      ghost var fs := State();
      ShedSelf(owner, unsaved);
      GrownReflexive(sb, fs);
      TookNone(sb, fs, i);
      SameSlotsSelf(sb, fs, i);
      var ind := inodes[i].addrs[NDIRECT];
      addr := Word(disk[ind], bn);
      if addr == 0 {
        addr := Balloc();
        if addr != 0 {
          PlacedAll(sb, fs, owner, old(unsaved), i, bn + NDIRECT + 1, addr);
          disk := disk[ind := PutWord(disk[ind], bn, addr)];
          owner := owner[addr := (i, bn + NDIRECT + 1)];
        }
      }
    }

    method BmapIndirect(i: nat, bn: nat) returns (addr: nat)
      requires Valid() && i < |inodes| && bn < NINDIRECT
      modifies this
      ensures Valid() && Grown(sb, old(State()), State())
      ensures Shed(old(owner), old(unsaved), owner, unsaved)
      ensures addr == BlockOf(sb, State(), i, bn + NDIRECT)
      ensures BlockOf(sb, old(State()), i, bn + NDIRECT) != 0 ==> State() == old(State()) && owner == old(owner)
      ensures addr == 0 ==> Full(sb, State())
      ensures addr != 0 <==> Fits(sb, old(State()), i, bn + NDIRECT, bn + NDIRECT + 1)
      ensures addr != 0 ==> Drawn(sb, old(State()), State(), i, bn + NDIRECT, bn + NDIRECT + 1)
      ensures SameSlots(sb, old(State()), State(), i)
    {
      hide Word, Used, UsedSet, ByteAt, Shed, SameBytes, KeptPtrs, StaleOk, Full, Took, FreeSet, Needs, SameSlots, Owned;
      OwnedShape(sb, State(), owner);
      ghost var fs := State();
      NeedsOne(sb, fs, i, bn + NDIRECT);
      FullFree(sb, fs);
      var ind := IndirectOf(i);
      ghost var fs1, owner1, u1 := State(), owner, unsaved;
      FullFree(sb, fs1);
      if ind == 0 { return 0; }
      IndirectTook(sb, fs, fs1, i, bn + NDIRECT);
      addr := WordOf(i, bn);
      GrownTransitive(sb, fs, fs1, State());
      SameSlotsJoin(sb, fs, fs1, State(), i);
      ShedJoin(old(owner), old(unsaved), owner1, u1, owner, unsaved);
      if addr != 0 {
        WordTook(sb, fs, fs1, State(), i, bn + NDIRECT);
        DrawnFits(sb, fs, State(), i, bn + NDIRECT, bn + NDIRECT + 1);
      }
    }

    /** Drops the contents of file `i`: exactly its own blocks become free. */
    method Itrunc(i: nat)
      requires Valid() && i < |inodes|
      modifies this
      ensures Valid()
      ensures inodes == old(inodes)[i := Blank()]
      ensures UsedSet(sb, disk) == UsedSet(sb, old(disk)) - Slots(old(owner), i, 0, NSLOT)
      ensures owner == Others(old(owner), i)
      ensures forall j: nat :: j < |inodes| && j != i ==> Content(sb, State(), j) == Content(sb, old(State()), j)
      ensures unsaved == old(unsaved)
      ensures forall j: nat, x: nat :: j < |inodes| && j != i && x < MAXFILE * BSIZE ==>
                && ByteAt(sb, State(), j, x) == ByteAt(sb, old(State()), j, x)
                && SavedAt(sb, State(), unsaved, j, x) == SavedAt(sb, old(State()), old(unsaved), j, x)
    {
      hide Word, Used, UsedSet, ByteAt, SavedAt, Content, Ptr;
      ghost var fs := State();
      FreeDirect(i);
      if inodes[i].addrs[NDIRECT] != 0 {
        FreeIndirect(i, fs);
        inodes := inodes[i := Inode(inodes[i].size, inodes[i].addrs[NDIRECT := 0])];
      } else {
        EmptyTail(sb, fs, owner, i);
      }
      inodes := inodes[i := Inode(0, inodes[i].addrs)];
      ClearedOwned(sb, fs, State(), owner, i);
      ClearedRest(sb, fs, State(), unsaved, i);
      owner := Others(owner, i);
      assert inodes[i].addrs == seq(NDIRECT + 1, _ => 0);
    }

    /** The direct half of truncation. */
    method FreeDirect(i: nat)
      requires Valid() && i < |inodes|
      modifies this`disk, this`inodes
      ensures |inodes| == |old(inodes)| && |inodes[i].addrs| == NDIRECT + 1
      ensures inodes == old(inodes)[i := inodes[i]] && inodes[i].size == old(inodes)[i].size
      ensures forall l :: 0 <= l < NDIRECT ==> inodes[i].addrs[l] == 0
      ensures inodes[i].addrs[NDIRECT] == old(inodes)[i].addrs[NDIRECT]
      ensures WellSized(sb, disk) && DataKept(sb, old(disk), disk)
      ensures UsedSet(sb, disk) == UsedSet(sb, old(disk)) - Slots(owner, i, 0, NDIRECT)
    {
      hide Word, Used;
      ghost var fs := State();
      var k := 0;
      while k < NDIRECT
        invariant 0 <= k <= NDIRECT
        invariant |inodes| == |fs.inodes| && |inodes[i].addrs| == NDIRECT + 1
        invariant inodes == fs.inodes[i := inodes[i]] && inodes[i].size == fs.inodes[i].size
        invariant forall l :: 0 <= l < k ==> inodes[i].addrs[l] == 0
        invariant forall l :: k <= l <= NDIRECT ==> inodes[i].addrs[l] == fs.inodes[i].addrs[l]
        invariant WellSized(sb, disk) && DataKept(sb, fs.disk, disk)
        invariant UsedSet(sb, disk) == UsedSet(sb, fs.disk) - Slots(owner, i, 0, k)
      {
        SlotStep(sb, fs, owner, i, 0, k);
        if inodes[i].addrs[k] != 0 {
          FreeOne(inodes[i].addrs[k]);
          inodes := inodes[i := Inode(inodes[i].size, inodes[i].addrs[k := 0])];
        }
        k := k + 1;
      }
    }

    /** `Bfree` on a block known to hold data. */
    method FreeOne(b: nat)
      requires WellSized(sb, disk) && sb.dataStart <= b < sb.size && b in UsedSet(sb, disk)
      modifies this`disk
      ensures WellSized(sb, disk) && DataKept(sb, old(disk), disk)
      ensures UsedSet(sb, disk) == UsedSet(sb, old(disk)) - {b}
    {
      MarkFreeSet(sb, disk, b);
      Bfree(b);
    }

    /** The indirect half of truncation: every word of the indirect block, then the block itself. */
    method FreeIndirect(i: nat, ghost fs: Fs)
      requires Owned(sb, fs, owner) && i < |fs.inodes| == |inodes|
      requires |inodes[i].addrs| == NDIRECT + 1 && inodes[i].addrs[NDIRECT] == fs.inodes[i].addrs[NDIRECT] != 0
      requires WellSized(sb, disk) && DataKept(sb, fs.disk, disk)
      requires UsedSet(sb, disk) == UsedSet(sb, fs.disk) - Slots(owner, i, 0, NDIRECT)
      modifies this`disk
      ensures WellSized(sb, disk) && DataKept(sb, fs.disk, disk)
      ensures UsedSet(sb, disk) == UsedSet(sb, fs.disk) - Slots(owner, i, 0, NSLOT)
    {
      hide Word, Used;
      var ind := inodes[i].addrs[NDIRECT];
      SlotStep(sb, fs, owner, i, NDIRECT, NDIRECT);
      var a := disk[ind];
      var j := 0;
      while j < NINDIRECT
        invariant 0 <= j <= NINDIRECT
        invariant WellSized(sb, disk) && DataKept(sb, fs.disk, disk)
        invariant UsedSet(sb, disk) ==
                  UsedSet(sb, fs.disk) - Slots(owner, i, 0, NDIRECT) - Slots(owner, i, NDIRECT + 1, NDIRECT + 1 + j)
      {
        SlotStep(sb, fs, owner, i, NDIRECT + 1, NDIRECT + 1 + j);
        if Word(a, j) != 0 {
          FreeOne(Word(a, j));
        }
        j := j + 1;
      }
      FreeOne(ind);
    }

    /** One turn of the read loop: the part of `want` bytes at `at` that lies in one block. */
    method ReadChunk(i: nat, at: nat, want: nat) returns (d: seq<byte>)
      requires Valid() && i < |inodes|
      requires 0 < want && at + want <= inodes[i].size
      modifies this
      ensures Valid() && Peeked(sb, i, old(Now()), Now())
      ensures |d| <= want && d == Content(sb, old(State()), i)[at..at + |d|]
      ensures d == [] ==> Full(sb, State())
      ensures d != [] ==> |d| == ChunkLen(at, 0, want)
      ensures d != [] <==> Fits(sb, old(State()), i, at / BSIZE, at / BSIZE + 1)
      ensures d != [] ==> Drawn(sb, old(State()), State(), i, at / BSIZE, at / BSIZE + 1)
    {
      hide Word, Used, UsedSet, Ptr, ByteAt, SameBytes, KeptPtrs, Content, Full, Fits, Drawn, SameSlots;
      assert InodeShape(sb, inodes[i]);
      assert at / BSIZE * BSIZE < inodes[i].size;
      var addr := Bmap(i, at / BSIZE);
      if addr == 0 { return []; }
      var m := ChunkLen(at, 0, want);
      ChunkRead(sb, State(), owner, i, at, m);
      GrownContent(sb, old(State()), State(), i);
      d := disk[addr][at % BSIZE..at % BSIZE + m];
    }

    /** The read loop: `n` bytes at `off`, all inside the file. */
    method ReadLoop(i: nat, off: nat, n: nat, room: nat) returns (r: int, data: seq<byte>)
      requires Valid() && i < |inodes| && off + n <= inodes[i].size
      modifies this
      ensures Valid() && Peeked(sb, i, old(Now()), Now())
      ensures |data| <= n && (r == |data| <= room || r == -1)
      ensures data == Content(sb, old(State()), i)[off..off + |data|]
      ensures Supplied(sb, old(State()), i, off, n, room) ==> r == (if n <= room then n else -1)
      ensures Supplied(sb, old(State()), i, off, n, room) ==>
                Drawn(sb, old(State()), State(), i, off / BSIZE, BlocksEnd(off, Reach(n, room)))
      ensures !Supplied(sb, old(State()), i, off, n, room) ==> 0 <= r < n && Stops(sb, old(State()), i, off, r) && Full(sb, State())
    {
      hide Owned, StaleOk, UsedSet, Content, Full, Fits, Drawn, Stops, BlocksEnd, Peeked, ChunkLen, Aligned;
      OwnedShape(sb, State(), owner);
      ghost var first := Now();
      ghost var c, lo := Content(sb, first.fs, i), off / BSIZE;
      PeekedSelf(sb, i, first);
      DrawnNone(sb, first.fs, i, lo);
      Untouched(off);
      data := [];
      while |data| < n
        invariant Valid() && Peeked(sb, i, first, Now())
        invariant |data| <= n && |data| <= room && data == c[off..off + |data|]
        invariant |data| == n || Aligned(off, |data|)
        invariant Drawn(sb, first.fs, State(), i, lo, BlocksEnd(off, |data|))
        decreases n - |data|
      {
        ghost var at := off + |data|;
        ghost var before := Now();
        PeekedHoles(sb, i, first, before);
        SameChunk(off, |data|, n);
        var d := ReadChunk(i, off + |data|, n - |data|);
        OwnedShape(sb, State(), owner);
        PeekedJoin(sb, i, first, before, Now());
        TransferTurn(sb, first.fs, before.fs, State(), i, off, |data|, n, room);
        if d == [] { return |data|, data; }
        if |data| + |d| > room { return -1, data; }
        Slices(c, off, at, at + |d|);
        data := data + d;
      }
      DrawnFits(sb, first.fs, State(), i, lo, BlocksEnd(off, n));
      return |data|, data;
    }

    /** Reads up to `n` bytes at `off`. The destination takes `room` bytes before it faults.
        All there is to read arrives, or -1 after a fault, exactly when the blocks missing
        on the way can be had; otherwise the read stops at the first that cannot. */
    method Readi(i: nat, off: nat, n: nat, room: nat) returns (r: int, data: seq<byte>)
      requires Valid() && i < |inodes| && off < U32 && n < U32
      modifies this
      ensures Valid() && Peeked(sb, i, old(Now()), Now())
      ensures off > old(inodes)[i].size || off + n >= U32 ==> r == 0 && data == []
      ensures off <= old(inodes)[i].size && off + n < U32 ==>
                && |data| <= n && off + |data| <= old(inodes)[i].size && (r == |data| <= room || r == -1)
                && data == Content(sb, old(State()), i)[off..off + |data|]
                && (r == n || off + r == old(inodes)[i].size
                    || (r == -1 && room < n && off + room < old(inodes)[i].size)
                    || (0 <= r && Stops(sb, old(State()), i, off, r)))
      ensures off <= old(inodes)[i].size && off + n < U32 && HoleFree(sb, old(State()), i) ==>
                if n <= room || old(inodes)[i].size <= off + room then r == n || off + r == old(inodes)[i].size else r == -1
      ensures var want := Readable(old(inodes)[i].size, off, n);
              && (Supplied(sb, old(State()), i, off, want, room) ==>
                    && r == (if want <= room then want else -1)
                    && Drawn(sb, old(State()), State(), i, off / BSIZE, BlocksEnd(off, Reach(want, room))))
              && (!Supplied(sb, old(State()), i, off, want, room) ==>
                    0 <= r < want && Stops(sb, old(State()), i, off, r) && Full(sb, State()))
    {
      hide Owned, StaleOk, UsedSet, Content, Full, Drawn, Fits, Peeked, Stops, HoleFree;
      OwnedShape(sb, State(), owner);
      PeekedSelf(sb, i, Now());
      DrawnNone(sb, State(), i, off / BSIZE);
      DrawnFits(sb, State(), State(), i, off / BSIZE, off / BSIZE);
      if HoleFree(sb, State(), i) { RangeFits(sb, State(), i, off, n, room); }
      if off > inodes[i].size || (off + n) % U32 < off { return 0, []; }
      var n := if off + n > inodes[i].size then inodes[i].size - off else n;
      r, data := ReadLoop(i, off, n, room);
    }

    /** One turn of the write loop: as much of `d` as fits in the block at `at`.
        `avail` bytes of `d` can be copied in; past them the copy faults and
        the bytes already copied stay in the buffer. */
    method WriteChunk(i: nat, at: nat, d: seq<byte>, avail: nat) returns (ok: bool, m: nat)
      requires Valid() && i < |inodes|
      requires 0 < |d| && at + |d| <= MAXFILE * BSIZE && avail <= |d|
      modifies this
      ensures Valid() && |inodes| == |old(inodes)| && SameSizes(old(inodes), inodes)
      ensures m <= |d| && Shape(sb, State()) && KeptPtrs(sb, old(State()), State()) && SameSlots(sb, old(State()), State(), i)
      ensures WroteBytes(sb, old(State()), State(), i, at, d[..m])
      ensures ok <==> Fits(sb, old(State()), i, at / BSIZE, at / BSIZE + 1) && ChunkLen(at, 0, |d|) <= avail
      ensures ok ==> m == ChunkLen(at, 0, |d|) && BlockOf(sb, State(), i, at / BSIZE) != 0
      ensures !Fits(sb, old(State()), i, at / BSIZE, at / BSIZE + 1) ==> m == 0 && Full(sb, State())
      ensures Fits(sb, old(State()), i, at / BSIZE, at / BSIZE + 1) ==>
                (ok || m == avail) && Drawn(sb, old(State()), State(), i, at / BSIZE, at / BSIZE + 1)
      ensures Resaved(sb, old(State()), old(unsaved), State(), unsaved, i, at, if ok then d[..m] else [])
    {
      hide Word, Used, UsedSet, Full, Ptr, ByteAt, SameBytes, KeptPtrs, WroteBytes, SamePtrs, SavedAt, Settled, Fits, SameSlots, Took, Needs;
      ghost var old0 := State();
      var addr := Bmap(i, at / BSIZE);
      ghost var fs, u := State(), unsaved;
      GrownSaved(sb, old0, old(owner), old(unsaved), fs, owner, u);
      if addr == 0 {
        WroteNothing(sb, fs, i, at);
        GrownWrote(sb, old0, fs, fs, i, at, []);
        ResavedNone(sb, old0, old(unsaved), fs, u, i, at);
        return false, 0;
      }
      BlockPlace(sb, fs, owner, i, at);
      m := ChunkLen(at, 0, |d|);
      ok := m <= avail;
      if !ok { m := avail; }
      PatchBytes(sb, fs, owner, i, at, d[..m]);
      ghost var fs' := Fs(disk[addr := Patch(disk[addr], at % BSIZE, d[..m])], inodes);
      DataWriteSet(sb, disk, addr, Patch(disk[addr], at % BSIZE, d[..m]));
      TookSame(sb, old0, fs, fs', i, Needs(sb, old0, i, at / BSIZE, at / BSIZE + 1));
      SameSlotsSame(sb, old0, fs, fs', i);
      GrownWrote(sb, old0, fs, fs', i, at, d[..m]);
      if ok {
        ChunkSaved(sb, fs, owner, u, i, at, d[..m], fs');
        unsaved := unsaved - {addr};
      } else {
        ChunkStray(sb, fs, owner, u, i, at, fs');
        ResavedNone(sb, fs, u, fs', u[addr := OnDisk(fs.disk, u, addr)], i, at);
        unsaved := unsaved[addr := OnDisk(disk, unsaved, addr)];
      }
      GrownResaved(sb, old0, old(unsaved), fs, u, fs', unsaved, i, at, if ok then d[..m] else []);
      disk := disk[addr := Patch(disk[addr], at % BSIZE, d[..m])];
    }

    /** The write loop: `tot` bytes written and counted, `stray` bytes written. */
    method WriteLoop(i: nat, off: nat, src: seq<byte>, avail: nat) returns (tot: nat, ghost stray: nat)
      requires Valid() && i < |inodes| && avail <= |src| && off + |src| <= MAXFILE * BSIZE
      modifies this
      ensures Valid() && SameSizes(old(inodes), inodes)
      ensures Supplied(sb, old(State()), i, off, |src|, avail) ==>
                && tot == Whole(off, |src|, avail) && stray == avail
                && Drawn(sb, old(State()), State(), i, off / BSIZE, BlocksEnd(off, Reach(|src|, avail)))
      ensures !Supplied(sb, old(State()), i, off, |src|, avail) ==>
                tot == stray <= avail && tot < |src| && Stops(sb, old(State()), i, off, tot) && Full(sb, State())
      ensures tot <= stray <= |src| && SameSlots(sb, old(State()), State(), i)
      ensures KeptPtrs(sb, old(State()), State()) && WroteBytes(sb, old(State()), State(), i, off, src[..stray])
      ensures Filled(sb, State(), i, off, tot)
      ensures Resaved(sb, old(State()), old(unsaved), State(), unsaved, i, off, src[..tot])
    {
      hide Word, Used, UsedSet, Ptr, BlockOf, ByteAt, Full, WroteBytes, KeptPtrs, InodeShape, SavedAt, Settled, Resaved, StaleOk, Fits, Drawn, SameSlots, Stops, BlocksEnd, Whole, Aligned;
      ghost var fs, u0, lo := State(), unsaved, off / BSIZE;
      WroteNothing(sb, fs, i, off);
      SavedSelf(sb, fs, u0, i, off);
      SameSlotsSelf(sb, fs, i);
      DrawnNone(sb, fs, i, lo);
      Untouched(off);
      tot, stray := 0, 0;
      while tot < |src|
        invariant Valid() && SameSizes(fs.inodes, inodes)
        invariant 0 <= tot <= avail && stray == tot
        invariant KeptPtrs(sb, fs, State()) && WroteBytes(sb, fs, State(), i, off, src[..tot])
        invariant Filled(sb, State(), i, off, tot)
        invariant Resaved(sb, fs, u0, State(), unsaved, i, off, src[..tot])
        invariant tot == |src| || Aligned(off, tot)
        invariant Drawn(sb, fs, State(), i, lo, BlocksEnd(off, tot)) && SameSlots(sb, fs, State(), i)
      {
        ghost var before, u := State(), unsaved;
        var ok, m := WriteChunk(i, off + tot, src[tot..], avail - tot);
        TransferTurn(sb, fs, before, State(), i, off, tot, |src|, avail);
        SameSlotsJoin(sb, fs, before, State(), i);
        WroteMore(sb, fs, before, State(), i, off, src[..tot], src[tot..][..m]);
        Consecutive(src, tot, m);
        ResavedJoin(sb, fs, u0, before, u, State(), unsaved, i, off, src[..tot], if ok then src[tot..][..m] else []);
        assert src[..tot] + [] == src[..tot];
        stray := tot + m;
        FilledMore(sb, before, State(), i, off, tot, if ok then m else 0);
        if !ok {
          if avail < tot + ChunkLen(off, tot, |src|) { FaultCounts(off, tot, |src|, avail); }
          return;
        }
        tot := tot + m;
      }
      DrawnFits(sb, fs, State(), i, lo, BlocksEnd(off, |src|));
      WholeAll(off, |src|);
    }

    /** Writes `n = |src|` bytes at `off`; `avail` of them can be copied in before
        the source faults. Returns the count written, or -1 on a bad range.
        `stray` counts the bytes that reached the buffers: more than the count
        returned only when the source faulted inside a block. */
    method Writei(i: nat, off: nat, src: seq<byte>, avail: nat) returns (r: int, ghost stray: nat)
      requires Valid() && i < |inodes| && off < U32 && |src| < U32 && avail <= |src|
      modifies this
      ensures Valid() && |inodes| == |old(inodes)|
      ensures r == -1 <==> off > old(inodes)[i].size || off + |src| >= U32 || off + |src| > MAXFILE * BSIZE
      ensures r == -1 ==> State() == old(State()) && owner == old(owner) && unsaved == old(unsaved)
      ensures r != -1 ==>
                && 0 <= r <= stray <= |src|
                && Wrote(sb, old(State()), State(), i, off, src[..stray], r)
                && WroteBytes(sb, old(State()), State(), i, off, src[..stray])
                && Resaved(sb, old(State()), old(unsaved), State(), unsaved, i, off, src[..r])
      ensures r != -1 && Supplied(sb, old(State()), i, off, |src|, avail) ==>
                && r == Whole(off, |src|, avail) && stray == avail
                && Drawn(sb, old(State()), State(), i, off / BSIZE, BlocksEnd(off, Reach(|src|, avail)))
      ensures r != -1 && !Supplied(sb, old(State()), i, off, |src|, avail) ==>
                r == stray <= avail && r < |src| && Stops(sb, old(State()), i, off, r) && Full(sb, State())
      ensures SameSlots(sb, old(State()), State(), i)
      ensures HoleFree(sb, old(State()), i) ==> HoleFree(sb, State(), i)
    {
      assert InodeShape(sb, inodes[i]);
      hide Word, Used, UsedSet, Ptr, BlockOf, ByteAt, WroteBytes, KeptPtrs, InodeShape, Filled, HoleFree, Wrote, SavedAt, Settled, Resaved, StaleOk;
      hide Fits, Stops, SameSlots, Needs, Took, Whole, Full;
      SameSlotsSelf(sb, State(), i);
      ghost var fs := State();
      if off > inodes[i].size || (off + |src|) % U32 < off { return -1, 0; }
      if off + |src| > MAXFILE * BSIZE { return -1, 0; }
      var tot;
      tot, stray := WriteLoop(i, off, src, avail);
      ghost var fs1 := State();
      if off + tot > inodes[i].size {
        inodes := inodes[i := Inode(off + tot, inodes[i].addrs)];
      }
      Resized(sb, fs1, State(), owner, i);
      SameSlotsSame(sb, fs, fs1, State(), i);
      if Supplied(sb, fs, i, off, |src|, avail) {
        TookSame(sb, fs, fs1, State(), i, Needs(sb, fs, i, off / BSIZE, BlocksEnd(off, Reach(|src|, avail))));
      }
      WroteResized(sb, fs, fs1, State(), i, off, src[..stray], tot);
      ResizedSaved(sb, fs, old(unsaved), fs1, State(), unsaved, i, off, src[..stray], src[..tot]);
      return tot, stray;
    }

    /** Writes `src` at file offset `off` in pieces of at most three blocks; returns
        the byte count or -1, and the new file offset. A complete call has the
        effect of one `Writei`; one that would pass the largest file size fails
        like `Writei`, yet its whole leading pieces have been written. */
    method Filewrite(i: nat, off: nat, src: seq<byte>, avail: nat) returns (ret: int, off': nat, ghost stray: nat)
      requires Valid() && i < |inodes| && off < U32 / 2 && |src| < U32 / 2 && avail <= |src|
      modifies this
      ensures Valid() && |inodes| == |old(inodes)|
      ensures off <= off' <= off + stray && stray <= |src|
      ensures ret == if off' == off + |src| then |src| else -1
      ensures ret == |src| <==> src == [] || (off <= old(inodes)[i].size && off + |src| <= MAXFILE * BSIZE && avail == |src|
                                              && Supplied(sb, old(State()), i, off, |src|, avail))
      ensures off > old(inodes)[i].size ==> off' == off && State() == old(State())
      ensures off <= old(inodes)[i].size ==> Wrote(sb, old(State()), State(), i, off, src[..stray], off' - off)
      ensures Shape(sb, old(State())) && Shape(sb, State())
      ensures off <= old(inodes)[i].size ==> off <= MAXFILE * BSIZE
      ensures off <= old(inodes)[i].size && Supplied(sb, old(State()), i, off, Pieces(off, |src|), avail) ==>
                off' - off == PiecesCount(off, |src|, avail) && stray == if avail < Pieces(off, |src|) then avail else Pieces(off, |src|)
      ensures off <= old(inodes)[i].size && !Supplied(sb, old(State()), i, off, Pieces(off, |src|), avail) ==>
                stray == off' - off && Stops(sb, old(State()), i, off, stray) && Full(sb, State())
      ensures WroteBytes(sb, old(State()), State(), i, off, src[..stray])
      ensures Resaved(sb, old(State()), old(unsaved), State(), unsaved, i, off, src[..off' - off])
    {
      hide Word, Used, UsedSet, Ptr, BlockOf, ByteAt, KeptPtrs, InodeShape, HoleFree, Wrote, Full, Owned, WroteBytes, Resaved, StaleOk;
      hide Fits, Drawn, Stops, BlocksEnd, PiecesCount, Whole, Pieced;
      OwnedShape(sb, State(), owner);
      ghost var fs, u0 := State(), unsaved;
      ghost var inside := off <= inodes[i].size;
      if inside { PiecedNone(sb, fs, u0, i, off); }
      var k := 0;
      ghost var whole := true;
      off', stray := off, 0;
      while k < |src|
        invariant whole && 0 <= k <= avail && stray == k && off' == off + k && (k == |src| || k % PIECE == 0)
        invariant Valid() && Shape(sb, State()) && |inodes| == |fs.inodes|
        invariant if inside then Pieced(sb, fs, u0, State(), unsaved, i, off, src[..k]) && off + k <= MAXFILE * BSIZE
                  else k == 0 && State() == fs && unsaved == u0
      {
        var n1 := if |src| - k > PIECE then PIECE else |src| - k;
        var r;
        ghost var s;
        r, s := WritePiece(i, off, k, src, avail, n1, fs, u0);
        if inside && r == -1 { PiecesStop(off, k, |src|); }
        whole := r == -1 || r == n1;
        if r != -1 { stray := k + s; }
        if r > 0 { off' := off' + r; }
        if r != n1 { break; }
        k := k + r;
      }
      ret := if k == |src| then |src| else -1;
      if inside && whole {
        PiecedCut(sb, fs, u0, State(), unsaved, i, off, src, k);
        PiecesDone(sb, fs, State(), i, off, k, |src|, avail);
      }
      if !inside { NothingPieced(sb, fs, u0, i, off); }
    }

    /** The piece of `n1` bytes at byte `k`, all earlier ones having been written. */
    method WritePiece(i: nat, off: nat, k: nat, src: seq<byte>, avail: nat, n1: nat, ghost fs: Fs, ghost u0: Unsaved)
        returns (r: int, ghost s: nat)
      requires Valid() && Shape(sb, fs) && i < |inodes| == |fs.inodes| && off < U32 / 2 && |src| < U32 / 2
      requires k % PIECE == 0 && k < |src| && k <= avail <= |src| && n1 == (if |src| - k > PIECE then PIECE else |src| - k)
      requires if off <= fs.inodes[i].size then Pieced(sb, fs, u0, State(), unsaved, i, off, src[..k])
               else k == 0 && State() == fs && unsaved == u0
      modifies this
      ensures Valid() && |inodes| == |fs.inodes| && Shape(sb, State())
      ensures r == -1 <==> off > fs.inodes[i].size || off + k + n1 > MAXFILE * BSIZE
      ensures r == -1 ==> State() == old(State()) && unsaved == old(unsaved)
      ensures r != -1 ==> 0 <= r <= s <= n1 && Cut(sb, fs, u0, State(), unsaved, i, off, src, k + s, k + r)
      ensures r == n1 ==> s == n1 && k + n1 <= avail && Pieced(sb, fs, u0, State(), unsaved, i, off, src[..k + n1])
      ensures r != -1 && r != n1 ==> off <= MAXFILE * BSIZE
      ensures r != -1 && r != n1 && Supplied(sb, fs, i, off, Pieces(off, |src|), avail) ==>
                k + r == PiecesCount(off, |src|, avail) && k + s == avail < Pieces(off, |src|)
      ensures r != -1 && r != n1 && !Supplied(sb, fs, i, off, Pieces(off, |src|), avail) ==>
                r == s && Stops(sb, fs, i, off, k + r) && Full(sb, State())
    {
      hide Word, Used, UsedSet, Ptr, BlockOf, ByteAt, KeptPtrs, InodeShape, HoleFree, Wrote, Full, Owned, WroteBytes, Resaved, StaleOk;
      hide Fits, Drawn, Stops, BlocksEnd, PiecesCount, Whole, Pieced, SameSlots;
      ghost var before, u := State(), unsaved;
      OwnedShape(sb, before, owner);
      if off <= fs.inodes[i].size { PiecedSize(sb, fs, u0, before, u, i, off, src[..k]); }
      var a1 := if avail - k < n1 then avail - k else n1;
      r, s := Writei(i, off + k, src[k..k + n1], a1);
      if r == -1 { return; }
      OwnedShape(sb, State(), owner);
      PiecedTurn(sb, fs, u0, before, u, State(), unsaved, i, off, src, k, avail, n1, a1, r, s);
    }
  }
}
