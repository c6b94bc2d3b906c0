/**
  What the disk itself holds, as against what reads see. A writei whose source
  faults inside a block releases the block's buffer changed and unwritten: reads
  see the change until the buffer is recycled, and after that the bytes on the
  disk. `u` maps each such block to its bytes on the disk.
 */
module FsSaved {
  import opened Common
  import opened FsLayout
  import opened FsBlocks
  import opened FsEffects

  type Unsaved = map<nat, Block>

  /** Only blocks of file data are ever left unsaved; once freed they may be anybody's next block. */
  ghost predicate StaleOk(sb: Super, owner: map<nat, Place>, u: Unsaved) {
    forall b :: b in u ==> sb.dataStart <= b < sb.size && (b in owner ==> owner[b].1 != NDIRECT)
  }

  /** Byte `x` of file `i` on the disk. */
  function SavedAt(sb: Super, fs: Fs, u: Unsaved, i: nat, x: nat): byte
    requires Shape(sb, fs) && i < |fs.inodes| && x < MAXFILE * BSIZE
  {
    var b := BlockOf(sb, fs, i, x / BSIZE);
    if b in u then u[b][x % BSIZE] else ByteAt(sb, fs, i, x)
  }

  ghost predicate SameSaved(sb: Super, fs: Fs, u: Unsaved, fs': Fs, u': Unsaved)
    requires Shape(sb, fs) && Shape(sb, fs') && |fs.inodes| == |fs'.inodes|
  {
    forall i: nat, x: nat :: i < |fs.inodes| && x < MAXFILE * BSIZE ==> SavedAt(sb, fs', u', i, x) == SavedAt(sb, fs, u, i, x)
  }

  // ---- new blocks

  /** Blocks that found an owner were written to the disk. */
  ghost predicate Shed(owner: map<nat, Place>, u: Unsaved, owner': map<nat, Place>, u': Unsaved) {
    owner.Keys <= owner'.Keys && u' == u - (owner'.Keys - owner.Keys)
  }

  lemma ShedSelf(owner: map<nat, Place>, u: Unsaved)
    ensures Shed(owner, u, owner, u)
  {
  }

  lemma ShedOne(owner: map<nat, Place>, u: Unsaved, b: nat, p: Place)
    requires b !in owner
    ensures Shed(owner, u, owner[b := p], u - {b})
  {
    assert owner[b := p].Keys - owner.Keys == {b};
  }

  lemma ShedJoin(a: map<nat, Place>, u: Unsaved, b: map<nat, Place>, v: Unsaved, c: map<nat, Place>, w: Unsaved)
    requires Shed(a, u, b, v) && Shed(b, v, c, w)
    ensures Shed(a, u, c, w)
  {
  }

  /** A block the file gained was nobody's before. */
  lemma GainedNew(sb: Super, fs: Fs, owner: map<nat, Place>, fs': Fs, owner': map<nat, Place>, i: nat, k: nat)
    requires Owned(sb, fs, owner) && Owned(sb, fs', owner') && |fs.inodes| == |fs'.inodes| && KeptPtrs(sb, fs, fs')
    requires ValidPlace(fs, i, k) && Ptr(sb, fs, i, k) == 0 && Ptr(sb, fs', i, k) != 0
    ensures Ptr(sb, fs', i, k) !in owner && Ptr(sb, fs', i, k) in owner'
  {
    hide Word, Used, UsedSet;
    var b := Ptr(sb, fs', i, k);
    assert b in owner' && owner'[b] == (i, k);
  }

  /** New blocks change nothing on the disk that a file can show. */
  lemma GrownSaved(sb: Super, fs: Fs, owner: map<nat, Place>, u: Unsaved, fs': Fs, owner': map<nat, Place>, u': Unsaved)
    requires Owned(sb, fs, owner) && Owned(sb, fs', owner') && StaleOk(sb, owner, u)
    requires Grown(sb, fs, fs') && Shed(owner, u, owner', u')
    ensures SameSaved(sb, fs, u, fs', u')
  {
    hide Word, Used, UsedSet;
    forall i: nat, x: nat | i < |fs.inodes| && x < MAXFILE * BSIZE
      ensures SavedAt(sb, fs', u', i, x) == SavedAt(sb, fs, u, i, x)
    {
      var k := SlotOf(x / BSIZE);
      assert ValidPlace(fs, i, k);
      assert ByteAt(sb, fs', i, x) == ByteAt(sb, fs, i, x);
      if Ptr(sb, fs, i, k) != 0 {
        assert Ptr(sb, fs, i, k) in owner;
      } else if Ptr(sb, fs', i, k) != 0 {
        GainedNew(sb, fs, owner, fs', owner', i, k);
      }
    }
  }

  // ---- writes

  /** Offset `x` lies in a block that a write of `n` bytes at `off` writes to. */
  predicate InBlocks(off: nat, n: nat, x: nat) {
    n > 0 && off / BSIZE <= x / BSIZE && x / BSIZE * BSIZE < off + n
  }

  /** Byte `x` of file `j` on the disk after `d` has been written at `off` of file `i`:
      a bwrite takes the whole block along. */
  function Settled(sb: Super, fs: Fs, u: Unsaved, i: nat, off: nat, d: seq<byte>, j: nat, x: nat): byte
    requires Shape(sb, fs) && j < |fs.inodes| && x < MAXFILE * BSIZE
  {
    if j == i && InBlocks(off, |d|, x) then (if off <= x < off + |d| then d[x - off] else ByteAt(sb, fs, j, x))
    else SavedAt(sb, fs, u, j, x)
  }

  ghost predicate Resaved(sb: Super, fs: Fs, u: Unsaved, fs': Fs, u': Unsaved, i: nat, off: nat, d: seq<byte>)
    requires Shape(sb, fs) && Shape(sb, fs') && |fs.inodes| == |fs'.inodes|
  {
    forall j: nat, x: nat :: j < |fs.inodes| && x < MAXFILE * BSIZE ==>
      SavedAt(sb, fs', u', j, x) == Settled(sb, fs, u, i, off, d, j, x)
  }

  lemma ResavedNone(sb: Super, fs: Fs, u: Unsaved, fs': Fs, u': Unsaved, i: nat, off: nat)
    requires Shape(sb, fs) && Shape(sb, fs') && |fs.inodes| == |fs'.inodes| && SameSaved(sb, fs, u, fs', u')
    ensures Resaved(sb, fs, u, fs', u', i, off, [])
  {
    hide SavedAt, ByteAt;
  }

  lemma SavedSelf(sb: Super, fs: Fs, u: Unsaved, i: nat, off: nat)
    requires Shape(sb, fs)
    ensures Resaved(sb, fs, u, fs, u, i, off, [])
  {
    ResavedNone(sb, fs, u, fs, u, i, off);
  }

  /** The size of a file has nothing to do with the bytes in its blocks. */
  lemma ResizedSaved(sb: Super, fs: Fs, u: Unsaved, fs1: Fs, fs': Fs, u': Unsaved, i: nat, off: nat, d: seq<byte>, e: seq<byte>)
    requires Shape(sb, fs) && Shape(sb, fs1) && Shape(sb, fs') && |fs.inodes| == |fs1.inodes| == |fs'.inodes|
    requires WroteBytes(sb, fs, fs1, i, off, d) && Resaved(sb, fs, u, fs1, u', i, off, e)
    requires SamePtrs(sb, fs1, fs') && fs'.disk == fs1.disk
    ensures WroteBytes(sb, fs, fs', i, off, d) && Resaved(sb, fs, u, fs', u', i, off, e)
  {
    hide Word, Used, Ptr, Settled;
    forall j: nat, x: nat | j < |fs.inodes| && x < MAXFILE * BSIZE
      ensures ByteAt(sb, fs', j, x) == ByteAt(sb, fs1, j, x) && SavedAt(sb, fs', u', j, x) == SavedAt(sb, fs1, u', j, x)
    {
      assert ValidPlace(fs1, j, SlotOf(x / BSIZE));
    }
    hide ByteAt, SavedAt;
  }

  lemma InBlocksJoin(off: nat, n: nat, m: nat, x: nat)
    ensures InBlocks(off, n + m, x) <==> InBlocks(off, n, x) || InBlocks(off + n, m, x)
  {
  }

  /** Two writes end to end. */
  lemma ResavedJoin(sb: Super, a: Fs, u: Unsaved, b: Fs, v: Unsaved, c: Fs, w: Unsaved, i: nat, off: nat, d: seq<byte>, e: seq<byte>)
    requires Shape(sb, a) && Shape(sb, b) && Shape(sb, c) && |a.inodes| == |b.inodes| == |c.inodes|
    requires WroteBytes(sb, a, b, i, off, d) && Resaved(sb, a, u, b, v, i, off, d)
    requires Resaved(sb, b, v, c, w, i, off + |d|, e)
    ensures Resaved(sb, a, u, c, w, i, off, d + e)
  {
    hide SavedAt, ByteAt, InBlocks;
    forall j: nat, x: nat | j < |a.inodes| && x < MAXFILE * BSIZE
      ensures SavedAt(sb, c, w, j, x) == Settled(sb, a, u, i, off, d + e, j, x)
    {
      InBlocksJoin(off, |d|, |e|, x);
      InRange(off, |d|, x);
      InRange(off + |d|, |e|, x);
    }
  }

  /** A write of `d`, all counted, and then one of `e` of which `r` bytes are counted. */
  lemma PieceSaved(sb: Super, a: Fs, u: Unsaved, b: Fs, v: Unsaved, c: Fs, w: Unsaved, i: nat, off: nat, d: seq<byte>, e: seq<byte>, r: nat)
    requires Shape(sb, a) && Shape(sb, b) && Shape(sb, c) && |a.inodes| == |b.inodes| == |c.inodes| && r <= |e|
    requires WroteBytes(sb, a, b, i, off, d) && Resaved(sb, a, u, b, v, i, off, d)
    requires WroteBytes(sb, b, c, i, off + |d|, e) && Resaved(sb, b, v, c, w, i, off + |d|, e[..r])
    ensures WroteBytes(sb, a, c, i, off, d + e) && Resaved(sb, a, u, c, w, i, off, d + e[..r])
  {
    ResavedJoin(sb, a, u, b, v, c, w, i, off, d, e[..r]);
    hide ByteAt, Resaved;
  }

  lemma InRange(off: nat, n: nat, x: nat)
    ensures off <= x < off + n ==> InBlocks(off, n, x)
  {
  }

  /** After blocks were added, a write. */
  lemma GrownResaved(sb: Super, a: Fs, u: Unsaved, b: Fs, v: Unsaved, c: Fs, w: Unsaved, i: nat, at: nat, d: seq<byte>)
    requires Shape(sb, a) && Shape(sb, b) && Shape(sb, c) && |a.inodes| == |b.inodes| == |c.inodes|
    requires SameBytes(sb, a, b) && SameSaved(sb, a, u, b, v) && Resaved(sb, b, v, c, w, i, at, d)
    ensures Resaved(sb, a, u, c, w, i, at, d)
  {
    hide SavedAt, ByteAt, InBlocks;
  }

  /** What the medium holds in a block. */
  function OnDisk(disk: seq<Block>, u: Unsaved, b: nat): Block
    requires b < |disk|
  {
    if b in u then u[b] else disk[b]
  }

  /** A block of a file and its place. */
  lemma BlockPlace(sb: Super, fs: Fs, owner: map<nat, Place>, j: nat, x: nat)
    requires Owned(sb, fs, owner) && j < |fs.inodes| && x < MAXFILE * BSIZE
    ensures var c := BlockOf(sb, fs, j, x / BSIZE);
            c != 0 ==> c < sb.size && c in owner && owner[c] == (j, SlotOf(x / BSIZE))
  {
    hide Word, Used, UsedSet;
  }

  lemma SameSlot(x: nat, y: nat)
    requires x < MAXFILE && y < MAXFILE && SlotOf(x) == SlotOf(y)
    ensures x == y
  {
  }

  /** A chunk copied in and written: the whole block is saved. */
  lemma ChunkSaved(sb: Super, fs: Fs, owner: map<nat, Place>, u: Unsaved, i: nat, at: nat, d: seq<byte>, fs': Fs)
    requires Owned(sb, fs, owner) && StaleOk(sb, owner, u) && i < |fs.inodes|
    requires 0 < |d| && at % BSIZE + |d| <= BSIZE && at + |d| <= MAXFILE * BSIZE && BlockOf(sb, fs, i, at / BSIZE) != 0
    requires Shape(sb, fs') && SamePtrs(sb, fs, fs') && WroteBytes(sb, fs, fs', i, at, d)
    ensures Resaved(sb, fs, u, fs', u - {BlockOf(sb, fs, i, at / BSIZE)}, i, at, d)
  {
    hide Word, Used, UsedSet, ByteAt;
    var b := BlockOf(sb, fs, i, at / BSIZE);
    BlockPlace(sb, fs, owner, i, at);
    forall j: nat, x: nat | j < |fs.inodes| && x < MAXFILE * BSIZE
      ensures SavedAt(sb, fs', u - {b}, j, x) == Settled(sb, fs, u, i, at, d, j, x)
    {
      BlockPlace(sb, fs, owner, j, x);
      OneBlock(at, |d|, x);
      assert ValidPlace(fs, j, SlotOf(x / BSIZE));
      if BlockOf(sb, fs, j, x / BSIZE) == b { SameSlot(x / BSIZE, at / BSIZE); }
    }
  }

  lemma OneBlock(at: nat, n: nat, x: nat)
    requires 0 < n && at % BSIZE + n <= BSIZE
    ensures InBlocks(at, n, x) <==> x / BSIZE == at / BSIZE
  {
  }

  /** A chunk copied in part and released unwritten: the disk has what it had. */
  lemma ChunkStray(sb: Super, fs: Fs, owner: map<nat, Place>, u: Unsaved, i: nat, at: nat, fs': Fs)
    requires Owned(sb, fs, owner) && StaleOk(sb, owner, u) && i < |fs.inodes| && at < MAXFILE * BSIZE
    requires BlockOf(sb, fs, i, at / BSIZE) != 0 && BlockOf(sb, fs, i, at / BSIZE) < sb.size
    requires Shape(sb, fs') && SamePtrs(sb, fs, fs')
    requires fs'.disk == fs.disk[BlockOf(sb, fs, i, at / BSIZE) := fs'.disk[BlockOf(sb, fs, i, at / BSIZE)]]
    ensures var b := BlockOf(sb, fs, i, at / BSIZE);
            SameSaved(sb, fs, u, fs', u[b := OnDisk(fs.disk, u, b)])
  {
    hide Word, Used, UsedSet, Ptr;
    var b := BlockOf(sb, fs, i, at / BSIZE);
    forall j: nat, x: nat | j < |fs.inodes| && x < MAXFILE * BSIZE
      ensures SavedAt(sb, fs', u[b := OnDisk(fs.disk, u, b)], j, x) == SavedAt(sb, fs, u, j, x)
    {
      assert ValidPlace(fs, j, SlotOf(x / BSIZE));
    }
  }

  // ---- recycling a buffer

  /** Reads of block `b` see what the disk has; nothing else changes. */
  ghost predicate Reverted(sb: Super, fs: Fs, u: Unsaved, fs': Fs, u': Unsaved, b: nat)
    requires Shape(sb, fs) && Shape(sb, fs') && |fs.inodes| == |fs'.inodes|
  {
    && SameSaved(sb, fs, u, fs', u')
    && forall j: nat, x: nat :: j < |fs.inodes| && x < MAXFILE * BSIZE ==>
         ByteAt(sb, fs', j, x) == if BlockOf(sb, fs, j, x / BSIZE) == b then SavedAt(sb, fs, u, j, x) else ByteAt(sb, fs, j, x)
  }

  lemma RevertedSelf(sb: Super, fs: Fs, u: Unsaved, b: nat)
    requires Shape(sb, fs) && b !in u
    ensures SamePtrs(sb, fs, fs) && Reverted(sb, fs, u, fs, u, b)
  {
  }

  lemma RecycledSaved(sb: Super, fs: Fs, owner: map<nat, Place>, u: Unsaved, b: nat)
    requires Owned(sb, fs, owner) && StaleOk(sb, owner, u) && b in u && b < sb.size
    ensures var fs' := Fs(fs.disk[b := u[b]], fs.inodes);
            Owned(sb, fs', owner) && SamePtrs(sb, fs, fs') && StaleOk(sb, owner, u - {b}) && Reverted(sb, fs, u, fs', u - {b}, b)
  {
    hide Word, Used, UsedSet;
    var fs' := Fs(fs.disk[b := u[b]], fs.inodes);
    BlockWritePtrs(sb, fs, owner, b, u[b]);
    hide Ptr;
    forall j: nat, x: nat | j < |fs.inodes| && x < MAXFILE * BSIZE
      ensures SavedAt(sb, fs', u - {b}, j, x) == SavedAt(sb, fs, u, j, x)
      ensures ByteAt(sb, fs', j, x) == if BlockOf(sb, fs, j, x / BSIZE) == b then SavedAt(sb, fs, u, j, x) else ByteAt(sb, fs, j, x)
    {
      assert ValidPlace(fs, j, SlotOf(x / BSIZE));
    }
  }
}
