/**
  What the operations of the file system do to the files, as relations between
  states: blocks added, bytes written, sizes changed.
 */
module FsEffects {
  import opened Common
  import opened FsLayout
  import opened FsBlocks

  /** Every block of the disk is in use. */
  ghost predicate Full(sb: Super, fs: Fs)
    requires WellSized(sb, fs.disk)
  {
    forall c :: 0 <= c < sb.size ==> c in UsedSet(sb, fs.disk)
  }

  /** No file has a hole. */
  ghost predicate Solid(sb: Super, fs: Fs)
    requires Shape(sb, fs)
  {
    forall i: nat :: i < |fs.inodes| ==> HoleFree(sb, fs, i)
  }

  /** Blocks were added to files, and nothing else can be seen to change. */
  ghost predicate Grown(sb: Super, fs: Fs, fs': Fs)
    requires Shape(sb, fs)
  {
    && Shape(sb, fs') && |fs'.inodes| == |fs.inodes|
    && KeptPtrs(sb, fs, fs')
    && SameBytes(sb, fs, fs')
    && forall i :: 0 <= i < |fs.inodes| ==> fs'.inodes[i].size == fs.inodes[i].size
  }

  ghost predicate KeptPtrs(sb: Super, fs: Fs, fs': Fs)
    requires Shape(sb, fs) && Shape(sb, fs') && |fs'.inodes| == |fs.inodes|
  {
    forall i: nat, k: nat :: ValidPlace(fs, i, k) && Ptr(sb, fs, i, k) != 0 ==> Ptr(sb, fs', i, k) == Ptr(sb, fs, i, k)
  }

  lemma GrownReflexive(sb: Super, fs: Fs)
    requires Shape(sb, fs)
    ensures Grown(sb, fs, fs)
  {
  }

  lemma GrownTransitive(sb: Super, a: Fs, b: Fs, c: Fs)
    requires Shape(sb, a) && Grown(sb, a, b) && Grown(sb, b, c)
    ensures Grown(sb, a, c)
  {
    hide Word, Used, ByteAt, Ptr;
  }

  lemma PlacedGrown(sb: Super, fs: Fs, owner: map<nat, Place>, i: nat, k: nat, b: nat)
    requires CanTake(sb, fs, owner, i, k, b)
    ensures Grown(sb, fs, Placed(sb, fs, i, k, b))
  {
    hide Word, Used, ByteAt;
    PlacedOwned(sb, fs, owner, i, k, b);
  }

  /** Bit `bi` of the bitmap block that starts at block `b` is the bit of block b + bi. */
  lemma BitOf(sb: Super, disk: seq<Block>, b: nat, bi: nat)
    requires WellSized(sb, disk) && b % BPB == 0 && bi < BPB && b + bi < sb.size
    ensures MapBlock(sb, b + bi) == MapBlock(sb, b)
    ensures (b + bi in UsedSet(sb, disk)) == Bit(disk[MapBlock(sb, b)][bi / 8], bi % 8)
    ensures MarkUsed(sb, disk, b + bi) ==
            disk[MapBlock(sb, b) := disk[MapBlock(sb, b)][bi / 8 := SetBit(disk[MapBlock(sb, b)][bi / 8], bi % 8)]]
  {
    hide Bit, SetBit;
    assert (b + bi) / BPB == b / BPB && (b + bi) % BPB == bi;
  }

  ghost predicate DataKept(sb: Super, disk: seq<Block>, disk': seq<Block>)
    requires WellSized(sb, disk) && WellSized(sb, disk')
  {
    forall c :: sb.dataStart <= c < sb.size ==> disk'[c] == disk[c]
  }

  lemma EmptyTail(sb: Super, fs: Fs, owner: map<nat, Place>, i: nat)
    requires Owned(sb, fs, owner) && i < |fs.inodes| && fs.inodes[i].addrs[NDIRECT] == 0
    ensures Slots(owner, i, 0, NSLOT) == Slots(owner, i, 0, NDIRECT)
  {
    hide Word, Used;
    forall b | b in Slots(owner, i, 0, NSLOT)
      ensures b in Slots(owner, i, 0, NDIRECT)
    {
      assert Ptr(sb, fs, owner[b].0, owner[b].1) == b;
    }
  }

  /** How many of `n` bytes at `off` lie inside a file of `size` bytes. */
  function Readable(size: nat, off: nat, n: nat): (r: nat)
    ensures off > size || off + n >= U32 ==> r == 0
    ensures off <= size && off + n < U32 ==> r <= n && off + r <= size && (r == n || off + r == size)
  {
    if off > size || off + n >= U32 then 0 else if off + n > size then size - off else n
  }

  /** Part of one block is part of the file. */
  lemma ChunkRead(sb: Super, fs: Fs, owner: map<nat, Place>, i: nat, at: nat, m: nat)
    requires Owned(sb, fs, owner) && i < |fs.inodes|
    requires 0 < m && at + m <= fs.inodes[i].size && at % BSIZE + m <= BSIZE
    requires BlockOf(sb, fs, i, at / BSIZE) != 0
    ensures sb.dataStart <= BlockOf(sb, fs, i, at / BSIZE) < sb.size
    ensures fs.disk[BlockOf(sb, fs, i, at / BSIZE)][at % BSIZE..at % BSIZE + m] == Content(sb, fs, i)[at..at + m]
  {
    hide Word, Used;
    var b := BlockOf(sb, fs, i, at / BSIZE);
    assert b in owner;
    var d := fs.disk[b][at % BSIZE..at % BSIZE + m];
    forall t | 0 <= t < m
      ensures d[t] == Content(sb, fs, i)[at..at + m][t]
    {
      assert (at + t) / BSIZE == at / BSIZE && (at + t) % BSIZE == at % BSIZE + t;
      assert d[t] == fs.disk[b][(at + t) % BSIZE] == ByteAt(sb, fs, i, at + t);
      assert Content(sb, fs, i)[at..at + m][t] == Content(sb, fs, i)[at + t];
    }
  }

  lemma GrownContent(sb: Super, fs: Fs, fs': Fs, i: nat)
    requires Shape(sb, fs) && Grown(sb, fs, fs') && i < |fs.inodes|
    ensures Content(sb, fs', i) == Content(sb, fs, i)
  {
    hide Word, Used, ByteAt, Ptr;
  }

  lemma GrownHoleFree(sb: Super, fs: Fs, fs': Fs, i: nat)
    requires Shape(sb, fs) && Grown(sb, fs, fs') && i < |fs.inodes|
    ensures HoleFree(sb, fs, i) ==> HoleFree(sb, fs', i)
  {
    hide Word, Used, ByteAt, Ptr;
    forall bn: nat | bn < MAXFILE && BlockOf(sb, fs, i, bn) != 0
      ensures BlockOf(sb, fs', i, bn) != 0
    {
      assert ValidPlace(fs, i, SlotOf(bn));
    }
  }

  ghost predicate SameSizes(a: seq<Inode>, b: seq<Inode>) {
    |a| == |b| && forall i :: 0 <= i < |a| ==> b[i].size == a[i].size
  }

  /** How many of `n` bytes written at `off` count when `avail` of them can be copied in:
      those of the blocks before the one the copy faults in. */
  function Whole(off: nat, n: nat, avail: nat): (r: nat)
    requires avail <= n
    ensures r <= avail
  {
    if avail == n then n
    else if (off + avail) / BSIZE == off / BSIZE then 0
    else (off + avail) / BSIZE * BSIZE - off
  }

  /** All of them, or those before the fault, in its block, where a block begins. */
  lemma WholeMeans(off: nat, n: nat, avail: nat)
    requires avail <= n
    ensures var r := Whole(off, n, avail);
            && r <= avail && (avail == n ==> r == n)
            && (avail < n ==> (off + r) / BSIZE == (off + avail) / BSIZE && (r == 0 || (off + r) % BSIZE == 0))
  {
    if avail < n && (off + avail) / BSIZE != off / BSIZE {
      var bn := (off + avail) / BSIZE;
      assert bn * BSIZE / BSIZE == bn && bn * BSIZE % BSIZE == 0 && off < bn * BSIZE;
    }
  }

  function Max(a: nat, b: nat): nat { if a < b then b else a }

  /** `c` with `d` copied over it from `off` on, growing if need be. */
  function Splice(c: seq<byte>, off: nat, d: seq<byte>): (r: seq<byte>)
    requires off <= |c|
    ensures |r| == Max(|c|, off + |d|)
  {
    c[..off] + d + if off + |d| < |c| then c[off + |d|..] else []
  }

  /** The outcome of a write that reports `r` bytes and let `d` reach the blocks. */
  ghost predicate Wrote(sb: Super, fs: Fs, fs': Fs, i: nat, off: nat, d: seq<byte>, r: nat)
    requires Shape(sb, fs) && i < |fs.inodes| && off <= fs.inodes[i].size && r <= |d|
  {
    && Shape(sb, fs') && |fs'.inodes| == |fs.inodes|
    && KeptPtrs(sb, fs, fs')
    && fs'.inodes[i].size == Max(fs.inodes[i].size, off + r)
    && Content(sb, fs', i) == Splice(Content(sb, fs, i), off, d)[..fs'.inodes[i].size]
    && forall j: nat :: j < |fs.inodes| && j != i ==> Content(sb, fs', j) == Content(sb, fs, j)
  }

  lemma WroteNothing(sb: Super, fs: Fs, i: nat, off: nat)
    requires Shape(sb, fs)
    ensures KeptPtrs(sb, fs, fs) && SamePtrs(sb, fs, fs) && WroteBytes(sb, fs, fs, i, off, [])
  {
  }

  lemma GrownWrote(sb: Super, a: Fs, b: Fs, c: Fs, i: nat, at: nat, d: seq<byte>)
    requires Shape(sb, a) && Shape(sb, c) && Grown(sb, a, b) && |b.inodes| == |c.inodes|
    requires SamePtrs(sb, b, c) && WroteBytes(sb, b, c, i, at, d)
    ensures KeptPtrs(sb, a, c) && WroteBytes(sb, a, c, i, at, d)
  {
    hide Word, Used, ByteAt, Ptr;
  }

  lemma Consecutive(s: seq<byte>, k: nat, m: nat)
    requires k + m <= |s|
    ensures s[..k] + s[k..][..m] == s[..k + m]
  {
  }

  lemma WroteMore(sb: Super, a: Fs, b: Fs, c: Fs, i: nat, off: nat, d: seq<byte>, e: seq<byte>)
    requires Shape(sb, a) && Shape(sb, b) && Shape(sb, c) && |a.inodes| == |b.inodes| == |c.inodes|
    requires KeptPtrs(sb, a, b) && KeptPtrs(sb, b, c)
    requires WroteBytes(sb, a, b, i, off, d) && WroteBytes(sb, b, c, i, off + |d|, e)
    ensures KeptPtrs(sb, a, c) && WroteBytes(sb, a, c, i, off, d + e)
  {
    hide Word, Used, ByteAt, Ptr;
  }

  /** Every block touched by the bytes off..off+tot exists. */
  ghost predicate Filled(sb: Super, fs: Fs, i: nat, off: nat, tot: nat)
    requires Shape(sb, fs) && i < |fs.inodes|
  {
    forall bn: nat :: bn < MAXFILE && off / BSIZE <= bn && bn * BSIZE < off + tot ==> tot == 0 || BlockOf(sb, fs, i, bn) != 0
  }

  lemma FilledMore(sb: Super, fs: Fs, fs': Fs, i: nat, off: nat, tot: nat, m: nat)
    requires Shape(sb, fs) && Shape(sb, fs') && |fs.inodes| == |fs'.inodes| && i < |fs.inodes|
    requires KeptPtrs(sb, fs, fs') && Filled(sb, fs, i, off, tot)
    requires 0 < m ==> off + tot < MAXFILE * BSIZE && BlockOf(sb, fs', i, (off + tot) / BSIZE) != 0
    requires (off + tot) % BSIZE + m <= BSIZE
    ensures Filled(sb, fs', i, off, tot + m)
  {
    hide Word, Used, Ptr;
    forall bn: nat | bn < MAXFILE && off / BSIZE <= bn && bn * BSIZE < off + tot + m && 0 < tot + m
      ensures BlockOf(sb, fs', i, bn) != 0
    {
      if m == 0 || bn != (off + tot) / BSIZE {
        assert BlockOf(sb, fs, i, bn) != 0;
        assert ValidPlace(fs, i, SlotOf(bn));
      }
    }
  }

  lemma OwnedShape(sb: Super, fs: Fs, owner: map<nat, Place>)
    requires Owned(sb, fs, owner)
    ensures Shape(sb, fs)
    ensures forall i :: 0 <= i < |fs.inodes| ==> fs.inodes[i].size <= MAXFILE * BSIZE
  {
    assert forall i :: 0 <= i < |fs.inodes| ==> InodeShape(sb, fs.inodes[i]);
  }

  /** Changing a size moves no pointer. */
  lemma Resized(sb: Super, fs: Fs, fs': Fs, owner: map<nat, Place>, i: nat)
    requires Owned(sb, fs, owner) && i < |fs.inodes| == |fs'.inodes|
    requires fs'.disk == fs.disk && fs'.inodes[i].addrs == fs.inodes[i].addrs && fs'.inodes[i].size <= MAXFILE * BSIZE
    requires fs'.inodes == fs.inodes[i := fs'.inodes[i]]
    ensures Owned(sb, fs', owner) && SamePtrs(sb, fs, fs')
  {
    hide Word, Used;
    assert InodeShape(sb, fs'.inodes[i]);
    forall j: nat, l: nat | ValidPlace(fs, j, l)
      ensures Ptr(sb, fs', j, l) == Ptr(sb, fs, j, l)
    {
    }
  }

  lemma WroteResized(sb: Super, fs: Fs, fs1: Fs, fs': Fs, i: nat, off: nat, d: seq<byte>, r: nat)
    requires Shape(sb, fs) && Shape(sb, fs1) && Shape(sb, fs') && |fs.inodes| == |fs1.inodes| == |fs'.inodes|
    requires i < |fs.inodes| && off <= fs.inodes[i].size && r <= |d|
    requires KeptPtrs(sb, fs, fs1) && WroteBytes(sb, fs, fs1, i, off, d) && SameSizes(fs.inodes, fs1.inodes)
    requires SamePtrs(sb, fs1, fs') && fs'.disk == fs1.disk
    requires fs'.inodes == fs1.inodes[i := fs'.inodes[i]]
    requires fs'.inodes[i].size == Max(fs.inodes[i].size, off + r)
    requires Filled(sb, fs1, i, off, r)
    ensures Wrote(sb, fs, fs', i, off, d, r)
    ensures HoleFree(sb, fs, i) ==> HoleFree(sb, fs', i)
  {
    hide Word, Used, Ptr;
    forall bn: nat | HoleFree(sb, fs, i) && bn < MAXFILE && bn * BSIZE < fs'.inodes[i].size
      ensures BlockOf(sb, fs', i, bn) != 0
    {
      assert ValidPlace(fs, i, SlotOf(bn));
      if bn * BSIZE < fs.inodes[i].size { assert BlockOf(sb, fs, i, bn) != 0; }
      assert BlockOf(sb, fs1, i, bn) != 0;
    }
  }

  const PIECE: nat := 3072

  /** How many of `n` bytes at `off` the pieces can hold before the largest file size. */
  function Pieces(off: nat, n: nat): nat
    requires off <= MAXFILE * BSIZE
  {
    if off + n <= MAXFILE * BSIZE then n else (MAXFILE * BSIZE - off) / PIECE * PIECE
  }

  lemma WroteZero(sb: Super, fs: Fs, i: nat, off: nat)
    requires Shape(sb, fs) && i < |fs.inodes| && off <= fs.inodes[i].size
    ensures Wrote(sb, fs, fs, i, off, [], 0)
  {
  }

  /** Two writes end to end are one write. */
  lemma WroteJoin(sb: Super, a: Fs, b: Fs, c: Fs, i: nat, off: nat, d: seq<byte>, e: seq<byte>, r: nat)
    requires Shape(sb, a) && i < |a.inodes| && off <= a.inodes[i].size && Wrote(sb, a, b, i, off, d, |d|)
    requires off + |d| <= b.inodes[i].size && r <= |e| && Wrote(sb, b, c, i, off + |d|, e, r)
    ensures Wrote(sb, a, c, i, off, d + e, |d| + r)
    ensures off + |d| + r <= c.inodes[i].size
  {
    hide Word, Used, ByteAt, Ptr, Content, Splice;
    var whole := Splice(Content(sb, a, i), off, d);
    assert whole[..b.inodes[i].size] == whole;
    SpliceJoin(Content(sb, a, i), off, d, e);
    forall j: nat | j < |a.inodes| && j != i
      ensures Content(sb, c, j) == Content(sb, a, j)
    {
      assert Content(sb, c, j) == Content(sb, b, j);
    }
  }

  lemma SpliceJoin(c: seq<byte>, off: nat, d: seq<byte>, e: seq<byte>)
    requires off <= |c|
    ensures Splice(Splice(c, off, d), off + |d|, e) == Splice(c, off, d + e)
  {
  }

  /** The piece that would pass the largest file size is where the pieces stop. */
  lemma PiecesStop(off: nat, k: nat, n: nat)
    requires k < n && k % PIECE == 0 && off + k <= MAXFILE * BSIZE
    requires off + k + (if n - k > PIECE then PIECE else n - k) > MAXFILE * BSIZE
    ensures Pieces(off, n) == k
  {
  }

  lemma Middle(s: seq<byte>, k: nat, n: nat, m: nat)
    requires m <= n && k + n <= |s|
    ensures s[k..k + n][..m] == s[k..k + m] && s[..k] + s[k..k + m] == s[..k + m]
  {
  }
}
