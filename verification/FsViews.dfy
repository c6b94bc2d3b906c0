/**
  From states of the file system to what callers see of them.
 */
module FsViews {
  import opened Common
  import opened FsLayout
  import opened FsBlocks
  import opened FsEffects
  import opened FsSaved
  import opened FsSnap
  import opened DirFormat
  import opened FsNodes

  type Names = map<seq<byte>, nat>

  /** The directories, each with the slots of its names. */
  type Dirs = map<nat, Names>

  function SavedContent(sb: Super, a: Snap, i: nat): (c: seq<byte>)
    requires Shape(sb, a.fs) && i < |a.fs.inodes|
    ensures |c| == a.fs.inodes[i].size
  {
    seq(a.fs.inodes[i].size, x requires 0 <= x < a.fs.inodes[i].size => SavedAt(sb, a.fs, a.u, i, x))
  }

  ghost predicate IsDirAt(sb: Super, a: Snap, dirs: Dirs, i: nat)
    requires Shape(sb, a.fs)
  {
    i in dirs ==> i < |a.fs.inodes| && IsDir(Content(sb, a.fs, i), dirs[i]) && Tidy(sb, a, i)
  }

  /** A sound state whose directories are directories, and safe on the disk. */
  ghost predicate Ready(sb: Super, a: Snap, dirs: Dirs) {
    Sound(sb, a) && forall i: nat {:trigger IsDirAt(sb, a, dirs, i)} :: IsDirAt(sb, a, dirs, i)
  }

  ghost function NodeOf(sb: Super, a: Snap, dirs: Dirs, i: nat): Node
    requires Shape(sb, a.fs) && IsDirAt(sb, a, dirs, i) && i < |a.fs.inodes|
  {
    if i in dirs then Dir(Bindings(Content(sb, a.fs, i), dirs[i])) else File(Content(sb, a.fs, i), SavedContent(sb, a, i))
  }

  ghost function View(sb: Super, a: Snap, dirs: Dirs): (ns: seq<Node>)
    requires Ready(sb, a, dirs)
    ensures |ns| == |a.fs.inodes|
  {
    OwnedShape(sb, a.fs, a.owner);
    seq(|a.fs.inodes|, i requires 0 <= i < |a.fs.inodes| => assert IsDirAt(sb, a, dirs, i); NodeOf(sb, a, dirs, i))
  }

  lemma ViewAt(sb: Super, a: Snap, dirs: Dirs, i: nat)
    requires Ready(sb, a, dirs) && i < |a.fs.inodes|
    ensures Shape(sb, a.fs) && IsDirAt(sb, a, dirs, i) && View(sb, a, dirs)[i] == NodeOf(sb, a, dirs, i)
  {
    OwnedShape(sb, a.fs, a.owner);
    assert IsDirAt(sb, a, dirs, i);
  }

  lemma SameNode(sb: Super, a: Snap, b: Snap, dirs: Dirs, dirs': Dirs, j: nat)
    requires Shape(sb, a.fs) && Shape(sb, b.fs) && j < |a.fs.inodes| == |b.fs.inodes| && SameFile(sb, a, b, j)
    requires IsDirAt(sb, a, dirs, j) && (j in dirs' <==> j in dirs) && (j in dirs ==> dirs'[j] == dirs[j])
    ensures IsDirAt(sb, b, dirs', j) && NodeOf(sb, b, dirs', j) == NodeOf(sb, a, dirs, j)
  {
    hide ByteAt, SavedAt;
    assert Content(sb, b.fs, j) == Content(sb, a.fs, j);
    assert SavedContent(sb, b, j) == SavedContent(sb, a, j);
  }

  /** Only file or directory `i` changed. */
  lemma OnlyNode(sb: Super, a: Snap, b: Snap, dirs: Dirs, dirs': Dirs, i: nat)
    requires Ready(sb, a, dirs) && Sound(sb, b) && i < |a.fs.inodes| == |b.fs.inodes|
    requires forall j :: j != i ==> (j in dirs' <==> j in dirs) && (j in dirs ==> dirs'[j] == dirs[j])
    requires Shape(sb, a.fs) && Shape(sb, b.fs) && forall j: nat :: j < |a.fs.inodes| && j != i ==> SameFile(sb, a, b, j)
    requires IsDirAt(sb, b, dirs', i)
    ensures Ready(sb, b, dirs') && View(sb, b, dirs') == View(sb, a, dirs)[i := NodeOf(sb, b, dirs', i)]
  {
    hide Owned, StaleOk, SameFile, NodeOf, IsDirAt;
    forall j: nat | j < |a.fs.inodes| && j != i
      ensures IsDirAt(sb, b, dirs', j) && IsDirAt(sb, a, dirs, j) && NodeOf(sb, b, dirs', j) == NodeOf(sb, a, dirs, j)
    {
      ViewAt(sb, a, dirs, j);
      SameNode(sb, a, b, dirs, dirs', j);
    }
    forall j: nat
      ensures IsDirAt(sb, b, dirs', j)
    {
      if j >= |a.fs.inodes| { Beyond(sb, a, dirs, j); Outside(sb, b, dirs', j); }
    }
    assert Ready(sb, b, dirs');
    ViewAt(sb, b, dirs', i);
    forall j: nat | j < |a.fs.inodes|
      ensures View(sb, b, dirs')[j] == View(sb, a, dirs)[i := NodeOf(sb, b, dirs', i)][j]
    {
      ViewAt(sb, b, dirs', j);
      ViewAt(sb, a, dirs, j);
    }
  }

  lemma Beyond(sb: Super, a: Snap, dirs: Dirs, j: nat)
    requires Ready(sb, a, dirs) && j >= |a.fs.inodes|
    ensures j !in dirs
  {
    OwnedShape(sb, a.fs, a.owner);
    assert IsDirAt(sb, a, dirs, j);
  }

  lemma Outside(sb: Super, a: Snap, dirs: Dirs, j: nat)
    requires Shape(sb, a.fs) && j !in dirs
    ensures IsDirAt(sb, a, dirs, j)
  {
  }

  /** A call that only looked. */
  lemma PeekedView(sb: Super, a: Snap, b: Snap, dirs: Dirs, i: nat)
    requires Ready(sb, a, dirs) && Peeked(sb, i, a, b)
    ensures Ready(sb, b, dirs) && View(sb, b, dirs) == View(sb, a, dirs)
  {
    OwnedShape(sb, a.fs, a.owner);
    OwnedShape(sb, b.fs, b.owner);
    GrownSaved(sb, a.fs, a.owner, a.u, b.fs, b.owner, b.u);
    hide Owned, StaleOk, ByteAt, SavedAt, KeptPtrs, HoleFree;
    forall j: nat | j < |a.fs.inodes|
      ensures SameFile(sb, a, b, j)
    {
    }
    hide SameFile;
    ViewAt(sb, a, dirs, i);
    SameNode(sb, a, b, dirs, dirs, i);
    OnlyNode(sb, a, b, dirs, dirs, i);
  }

  // ---- writes

  lemma {:induction false} WrittenView(sb: Super, a: Snap, b: Snap, i: nat, off: nat, src: seq<byte>, r: nat, stray: nat)
    requires Shape(sb, a.fs) && Shape(sb, b.fs) && i < |a.fs.inodes| == |b.fs.inodes| && off <= a.fs.inodes[i].size
    requires r <= stray <= |src|
    requires Wrote(sb, a.fs, b.fs, i, off, src[..stray], r) && Resaved(sb, a.fs, a.u, b.fs, b.u, i, off, src[..r])
    ensures Written(File(Content(sb, a.fs, i), SavedContent(sb, a, i)), File(Content(sb, b.fs, i), SavedContent(sb, b, i)), off, src, r, stray)
  {
    hide ByteAt, SavedAt, Splice, KeptPtrs, InBlocks;
    var f := File(Content(sb, a.fs, i), SavedContent(sb, a, i));
    var s := SavedContent(sb, b, i);
    SizeBound(sb, b.fs, i);
    SizeBound(sb, a.fs, i);
    forall x: nat | x < |s|
      ensures s[x] == SavedByte(f, off, src, r, x)
    {
      InRange(off, r, x);
      assert s[x] == SavedAt(sb, b.fs, b.u, i, x) == Settled(sb, a.fs, a.u, i, off, src[..r], i, x);
    }
  }

  lemma SizeBound(sb: Super, fs: Fs, i: nat)
    requires Shape(sb, fs) && i < |fs.inodes|
    ensures fs.inodes[i].size <= MAXFILE * BSIZE
  {
    assert InodeShape(sb, fs.inodes[i]);
  }

  lemma WroteOthers(sb: Super, a: Snap, b: Snap, i: nat, off: nat, src: seq<byte>, r: nat, stray: nat)
    requires Shape(sb, a.fs) && Shape(sb, b.fs) && i < |a.fs.inodes| == |b.fs.inodes| && off <= a.fs.inodes[i].size
    requires r <= stray <= |src| && Wrote(sb, a.fs, b.fs, i, off, src[..stray], r) && WroteBytes(sb, a.fs, b.fs, i, off, src[..stray])
    requires Resaved(sb, a.fs, a.u, b.fs, b.u, i, off, src[..r])
    ensures forall j: nat :: j < |a.fs.inodes| && j != i ==> SameFile(sb, a, b, j)
  {
    hide ByteAt, SavedAt, Splice, KeptPtrs, InBlocks, Content;
    forall j: nat | j < |a.fs.inodes| && j != i
      ensures SameFile(sb, a, b, j)
    {
      assert |Content(sb, b.fs, j)| == |Content(sb, a.fs, j)|;
    }
  }

  // ---- recycling

  /** A file that the recycled block does not belong to, or in which it was saved. */
  lemma RevertedSame(sb: Super, a: Snap, b: Snap, block: nat, j: nat)
    requires Sound(sb, a) && Shape(sb, a.fs) && Shape(sb, b.fs) && b.fs.inodes == a.fs.inodes && j < |a.fs.inodes|
    requires Reverted(sb, a.fs, a.u, b.fs, b.u, block)
    requires block !in a.u || !(block in a.owner && a.owner[block].0 == j) || Tidy(sb, a, j)
    ensures SameFile(sb, a, b, j)
  {
    hide Owned, StaleOk;
    forall x: nat | x < MAXFILE * BSIZE
      ensures ByteAt(sb, b.fs, j, x) == ByteAt(sb, a.fs, j, x)
    {
      BlockPlace(sb, a.fs, a.owner, j, x);
      if BlockOf(sb, a.fs, j, x / BSIZE) == 0 { ZeroStale(sb, a, j, x); }
    }
    hide ByteAt, SavedAt;
  }

  /** The file the block belongs to: that block of it reads as on the disk. */
  lemma RevertedFile(sb: Super, a: Snap, b: Snap, block: nat, i: nat, bn: nat)
    requires Sound(sb, a) && Shape(sb, a.fs) && Shape(sb, b.fs) && b.fs.inodes == a.fs.inodes && i < |a.fs.inodes|
    requires Reverted(sb, a.fs, a.u, b.fs, b.u, block) && bn < MAXFILE && BlockOf(sb, a.fs, i, bn) == block != 0
    ensures File(Content(sb, b.fs, i), SavedContent(sb, b, i)) == Reread(File(Content(sb, a.fs, i), SavedContent(sb, a, i)), bn)
  {
    hide Owned, StaleOk;
    SizeBound(sb, a.fs, i);
    forall x: nat | x < a.fs.inodes[i].size
      ensures ByteAt(sb, b.fs, i, x) == if x / BSIZE == bn then SavedAt(sb, a.fs, a.u, i, x) else ByteAt(sb, a.fs, i, x)
      ensures SavedAt(sb, b.fs, b.u, i, x) == SavedAt(sb, a.fs, a.u, i, x)
    {
      BlockPlace(sb, a.fs, a.owner, i, x);
      BlockPlace(sb, a.fs, a.owner, i, bn * BSIZE);
      if BlockOf(sb, a.fs, i, x / BSIZE) == block { SameSlot(x / BSIZE, bn); }
    }
    hide ByteAt, SavedAt;
    assert Content(sb, b.fs, i) == Reread(File(Content(sb, a.fs, i), SavedContent(sb, a, i)), bn).seen;
    assert SavedContent(sb, b, i) == SavedContent(sb, a, i);
  }

  lemma OwnedBlock(sb: Super, a: Snap, block: nat) returns (i: nat, bn: nat)
    requires Sound(sb, a) && Shape(sb, a.fs) && block in a.u && block in a.owner
    ensures i == a.owner[block].0 && i < |a.fs.inodes| && bn < MAXFILE && BlockOf(sb, a.fs, i, bn) == block != 0
  {
    hide Word, Used, UsedSet;
    var p := a.owner[block];
    i, bn := p.0, if p.1 < NDIRECT then p.1 else p.1 - 1;
    assert SlotOf(bn) == p.1;
  }

  lemma RecycledView(sb: Super, a: Snap, b: Snap, dirs: Dirs, block: nat)
    requires Ready(sb, a, dirs) && Sound(sb, b) && b.fs.inodes == a.fs.inodes && Shape(sb, a.fs) && Shape(sb, b.fs)
    requires Reverted(sb, a.fs, a.u, b.fs, b.u, block)
    ensures Ready(sb, b, dirs)
    ensures View(sb, b, dirs) == View(sb, a, dirs) || exists i: nat, bn: nat :: Reverts(View(sb, a, dirs), View(sb, b, dirs), i, bn)
  {
    hide Owned, StaleOk, ByteAt, SavedAt, SameFile, NodeOf, IsDirAt, Reverted, View, Reread;
    if |a.fs.inodes| == 0 {
      NoView(sb, a, b, dirs);
      return;
    }
    var i: nat, bn: nat, owned := 0, 0, block in a.u && block in a.owner;
    if owned {
      i, bn := OwnedBlock(sb, a, block);
    }
    forall j: nat | j < |a.fs.inodes| && j != i
      ensures SameFile(sb, a, b, j)
    {
      RevertedSame(sb, a, b, block, j);
    }
    ViewAt(sb, a, dirs, i);
    if !owned || i in dirs {
      DirTidy(sb, a, dirs, i);
      RevertedSame(sb, a, b, block, i);
      SameNode(sb, a, b, dirs, dirs, i);
      OnlyNode(sb, a, b, dirs, dirs, i);
    } else {
      RevertedFile(sb, a, b, block, i, bn);
      Outside(sb, b, dirs, i);
      OnlyNode(sb, a, b, dirs, dirs, i);
      FileNode(sb, a, dirs, i);
      FileNode(sb, b, dirs, i);
      assert Reverts(View(sb, a, dirs), View(sb, b, dirs), i, bn);
    }
  }

  lemma NoView(sb: Super, a: Snap, b: Snap, dirs: Dirs)
    requires Ready(sb, a, dirs) && Sound(sb, b) && |a.fs.inodes| == |b.fs.inodes| == 0
    ensures Ready(sb, b, dirs) && View(sb, b, dirs) == View(sb, a, dirs)
  {
    OwnedShape(sb, a.fs, a.owner);
    OwnedShape(sb, b.fs, b.owner);
    forall j: nat
      ensures IsDirAt(sb, b, dirs, j)
    {
      Beyond(sb, a, dirs, j);
    }
    hide Owned;
    assert View(sb, a, dirs) == [] && View(sb, b, dirs) == [];
  }

  lemma DirTidy(sb: Super, a: Snap, dirs: Dirs, i: nat)
    requires Shape(sb, a.fs) && IsDirAt(sb, a, dirs, i)
    ensures i in dirs ==> i < |a.fs.inodes| && Tidy(sb, a, i)
  {
  }

  lemma FileNode(sb: Super, a: Snap, dirs: Dirs, i: nat)
    requires Shape(sb, a.fs) && IsDirAt(sb, a, dirs, i) && i < |a.fs.inodes| && i !in dirs
    ensures NodeOf(sb, a, dirs, i) == File(Content(sb, a.fs, i), SavedContent(sb, a, i))
  {
  }

  lemma ZeroStale(sb: Super, a: Snap, j: nat, x: nat)
    requires Sound(sb, a) && Shape(sb, a.fs) && j < |a.fs.inodes| && x < MAXFILE * BSIZE && BlockOf(sb, a.fs, j, x / BSIZE) == 0
    ensures SavedAt(sb, a.fs, a.u, j, x) == ByteAt(sb, a.fs, j, x)
  {
    hide Owned;
  }
}
