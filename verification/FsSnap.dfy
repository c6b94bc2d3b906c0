/**
  Whole states of the file system, and what an operation on one file or
  directory leaves alone.
 */
module FsSnap {
  import opened FsLayout
  import opened FsBlocks
  import opened FsEffects
  import opened FsNeeds
  import opened FsSaved

  /** A file system with its owners and its unsaved blocks. */
  datatype Snap = Snap(fs: Fs, owner: map<nat, Place>, u: Unsaved)

  ghost predicate Sound(sb: Super, a: Snap) {
    Owned(sb, a.fs, a.owner) && StaleOk(sb, a.owner, a.u)
  }

  /** Holes of `dp` may have been filled, and nothing else changed; without holes, nothing at all. */
  ghost predicate Peeked(sb: Super, dp: nat, a: Snap, b: Snap) {
    && Sound(sb, a) && Sound(sb, b) && dp < |a.fs.inodes|
    && Grown(sb, a.fs, b.fs) && Shed(a.owner, a.u, b.owner, b.u) && SameSlots(sb, a.fs, b.fs, dp)
    && (HoleFree(sb, a.fs, dp) ==> b == a)
  }

  lemma PeekedSelf(sb: Super, dp: nat, a: Snap)
    requires Sound(sb, a) && dp < |a.fs.inodes|
    ensures Peeked(sb, dp, a, a)
  {
    hide Owned, StaleOk, HoleFree, SameSlots;
    OwnedShape(sb, a.fs, a.owner);
    GrownReflexive(sb, a.fs);
    SameSlotsSelf(sb, a.fs, dp);
    ShedSelf(a.owner, a.u);
  }

  lemma PeekedJoin(sb: Super, dp: nat, a: Snap, b: Snap, c: Snap)
    requires Peeked(sb, dp, a, b) && Peeked(sb, dp, b, c)
    ensures Peeked(sb, dp, a, c)
  {
    hide Owned, StaleOk, HoleFree, SameBytes, KeptPtrs, Shed, SameSlots;
    OwnedShape(sb, a.fs, a.owner);
    GrownTransitive(sb, a.fs, b.fs, c.fs);
    SameSlotsJoin(sb, a.fs, b.fs, c.fs, dp);
    ShedJoin(a.owner, a.u, b.owner, b.u, c.owner, c.u);
  }

  lemma PeekedHoles(sb: Super, dp: nat, a: Snap, b: Snap)
    requires Peeked(sb, dp, a, b)
    ensures Shape(sb, a.fs) && Shape(sb, b.fs) && dp < |a.fs.inodes| == |b.fs.inodes|
    ensures HoleFree(sb, a.fs, dp) ==> HoleFree(sb, b.fs, dp)
    ensures Content(sb, b.fs, dp) == Content(sb, a.fs, dp) && b.fs.inodes[dp].size == a.fs.inodes[dp].size
  {
    hide Owned, StaleOk, HoleFree, SameBytes, KeptPtrs, Shed, Content, SameSlots;
    OwnedShape(sb, a.fs, a.owner);
    GrownHoleFree(sb, a.fs, b.fs, dp);
    GrownContent(sb, a.fs, b.fs, dp);
  }

  /** What an operation on `dp` keeps: every other file, as read and on the disk; and if
      `dp` read as on the disk, and had no holes, so it does afterwards. */
  ghost predicate Elsewhere(sb: Super, dp: nat, a: Snap, b: Snap) {
    && Sound(sb, a) && Sound(sb, b) && dp < |a.fs.inodes| == |b.fs.inodes|
    && SameSlots(sb, a.fs, b.fs, dp)
    && (forall j: nat :: j < |a.fs.inodes| && j != dp ==> SameFile(sb, a, b, j))
    && (Tidy(sb, a, dp) ==> Tidy(sb, b, dp))
    && (forall j: nat :: j < |a.fs.inodes| && HoleFree(sb, a.fs, j) ==> HoleFree(sb, b.fs, j))
  }

  ghost predicate SameFile(sb: Super, a: Snap, b: Snap, j: nat)
    requires Shape(sb, a.fs) && Shape(sb, b.fs) && j < |a.fs.inodes| == |b.fs.inodes|
  {
    && a.fs.inodes[j].size == b.fs.inodes[j].size
    && forall x: nat :: x < MAXFILE * BSIZE ==>
         ByteAt(sb, b.fs, j, x) == ByteAt(sb, a.fs, j, x) && SavedAt(sb, b.fs, b.u, j, x) == SavedAt(sb, a.fs, a.u, j, x)
  }

  /** Reads of file `j` see what is on the disk. */
  ghost predicate Tidy(sb: Super, a: Snap, j: nat)
    requires Shape(sb, a.fs) && j < |a.fs.inodes|
  {
    forall x: nat :: x < MAXFILE * BSIZE ==> SavedAt(sb, a.fs, a.u, j, x) == ByteAt(sb, a.fs, j, x)
  }

  lemma SameFileJoin(sb: Super, a: Snap, b: Snap, c: Snap, j: nat)
    requires Shape(sb, a.fs) && Shape(sb, b.fs) && Shape(sb, c.fs) && j < |a.fs.inodes| == |b.fs.inodes| == |c.fs.inodes|
    requires SameFile(sb, a, b, j) && SameFile(sb, b, c, j)
    ensures SameFile(sb, a, c, j)
  {
    hide ByteAt, SavedAt;
  }

  lemma ElsewhereJoin(sb: Super, dp: nat, a: Snap, b: Snap, c: Snap)
    requires Elsewhere(sb, dp, a, b) && Elsewhere(sb, dp, b, c)
    ensures Elsewhere(sb, dp, a, c)
  {
    OwnedShape(sb, a.fs, a.owner);
    OwnedShape(sb, b.fs, b.owner);
    OwnedShape(sb, c.fs, c.owner);
    hide Owned, StaleOk, HoleFree, SameFile, Tidy, SameSlots;
    SameSlotsJoin(sb, a.fs, b.fs, c.fs, dp);
    forall j: nat | j < |a.fs.inodes| && j != dp
      ensures SameFile(sb, a, c, j)
    {
      SameFileJoin(sb, a, b, c, j);
    }
  }

  lemma PeekedElsewhere(sb: Super, dp: nat, a: Snap, b: Snap)
    requires Peeked(sb, dp, a, b)
    ensures Elsewhere(sb, dp, a, b)
  {
    OwnedShape(sb, a.fs, a.owner);
    GrownSaved(sb, a.fs, a.owner, a.u, b.fs, b.owner, b.u);
    hide Owned, StaleOk, HoleFree, ByteAt, SavedAt, KeptPtrs, SameSlots;
    forall j: nat | j < |a.fs.inodes| && HoleFree(sb, a.fs, j)
      ensures HoleFree(sb, b.fs, j)
    {
      GrownHoleFree(sb, a.fs, b.fs, j);
    }
  }

  /** The inodes of all other files are as they were. */
  ghost predicate SameInodes(a: seq<Inode>, b: seq<Inode>, i: nat) {
    |a| == |b| && forall j: nat :: j < |a| && j != i ==> b[j] == a[j]
  }

  lemma SlotsInodes(sb: Super, a: Fs, b: Fs, i: nat)
    requires SameSlots(sb, a, b, i) && forall j: nat :: j < |a.inodes| && j != i ==> b.inodes[j].size == a.inodes[j].size
    ensures SameInodes(a.inodes, b.inodes, i)
  {
    forall j: nat | j < |a.inodes| && j != i
      ensures b.inodes[j] == a.inodes[j]
    {
      assert InodeShape(sb, a.inodes[j]) && InodeShape(sb, b.inodes[j]);
      forall k: nat | k <= NDIRECT
        ensures b.inodes[j].addrs[k] == a.inodes[j].addrs[k]
      {
        assert ValidPlace(a, j, k);
        assert Ptr(sb, a, j, k) == a.inodes[j].addrs[k] && Ptr(sb, b, j, k) == b.inodes[j].addrs[k];
      }
      assert b.inodes[j].addrs == a.inodes[j].addrs;
    }
  }

  lemma ElsewhereInodes(sb: Super, dp: nat, a: Snap, b: Snap)
    requires Elsewhere(sb, dp, a, b)
    ensures SameInodes(a.fs.inodes, b.fs.inodes, dp)
  {
    OwnedShape(sb, a.fs, a.owner);
    OwnedShape(sb, b.fs, b.owner);
    hide Owned, StaleOk, HoleFree, Tidy, SameSlots, ByteAt, SavedAt;
    forall j: nat | j < |a.fs.inodes| && j != dp
      ensures b.fs.inodes[j].size == a.fs.inodes[j].size
    {
      assert SameFile(sb, a, b, j);
    }
    SlotsInodes(sb, a.fs, b.fs, dp);
  }
}
