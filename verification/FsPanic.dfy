/**
  A panic that can be reached from every image whose root directory fills its blocks:
  files are written until the disk is full, and then a name is looked up that the
  root does not have.
 */
module FsPanic {
  import opened Common
  import opened FsLayout
  import opened FsBlocks
  import opened FsEffects
  import opened FsNeeds
  import opened FsSaved
  import opened FsSnap
  import opened FileSystem
  import opened DirFormat
  import opened Directory
  import opened FsMeans
  import Mkfs
  import MkfsRoot

  /** Files enough that, each of the largest size, they would not fit on the disk. */
  const MANY: nat := 8

  // ---- the disk is smaller than eight of the largest files

  function Elements(s: seq<nat>): set<nat> {
    set k | 0 <= k < |s| :: s[k]
  }

  lemma {:induction false} DistinctFew(s: seq<nat>, n: nat)
    requires (forall j, k :: 0 <= j < k < |s| ==> s[j] != s[k]) && forall k :: 0 <= k < |s| ==> s[k] < n
    ensures |s| <= n
  {
    DistinctCount(s);
    Fewer(Elements(s), Below(n));
  }

  lemma {:induction false} DistinctCount(s: seq<nat>)
    requires forall j, k :: 0 <= j < k < |s| ==> s[j] != s[k]
    ensures |Elements(s)| == |s|
  {
    if s != [] {
      var last := |s| - 1;
      DistinctCount(s[..last]);
      assert Elements(s) == Elements(s[..last]) + {s[last]};
    }
  }

  /** Of the largest size, with all its blocks. */
  ghost predicate Stuffed(sb: Super, fs: Fs, i: nat) {
    && Shape(sb, fs) && i < |fs.inodes|
    && fs.inodes[i].size == MAXFILE * BSIZE && HoleFree(sb, fs, i)
  }

  lemma StuffedSlots(sb: Super, fs: Fs, i: nat, k: nat)
    requires Stuffed(sb, fs, i) && k < NSLOT
    ensures Ptr(sb, fs, i, k) != 0
  {
    hide Word;
    var bn := if k < NDIRECT then k else if k == NDIRECT then NDIRECT else k - 1;
    assert BlockOf(sb, fs, i, bn) != 0;
  }

  lemma OneUnstuffed(fs: Fs, owner: map<nat, Place>)
    requires Owned(Mkfs.SUPER, fs, owner) && |fs.inodes| == Mkfs.NINODES
    ensures exists i: nat :: 2 <= i < 2 + MANY && !Stuffed(Mkfs.SUPER, fs, i)
  {
    var sb := Mkfs.SUPER;
    hide Word, Used, UsedSet, HoleFree, Ptr, Stuffed;
    if forall i: nat :: 2 <= i < 2 + MANY ==> Stuffed(sb, fs, i) {
      var s: seq<nat> := seq(MANY * NSLOT, m requires 0 <= m < MANY * NSLOT => Ptr(sb, fs, 2 + m / NSLOT, m % NSLOT));
      forall m: nat | m < MANY * NSLOT
        ensures s[m] < sb.size && s[m] in owner && owner[s[m]] == (2 + m / NSLOT, m % NSLOT)
      {
        StuffedSlots(sb, fs, 2 + m / NSLOT, m % NSLOT);
        assert ValidPlace(fs, 2 + m / NSLOT, m % NSLOT);
      }
      forall j, k | 0 <= j < k < |s|
        ensures s[j] != s[k]
      {
        assert j == (j / NSLOT) * NSLOT + j % NSLOT && k == (k / NSLOT) * NSLOT + k % NSLOT;
      }
      DistinctFew(s, sb.size);
    }
  }

  // ---- filling the disk

  /** A write to another file leaves file `j` and its blocks as they are. */
  ghost predicate Apart(sb: Super, a: Fs, b: Fs, j: nat) {
    && Shape(sb, a) && Shape(sb, b) && j < |a.inodes| == |b.inodes|
    && Content(sb, b, j) == Content(sb, a, j)
    && forall k: nat :: k < NSLOT ==> Ptr(sb, b, j, k) == Ptr(sb, a, j, k)
  }

  lemma ApartHoles(sb: Super, a: Fs, b: Fs, j: nat)
    requires Apart(sb, a, b, j)
    ensures Content(sb, b, j) == Content(sb, a, j) && (HoleFree(sb, b, j) <==> HoleFree(sb, a, j))
    ensures Stuffed(sb, a, j) ==> Stuffed(sb, b, j)
  {
    hide Ptr, Content;
    assert |Content(sb, b, j)| == |Content(sb, a, j)|;
    forall bn: nat | bn < MAXFILE
      ensures BlockOf(sb, b, j, bn) == BlockOf(sb, a, j, bn)
    {
      assert SlotOf(bn) < NSLOT;
    }
  }

  /** Writes file `i` on from its end, to the largest size if the blocks last. */
  method Swell(fs: FileSystem, i: nat)
    requires fs.Valid() && i < |fs.inodes| && Shape(fs.sb, fs.State()) && HoleFree(fs.sb, fs.State(), i)
    modifies fs
    ensures fs.Valid() && |fs.inodes| == |old(fs.inodes)| && Shape(fs.sb, fs.State())
    ensures Full(fs.sb, fs.State()) || Stuffed(fs.sb, fs.State(), i)
    ensures old(Full(fs.sb, fs.State())) ==> Full(fs.sb, fs.State())
    ensures forall j: nat :: j < |fs.inodes| && j != i ==> Apart(fs.sb, old(fs.State()), fs.State(), j)
  {
    hide Owned, StaleOk, HoleFree, Fits, Full, KeptPtrs, Content, Ptr, WroteBytes, Resaved, Needs, FreeSet;
    ghost var a := fs.State();
    FullFree(fs.sb, a);
    SizeBounds(fs.sb, a, i);
    var size := fs.inodes[i].size;
    var src := ZeroBytes(MAXFILE * BSIZE - size);
    ghost var stray;
    var r;
    r, stray := fs.Writei(i, size, src, |src|);
    OwnedShape(fs.sb, fs.State(), fs.owner);
    FullFree(fs.sb, fs.State());
    WholeAll(size, |src|);
    forall j: nat | j < |fs.inodes| && j != i
      ensures Apart(fs.sb, a, fs.State(), j)
    {
      assert forall k: nat :: k < NSLOT ==> ValidPlace(a, j, k);
    }
  }

  /** Every image whose root directory fills its blocks, with a name not in it: once the disk
      has been filled, looking the name up panics. */
  method LookupPanics(files: seq<Mkfs.HostFile>, name: seq<byte>) returns (built: bool, ok: bool)
    requires |files| < Mkfs.NINODES - 2 && (|files| + 2) % 64 == 0 && MkfsRoot.DistinctNames(files)
    requires |name| == DIRSIZ && Canon(name) !in MkfsRoot.RootMap(files)
    ensures built ==> !ok
  {
    hide Owned, StaleOk, HoleFree, Fits, Full, Content, Ptr, Mkfs.RootBuilt, IsDir, Drawn, Peeked, MkfsRoot.DistinctNames, Canon, Apart, Stuffed;
    var used, disk, inodes;
    ghost var owner;
    built, used, disk, inodes, owner := Mkfs.Build(files);
    if !built { return false, true; }
    var fs := new FileSystem(Mkfs.SUPER, disk, inodes, owner);
    ghost var sb, a := fs.sb, fs.State();
    OwnedShape(sb, a, fs.owner);
    MkfsRoot.RootIsDir(files, Content(sb, a, Mkfs.ROOTINO));
    ApartSelf(sb, a, Mkfs.ROOTINO);
    var i := 2;
    while i < 2 + MANY
      invariant 2 <= i <= 2 + MANY && fs.Valid() && |fs.inodes| == Mkfs.NINODES && Shape(sb, fs.State())
      invariant Apart(sb, a, fs.State(), Mkfs.ROOTINO)
      invariant forall j: nat :: i <= j < Mkfs.NINODES ==> HoleFree(sb, fs.State(), j)
      invariant Full(sb, fs.State()) || forall j: nat :: 2 <= j < i ==> Stuffed(sb, fs.State(), j)
    {
      ghost var b := fs.State();
      Swell(fs, i);
      forall j: nat | 1 <= j < Mkfs.NINODES && j != i
        ensures HoleFree(sb, b, j) ==> HoleFree(sb, fs.State(), j)
        ensures Stuffed(sb, b, j) ==> Stuffed(sb, fs.State(), j)
      {
        ApartHoles(sb, b, fs.State(), j);
      }
      ApartJoin(sb, a, b, fs.State(), Mkfs.ROOTINO);
      i := i + 1;
    }
    OneUnstuffed(fs.State(), fs.owner);
    ApartHoles(sb, a, fs.State(), Mkfs.ROOTINO);
    RootLacks(fs.State(), Mkfs.ROOTINO, MkfsRoot.RootAt(files), Canon(name));
    var inum;
    ok, inum := Dirlookup(fs, Mkfs.ROOTINO, name, MkfsRoot.RootAt(files));
  }

  lemma ApartSelf(sb: Super, a: Fs, j: nat)
    requires Shape(sb, a) && j < |a.inodes|
    ensures Apart(sb, a, a, j)
  {
  }

  lemma ApartJoin(sb: Super, a: Fs, b: Fs, c: Fs, j: nat)
    requires Apart(sb, a, b, j) && Apart(sb, b, c, j)
    ensures Apart(sb, a, c, j)
  {
    hide Ptr, Content;
  }

  /** On a full disk, a directory with a hole cannot be searched to its end. */
  lemma RootLacks(fs: Fs, dp: nat, at: Directory.Names, n: seq<byte>)
    requires Shape(Mkfs.SUPER, fs) && dp < |fs.inodes| && Full(Mkfs.SUPER, fs) && !HoleFree(Mkfs.SUPER, fs, dp)
    requires IsDir(Content(Mkfs.SUPER, fs, dp), at) && n !in at
    ensures !Fits(Mkfs.SUPER, fs, dp, 0, SlotsEnd(Searched(Content(Mkfs.SUPER, fs, dp), at, n)))
  {
    hide Fits, Full, BlockOf, Content, Slot, EntryInum, EntryName;
    var bn :| 0 <= bn < MAXFILE && bn * BSIZE < fs.inodes[dp].size && BlockOf(Mkfs.SUPER, fs, dp, bn) == 0;
    FitsMissing(Mkfs.SUPER, fs, dp, 0, SlotsEnd(Count(Content(Mkfs.SUPER, fs, dp))), bn);
  }
}
