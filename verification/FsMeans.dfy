/**
  What a call finds of the free blocks it needs, read off the state before it: this
  decides every short read and write, every panic for an entry that cannot be read,
  and every name that cannot be added.
 */
module FsMeans {
  import opened Common
  import opened FsLayout
  import opened FsBlocks
  import opened FsEffects
  import opened FsNeeds
  import opened FsSaved
  import opened FsSnap
  import opened DirFormat
  import opened Directory
  import opened FsNodes
  import opened FsViews

  lemma MountedShape(sb: Super, a: Snap, dirs: Dirs)
    requires Ready(sb, a, dirs)
    ensures Sound(sb, a) && Shape(sb, a.fs) && forall i :: 0 <= i < |a.fs.inodes| ==> a.fs.inodes[i].size <= MAXFILE * BSIZE
  {
    OwnedShape(sb, a.fs, a.owner);
  }

  lemma DirNode(sb: Super, a: Snap, dirs: Dirs, d: nat)
    requires Ready(sb, a, dirs) && d in dirs
    ensures Shape(sb, a.fs) && d < |a.fs.inodes| && IsDir(Content(sb, a.fs, d), dirs[d]) && Tidy(sb, a, d)
    ensures View(sb, a, dirs)[d] == Dir(Bindings(Content(sb, a.fs, d), dirs[d]))
  {
    OwnedShape(sb, a.fs, a.owner);
    assert IsDirAt(sb, a, dirs, d);
    ViewAt(sb, a, dirs, d);
  }

  /** There are blocks enough to read the first `t` entries of directory `d`. */
  ghost predicate CanScan(sb: Super, a: Snap, d: nat, t: nat)
    requires Shape(sb, a.fs) && d < |a.fs.inodes|
  {
    Fits(sb, a.fs, d, 0, SlotsEnd(t))
  }

  ghost function TransferMeans(sb: Super, a: Snap, i: nat, off: nat, n: nat, room: nat): Means
    requires Shape(sb, a.fs) && i < |a.fs.inodes|
  {
    if Supplied(sb, a.fs, i, off, n, room) || off >= MAXFILE * BSIZE then Enough else Short(StopAt(sb, a.fs, i, off))
  }

  /** The call is of an inode there is, and of a directory where it needs one. */
  predicate Asked(op: Op, dirs: set<nat>, ninodes: nat) {
    match op
    case Read(i, _, _, _) => i < ninodes
    case Write(i, _, _, _) => i < ninodes
    case Lookup(d, _) => d in dirs && d < ninodes
    case Link(d, _, _) => d in dirs && d < ninodes
    case Unlink(d, _) => d in dirs && d < ninodes
    case _ => true
  }

  /** What the call `op` finds in state `a`. */
  ghost function MeansOf(sb: Super, a: Snap, dirs: Dirs, op: Op): Means
    requires Ready(sb, a, dirs) && Asked(op, dirs.Keys, |a.fs.inodes|)
  {
    MountedShape(sb, a, dirs);
    match op
    case Read(i, off, n, room) => TransferMeans(sb, a, i, off, Readable(a.fs.inodes[i].size, off, n), room)
    case Write(i, off, src, avail) => TransferMeans(sb, a, i, off, |src|, avail)
    case Truncate(_) => Enough
    case Make(_, _) => Enough
    case Drop(_) => Enough
    case Recycle(_) => Enough
    case Lookup(d, name) =>
      if CanScan(sb, a, d, Searched(Content(sb, a.fs, d), dirs[d], Canon(name))) then Enough else NoBlock
    case Link(d, name, _) =>
      DirNode(sb, a, dirs, d);
      if !CanScan(sb, a, d, Searched(Content(sb, a.fs, d), dirs[d], Canon(name))) then NoBlock
      else if Roomy(sb, a.fs, d) then Enough else NoPlace
    case Unlink(d, name) =>
      if CanScan(sb, a, d, Count(Content(sb, a.fs, d))) then Enough
      else if CanScan(sb, a, d, Searched(Content(sb, a.fs, d), dirs[d], Canon(name))) then NoEnd else NoBlock
  }

  /** Without holes, nothing but a write or a new name needs a block. */
  lemma SolidMeans(sb: Super, a: Snap, dirs: Dirs, op: Op)
    requires Ready(sb, a, dirs) && Asked(op, dirs.Keys, |a.fs.inodes|) && Shape(sb, a.fs) && Solid(sb, a.fs)
    ensures Smooth(op, MeansOf(sb, a, dirs, op))
  {
    hide Owned, StaleOk, HoleFree, Content, Fits, View, Roomy, IsDir, Slot, EntryInum, EntryName, Live, Canon;
    match op {
      case Read(i, off, n, room) => RangeFits(sb, a.fs, i, off, n, room);
      case Lookup(d, name) => SolidScan(sb, a, dirs, d, Canon(name));
      case Link(d, name, _) => SolidScan(sb, a, dirs, d, Canon(name));
      case Unlink(d, name) => SolidScan(sb, a, dirs, d, Canon(name));
      case _ =>
    }
  }

  /** Who can read all entries can read those up to a name. */
  lemma ScanLess(sb: Super, a: Snap, dirs: Dirs, d: nat, n: seq<byte>)
    requires Ready(sb, a, dirs) && Shape(sb, a.fs) && d in dirs && d < |a.fs.inodes|
    ensures CanScan(sb, a, d, Count(Content(sb, a.fs, d))) ==> CanScan(sb, a, d, Searched(Content(sb, a.fs, d), dirs[d], n))
  {
    DirNode(sb, a, dirs, d);
    hide Owned, StaleOk, Content, Fits, Slot, EntryInum, EntryName;
    var c := Content(sb, a.fs, d);
    Unbound(c, dirs[d], n);
    if CanScan(sb, a, d, Count(c)) { FitsLess(sb, a.fs, d, 0, SlotsEnd(Searched(c, dirs[d], n)), SlotsEnd(Count(c))); }
  }

  lemma SolidScan(sb: Super, a: Snap, dirs: Dirs, d: nat, n: seq<byte>)
    requires Ready(sb, a, dirs) && Shape(sb, a.fs) && d in dirs && d < |a.fs.inodes| && HoleFree(sb, a.fs, d)
    ensures CanScan(sb, a, d, Count(Content(sb, a.fs, d)))
    ensures CanScan(sb, a, d, Searched(Content(sb, a.fs, d), dirs[d], n))
  {
    DirNode(sb, a, dirs, d);
    hide Owned, StaleOk, HoleFree, Content, Fits, Slot, EntryInum, EntryName;
    HoleFreeFits(sb, a.fs, d, 0, SlotsEnd(Count(Content(sb, a.fs, d))));
    ScanLess(sb, a, dirs, d, n);
  }
}
