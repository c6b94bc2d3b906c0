/**
  Runs of the file system: whatever sequence of calls on files and directories is
  made, from whatever image, and whichever buffers are recycled between them,
  blocks stay exclusively owned and the calls do what their steps in FsNodes say.
 */
module FsRuns {
  import opened Common
  import opened FsLayout
  import opened FsBlocks
  import opened FsEffects
  import opened FsNeeds
  import opened FsSaved
  import opened FsSnap
  import opened FileSystem
  import opened DirFormat
  import opened Directory
  import opened FsNodes
  import opened FsViews
  import opened FsMeans
  import Mkfs
  import MkfsRoot

  /** The inodes are of these types; the free ones are clear. */
  ghost predicate Stocked(inodes: seq<Inode>, dirs: Dirs, ty: Types) {
    && dirs.Keys == ty.dirs && ty.count == |inodes| && ty.dirs !! ty.free
    && forall i :: i in ty.free ==> i < |inodes| && inodes[i] == Blank()
  }

  /** A call on `i` that frees or makes nothing leaves the types as they are. */
  lemma StillStocked(a: seq<Inode>, b: seq<Inode>, dirs: Dirs, dirs': Dirs, ty: Types, i: nat)
    requires Stocked(a, dirs, ty) && SameInodes(a, b, i) && dirs'.Keys == dirs.Keys && i !in ty.free
    ensures Stocked(b, dirs', ty)
  {
  }

  lemma WroteSolid(sb: Super, fs: Fs, fs': Fs, i: nat, off: nat, d: seq<byte>, r: nat)
    requires Shape(sb, fs) && i < |fs.inodes| && off <= fs.inodes[i].size && r <= |d|
    requires Wrote(sb, fs, fs', i, off, d, r) && Solid(sb, fs) && HoleFree(sb, fs', i)
    ensures Solid(sb, fs')
  {
    hide Word, Used, Ptr, ByteAt, Content;
    forall j: nat, bn: nat | j < |fs.inodes| && j != i && bn < MAXFILE && bn * BSIZE < fs'.inodes[j].size
      ensures BlockOf(sb, fs', j, bn) != 0
    {
      assert |Content(sb, fs', j)| == |Content(sb, fs, j)|;
      assert HoleFree(sb, fs, j) && BlockOf(sb, fs, j, bn) != 0;
      assert ValidPlace(fs, j, SlotOf(bn));
    }
  }

  lemma TruncSolid(sb: Super, fs: Fs, fs': Fs, owner: map<nat, Place>, i: nat)
    requires Owned(sb, fs, owner) && i < |fs.inodes| && Owned(sb, fs', Others(owner, i))
    requires |fs'.inodes| == |fs.inodes| && fs'.inodes == fs.inodes[i := fs'.inodes[i]] && fs'.inodes[i].size == 0
    requires Solid(sb, fs)
    ensures Solid(sb, fs')
  {
    hide Word, Used;
    forall j: nat, bn: nat | j < |fs.inodes| && j != i && bn < MAXFILE && bn * BSIZE < fs'.inodes[j].size
      ensures BlockOf(sb, fs', j, bn) != 0
    {
      assert HoleFree(sb, fs, j);
      var b := BlockOf(sb, fs, j, bn);
      assert b in owner && owner[b] == (j, SlotOf(bn));
      assert b in Others(owner, i);
    }
  }

  lemma RecycledSolid(sb: Super, fs: Fs, fs': Fs)
    requires Shape(sb, fs) && Shape(sb, fs') && SamePtrs(sb, fs, fs') && fs'.inodes == fs.inodes && Solid(sb, fs)
    ensures Solid(sb, fs')
  {
    hide Ptr;
    forall j: nat, bn: nat | j < |fs.inodes| && bn < MAXFILE && bn * BSIZE < fs'.inodes[j].size
      ensures BlockOf(sb, fs', j, bn) != 0
    {
      assert HoleFree(sb, fs, j) && ValidPlace(fs, j, SlotOf(bn));
      assert BlockOf(sb, fs, j, bn) != 0;
    }
  }

  lemma ElsewhereSolid(sb: Super, dp: nat, a: Snap, b: Snap)
    requires Elsewhere(sb, dp, a, b) && Shape(sb, a.fs) && Shape(sb, b.fs) && Solid(sb, a.fs)
    ensures Solid(sb, b.fs)
  {
    hide HoleFree, Owned, StaleOk, SameFile, Tidy;
  }

  /** The state of `fs` and its directories, as callers see them. */
  ghost predicate Mounted(fs: FileSystem, dirs: Dirs)
    reads fs
  {
    Ready(fs.sb, fs.Now(), dirs)
  }

  ghost function Seen(fs: FileSystem, dirs: Dirs): (ns: seq<Node>)
    requires Mounted(fs, dirs)
    reads fs
  {
    View(fs.sb, fs.Now(), dirs)
  }

  // ---- calls on files

  lemma NodeShown(sb: Super, a: Snap, dirs: Dirs, i: nat)
    requires Ready(sb, a, dirs) && Shape(sb, a.fs) && i < |a.fs.inodes|
    ensures Shown(View(sb, a, dirs)[i], Content(sb, a.fs, i))
  {
    ViewAt(sb, a, dirs, i);
    hide Owned, StaleOk, Content, SavedContent, View, Tidy;
  }

  method CallRead(fs: FileSystem, i: nat, off: nat, n: nat, room: nat, ghost dirs: Dirs, ghost ty: Types) returns (out: Outcome)
    requires Mounted(fs, dirs) && Stocked(fs.inodes, dirs, ty) && Callable(Read(i, off, n, room), ty)
    modifies fs
    ensures Mounted(fs, dirs) && SameInodes(old(fs.inodes), fs.inodes, i)
    ensures Shape(fs.sb, old(fs.State())) && Shape(fs.sb, fs.State())
    ensures Step(old(Seen(fs, dirs)), Read(i, off, n, room), out, old(MeansOf(fs.sb, fs.Now(), dirs, Read(i, off, n, room))), Seen(fs, dirs))
    ensures Solid(fs.sb, old(fs.State())) ==> Solid(fs.sb, fs.State())
  {
    hide Owned, StaleOk, HoleFree, Content, SavedContent, View, IsDirAt, Full, Peeked, Fits, Drawn;
    ghost var a := fs.Now();
    MountedShape(fs.sb, a, dirs);
    var r, data := fs.Readi(i, off, n, room);
    if r >= 0 && Stops(fs.sb, a.fs, i, off, r) { StopsAt(fs.sb, a.fs, i, off, r); }
    NodeShown(fs.sb, a, dirs, i);
    PeekedView(fs.sb, a, fs.Now(), dirs, i);
    MountedShape(fs.sb, fs.Now(), dirs);
    PeekedElsewhere(fs.sb, i, a, fs.Now());
    ElsewhereInodes(fs.sb, i, a, fs.Now());
    if Solid(fs.sb, a.fs) { ElsewhereSolid(fs.sb, i, a, fs.Now()); }
    out := Outcome(true, r, data);
  }

  method CallWrite(fs: FileSystem, i: nat, off: nat, src: seq<byte>, avail: nat, ghost dirs: Dirs, ghost ty: Types) returns (out: Outcome)
    requires Mounted(fs, dirs) && Stocked(fs.inodes, dirs, ty) && Callable(Write(i, off, src, avail), ty)
    modifies fs
    ensures Mounted(fs, dirs) && SameInodes(old(fs.inodes), fs.inodes, i)
    ensures Shape(fs.sb, old(fs.State())) && Shape(fs.sb, fs.State())
    ensures Step(old(Seen(fs, dirs)), Write(i, off, src, avail), out, old(MeansOf(fs.sb, fs.Now(), dirs, Write(i, off, src, avail))), Seen(fs, dirs))
    ensures Solid(fs.sb, old(fs.State())) ==> Solid(fs.sb, fs.State())
  {
    hide Owned, StaleOk, HoleFree, KeptPtrs, SameBytes, Content, SavedContent, View, IsDirAt, Full, Shed, Wrote, WroteBytes, Resaved, Written, Fits, Drawn, SameSlots;
    ghost var a := fs.Now();
    MountedShape(fs.sb, a, dirs);
    ViewAt(fs.sb, a, dirs, i);
    var r;
    ghost var stray;
    r, stray := fs.Writei(i, off, src, avail);
    out := Outcome(true, r, []);
    if r == -1 { return; }
    if Stops(fs.sb, a.fs, i, off, r) { StopsAt(fs.sb, a.fs, i, off, r); }
    ghost var b := fs.Now();
    OwnedShape(fs.sb, b.fs, b.owner);
    WrittenView(fs.sb, a, b, i, off, src, r, stray);
    WroteOthers(fs.sb, a, b, i, off, src, r, stray);
    SameFileInodes(fs.sb, a, b, i);
    Outside(fs.sb, b, dirs, i);
    OnlyNode(fs.sb, a, b, dirs, dirs, i);
    ViewAt(fs.sb, b, dirs, i);
    if Solid(fs.sb, a.fs) { WroteSolid(fs.sb, a.fs, b.fs, i, off, src[..stray], r); }
  }

  lemma SameFileInodes(sb: Super, a: Snap, b: Snap, i: nat)
    requires SameSlots(sb, a.fs, b.fs, i) && Shape(sb, a.fs) && Shape(sb, b.fs) && |a.fs.inodes| == |b.fs.inodes|
    requires forall j: nat :: j < |a.fs.inodes| && j != i ==> SameFile(sb, a, b, j)
    ensures SameInodes(a.fs.inodes, b.fs.inodes, i)
  {
    hide ByteAt, SavedAt, Ptr;
    forall j: nat | j < |a.fs.inodes| && j != i
      ensures b.fs.inodes[j].size == a.fs.inodes[j].size
    {
      assert SameFile(sb, a, b, j);
    }
    SlotsInodes(sb, a.fs, b.fs, i);
  }

  lemma TruncOthers(sb: Super, a: Snap, b: Snap, i: nat)
    requires Shape(sb, a.fs) && Shape(sb, b.fs) && i < |a.fs.inodes| == |b.fs.inodes| && b.fs.inodes == a.fs.inodes[i := b.fs.inodes[i]]
    requires forall j: nat, x: nat :: j < |a.fs.inodes| && j != i && x < MAXFILE * BSIZE ==>
               ByteAt(sb, b.fs, j, x) == ByteAt(sb, a.fs, j, x) && SavedAt(sb, b.fs, b.u, j, x) == SavedAt(sb, a.fs, a.u, j, x)
    ensures forall j: nat :: j < |a.fs.inodes| && j != i ==> SameFile(sb, a, b, j)
  {
    hide ByteAt, SavedAt;
  }

  method CallTruncate(fs: FileSystem, i: nat, ghost dirs: Dirs, ghost ty: Types) returns (out: Outcome)
    requires Mounted(fs, dirs) && Stocked(fs.inodes, dirs, ty) && Callable(Truncate(i), ty)
    modifies fs
    ensures Mounted(fs, dirs) && SameInodes(old(fs.inodes), fs.inodes, i)
    ensures Shape(fs.sb, old(fs.State())) && Shape(fs.sb, fs.State())
    ensures Step(old(Seen(fs, dirs)), Truncate(i), out, old(MeansOf(fs.sb, fs.Now(), dirs, Truncate(i))), Seen(fs, dirs))
    ensures Solid(fs.sb, old(fs.State())) ==> Solid(fs.sb, fs.State())
  {
    hide Owned, StaleOk, HoleFree, KeptPtrs, SameBytes, Content, SavedContent, View, IsDirAt, Full, ByteAt, SavedAt;
    ghost var a := fs.Now();
    MountedShape(fs.sb, a, dirs);
    ViewAt(fs.sb, a, dirs, i);
    fs.Itrunc(i);
    out := Outcome(true, 0, []);
    ghost var b := fs.Now();
    OwnedShape(fs.sb, b.fs, b.owner);
    TruncOthers(fs.sb, a, b, i);
    Outside(fs.sb, b, dirs, i);
    OnlyNode(fs.sb, a, b, dirs, dirs, i);
    assert Content(fs.sb, b.fs, i) == [] && SavedContent(fs.sb, b, i) == [];
    if Solid(fs.sb, a.fs) { TruncSolid(fs.sb, a.fs, b.fs, a.owner, i); }
  }

  /** ialloc and create: a free inode becomes an empty file or directory. */
  method CallMake(fs: FileSystem, i: nat, dir: bool, ghost dirs: Dirs, ghost ty: Types) returns (out: Outcome, ghost dirs': Dirs)
    requires Mounted(fs, dirs) && Stocked(fs.inodes, dirs, ty) && Callable(Make(i, dir), ty)
    modifies fs
    ensures Mounted(fs, dirs') && Stocked(fs.inodes, dirs', After(ty, Make(i, dir)))
    ensures Shape(fs.sb, old(fs.State())) && Shape(fs.sb, fs.State())
    ensures Step(old(Seen(fs, dirs)), Make(i, dir), out, Enough, Seen(fs, dirs'))
    ensures Solid(fs.sb, old(fs.State())) ==> Solid(fs.sb, fs.State())
  {
    hide Owned, StaleOk, HoleFree, Content, SavedContent, View, Tidy;
    ghost var a := fs.Now();
    MountedShape(fs.sb, a, dirs);
    ViewAt(fs.sb, a, dirs, i);
    fs.Clear(i);
    out := Outcome(true, i, []);
    dirs' := if dir then dirs[i := map[]] else dirs;
    BlankNode(fs.sb, a, dirs', i);
    SelfSame(fs.sb, a, i);
    OnlyNode(fs.sb, a, a, dirs, dirs', i);
    assert dirs'.Keys == After(ty, Make(i, dir)).dirs;
    assert Content(fs.sb, a.fs, i) == [] && SavedContent(fs.sb, a, i) == [];
  }

  lemma SelfSame(sb: Super, a: Snap, i: nat)
    requires Shape(sb, a.fs)
    ensures forall j: nat :: j < |a.fs.inodes| && j != i ==> SameFile(sb, a, a, j)
  {
  }

  /** A clear inode is an empty file, or a directory without entries, as one likes. */
  lemma BlankNode(sb: Super, a: Snap, dirs: Dirs, i: nat)
    requires Sound(sb, a) && Shape(sb, a.fs) && i < |a.fs.inodes| && a.fs.inodes[i] == Blank() && (i in dirs ==> dirs[i] == map[])
    ensures IsDirAt(sb, a, dirs, i)
    ensures NodeOf(sb, a, dirs, i) == if i in dirs then Dir(map[]) else File([], [])
  {
    hide Word;
    forall x: nat | x < MAXFILE * BSIZE
      ensures SavedAt(sb, a.fs, a.u, i, x) == ByteAt(sb, a.fs, i, x)
    {
      ZeroStale(sb, a, i, x);
    }
    assert Content(sb, a.fs, i) == [] && SavedContent(sb, a, i) == [];
  }

  /** iput of an inode without links: truncated, and free for ialloc. */
  method CallDrop(fs: FileSystem, i: nat, ghost dirs: Dirs, ghost ty: Types) returns (out: Outcome, ghost dirs': Dirs)
    requires Mounted(fs, dirs) && Stocked(fs.inodes, dirs, ty) && Callable(Drop(i), ty)
    modifies fs
    ensures Mounted(fs, dirs') && Stocked(fs.inodes, dirs', After(ty, Drop(i)))
    ensures Shape(fs.sb, old(fs.State())) && Shape(fs.sb, fs.State())
    ensures Step(old(Seen(fs, dirs)), Drop(i), out, Enough, Seen(fs, dirs'))
    ensures Solid(fs.sb, old(fs.State())) ==> Solid(fs.sb, fs.State())
  {
    hide Owned, StaleOk, HoleFree, KeptPtrs, SameBytes, Content, SavedContent, View, IsDirAt, ByteAt, SavedAt, UsedSet;
    ghost var a := fs.Now();
    MountedShape(fs.sb, a, dirs);
    fs.Itrunc(i);
    out := Outcome(true, 0, []);
    dirs' := dirs - {i};
    ghost var b := fs.Now();
    OwnedShape(fs.sb, b.fs, b.owner);
    TruncOthers(fs.sb, a, b, i);
    BlankNode(fs.sb, b, dirs', i);
    OnlyNode(fs.sb, a, b, dirs, dirs', i);
    assert dirs'.Keys == dirs.Keys - {i};
    if Solid(fs.sb, a.fs) { TruncSolid(fs.sb, a.fs, b.fs, a.owner, i); }
  }

  method CallRecycle(fs: FileSystem, block: nat, ghost dirs: Dirs) returns (out: Outcome)
    requires Mounted(fs, dirs)
    modifies fs
    ensures Mounted(fs, dirs) && fs.inodes == old(fs.inodes)
    ensures Shape(fs.sb, old(fs.State())) && Shape(fs.sb, fs.State())
    ensures Step(old(Seen(fs, dirs)), Recycle(block), out, old(MeansOf(fs.sb, fs.Now(), dirs, Recycle(block))), Seen(fs, dirs))
    ensures Solid(fs.sb, old(fs.State())) ==> Solid(fs.sb, fs.State())
  {
    hide Owned, StaleOk, HoleFree, Reverted, View, IsDirAt, Full, SamePtrs, Reverts;
    ghost var a := fs.Now();
    MountedShape(fs.sb, a, dirs);
    fs.Recycle(block);
    out := Outcome(true, 0, []);
    OwnedShape(fs.sb, fs.State(), fs.owner);
    RecycledView(fs.sb, a, fs.Now(), dirs, block);
    if Solid(fs.sb, a.fs) { RecycledSolid(fs.sb, a.fs, fs.State()); }
  }

  // ---- calls on directories

  /** After an operation on directory `d`. */
  lemma DirView(sb: Super, a: Snap, b: Snap, dirs: Dirs, d: nat, at: Directory.Names)
    requires Ready(sb, a, dirs) && d in dirs && Elsewhere(sb, d, a, b) && Shape(sb, b.fs) && IsDir(Content(sb, b.fs, d), at)
    ensures Ready(sb, b, dirs[d := at])
    ensures View(sb, b, dirs[d := at]) == View(sb, a, dirs)[d := Dir(Bindings(Content(sb, b.fs, d), at))]
  {
    DirNode(sb, a, dirs, d);
    hide Owned, StaleOk, View, SameFile, Tidy, HoleFree, Content;
    OnlyNode(sb, a, b, dirs, dirs[d := at], d);
    assert dirs[d := at].Keys == dirs.Keys;
  }

  lemma Replaced(ns: seq<Node>, d: nat)
    requires d < |ns|
    ensures ns[d := ns[d]] == ns
  {
  }

  method CallLookup(fs: FileSystem, d: nat, name: seq<byte>, ghost dirs: Dirs, ghost ty: Types) returns (out: Outcome)
    requires Mounted(fs, dirs) && Stocked(fs.inodes, dirs, ty) && Callable(Lookup(d, name), ty)
    modifies fs
    ensures Mounted(fs, dirs) && SameInodes(old(fs.inodes), fs.inodes, d)
    ensures Shape(fs.sb, old(fs.State())) && Shape(fs.sb, fs.State())
    ensures Step(old(Seen(fs, dirs)), Lookup(d, name), out, old(MeansOf(fs.sb, fs.Now(), dirs, Lookup(d, name))), Seen(fs, dirs))
    ensures Solid(fs.sb, old(fs.State())) ==> Solid(fs.sb, fs.State())
  {
    hide Owned, StaleOk, HoleFree, Content, View, IsDirAt, Full, Peeked, IsDir, Canon, Tidy, Fits, Drawn;
    ghost var a := fs.Now();
    MountedShape(fs.sb, a, dirs);
    DirNode(fs.sb, a, dirs, d);
    var ok, inum := Dirlookup(fs, d, name, dirs[d]);
    out := Outcome(ok, inum, []);
    PeekedView(fs.sb, a, fs.Now(), dirs, d);
    MountedShape(fs.sb, fs.Now(), dirs);
    PeekedElsewhere(fs.sb, d, a, fs.Now());
    ElsewhereInodes(fs.sb, d, a, fs.Now());
    if Solid(fs.sb, a.fs) { ElsewhereSolid(fs.sb, d, a, fs.Now()); }
  }

  method CallLink(fs: FileSystem, d: nat, name: seq<byte>, target: nat, ghost dirs: Dirs, ghost ty: Types) returns (out: Outcome, ghost dirs': Dirs)
    requires Mounted(fs, dirs) && Stocked(fs.inodes, dirs, ty) && Callable(Link(d, name, target), ty)
    modifies fs
    ensures Mounted(fs, dirs') && dirs'.Keys == dirs.Keys && SameInodes(old(fs.inodes), fs.inodes, d)
    ensures Shape(fs.sb, old(fs.State())) && Shape(fs.sb, fs.State())
    ensures Step(old(Seen(fs, dirs)), Link(d, name, target), out, old(MeansOf(fs.sb, fs.Now(), dirs, Link(d, name, target))), Seen(fs, dirs'))
    ensures Solid(fs.sb, old(fs.State())) ==> Solid(fs.sb, fs.State())
  {
    hide Owned, StaleOk, HoleFree, Content, View, IsDirAt, Full, Elsewhere, IsDir, Canon, Tidy, Bindings, Fits, Drawn;
    ghost var a := fs.Now();
    MountedShape(fs.sb, a, dirs);
    DirNode(fs.sb, a, dirs, d);
    var ok, r;
    ghost var at;
    ok, r, at := Directory.Link(fs, d, name, target, dirs[d]);
    out := Outcome(ok, r, []);
    OwnedShape(fs.sb, fs.State(), fs.owner);
    ElsewhereInodes(fs.sb, d, a, fs.Now());
    DirView(fs.sb, a, fs.Now(), dirs, d, at);
    DirKeys(Content(fs.sb, a.fs, d), dirs[d]);
    Replaced(View(fs.sb, a, dirs), d);
    dirs' := dirs[d := at];
    if Solid(fs.sb, a.fs) { ElsewhereSolid(fs.sb, d, a, fs.Now()); }
  }

  method CallUnlink(fs: FileSystem, d: nat, name: seq<byte>, ghost dirs: Dirs, ghost ty: Types) returns (out: Outcome, ghost dirs': Dirs)
    requires Mounted(fs, dirs) && Stocked(fs.inodes, dirs, ty) && Callable(Unlink(d, name), ty)
    modifies fs
    ensures Mounted(fs, dirs') && dirs'.Keys == dirs.Keys && SameInodes(old(fs.inodes), fs.inodes, d)
    ensures Shape(fs.sb, old(fs.State())) && Shape(fs.sb, fs.State())
    ensures Step(old(Seen(fs, dirs)), Unlink(d, name), out, old(MeansOf(fs.sb, fs.Now(), dirs, Unlink(d, name))), Seen(fs, dirs'))
    ensures Solid(fs.sb, old(fs.State())) ==> Solid(fs.sb, fs.State())
  {
    hide Owned, StaleOk, HoleFree, Content, View, IsDirAt, Full, Elsewhere, IsDir, Canon, Tidy, Bindings, Fits, Drawn;
    ghost var a := fs.Now();
    MountedShape(fs.sb, a, dirs);
    DirNode(fs.sb, a, dirs, d);
    var ok;
    ghost var at;
    ScanLess(fs.sb, a, dirs, d, Canon(name));
    ok, at := Directory.Unlink(fs, d, name, dirs[d]);
    out := Outcome(ok, 0, []);
    OwnedShape(fs.sb, fs.State(), fs.owner);
    ElsewhereInodes(fs.sb, d, a, fs.Now());
    DirView(fs.sb, a, fs.Now(), dirs, d, at);
    DirKeys(Content(fs.sb, a.fs, d), dirs[d]);
    Replaced(View(fs.sb, a, dirs), d);
    dirs' := dirs[d := at];
    if Solid(fs.sb, a.fs) { ElsewhereSolid(fs.sb, d, a, fs.Now()); }
  }

  // ---- runs

  /** Any call refines its step, on all files and directories at once. */
  method Call(fs: FileSystem, op: Op, ghost dirs: Dirs, ghost ty: Types) returns (out: Outcome, ghost dirs': Dirs)
    requires Mounted(fs, dirs) && Stocked(fs.inodes, dirs, ty) && Callable(op, ty)
    modifies fs
    ensures Mounted(fs, dirs') && Stocked(fs.inodes, dirs', After(ty, op))
    ensures Shape(fs.sb, old(fs.State())) && Shape(fs.sb, fs.State())
    ensures Step(old(Seen(fs, dirs)), op, out, old(MeansOf(fs.sb, fs.Now(), dirs, op)), Seen(fs, dirs'))
    ensures Solid(fs.sb, old(fs.State())) ==> Solid(fs.sb, fs.State())
  {
    hide Ready, View, Step, Solid, Shape, SameInodes;
    dirs' := dirs;
    ghost var inodes := fs.inodes;
    match op {
      case Read(i, off, n, room) => out := CallRead(fs, i, off, n, room, dirs, ty);
      case Write(i, off, src, avail) => out := CallWrite(fs, i, off, src, avail, dirs, ty);
      case Truncate(i) => out := CallTruncate(fs, i, dirs, ty);
      case Make(i, dir) => out, dirs' := CallMake(fs, i, dir, dirs, ty);
      case Drop(i) => out, dirs' := CallDrop(fs, i, dirs, ty);
      case Lookup(d, name) => out := CallLookup(fs, d, name, dirs, ty);
      case Link(d, name, target) => out, dirs' := CallLink(fs, d, name, target, dirs, ty);
      case Unlink(d, name) => out, dirs' := CallUnlink(fs, d, name, dirs, ty);
      case Recycle(block) => out := CallRecycle(fs, block, dirs);
    }
    if !op.Make? && !op.Drop? && !op.Recycle? { StillStocked(inodes, fs.inodes, dirs, dirs', ty, op.inum); }
  }

  predicate AllSmooth(ops: seq<Op>, means: seq<Means>) {
    |means| <= |ops| && forall t :: 0 <= t < |means| ==> Smooth(ops[t], means[t])
  }

  lemma SmoothMore(ops: seq<Op>, means: seq<Means>, mean: Means)
    requires |means| < |ops| && AllSmooth(ops, means) && Smooth(ops[|means|], mean)
    ensures AllSmooth(ops, means + [mean])
  {
  }

  /** Smooth calls do not panic. */
  lemma SmoothOk(ns: seq<Node>, op: Op, out: Outcome, mean: Means, ns': seq<Node>)
    requires Step(ns, op, out, mean, ns') && Smooth(op, mean)
    ensures out.ok
  {
  }

  /** A state between two calls. */
  datatype Moment = Moment(a: Snap, dirs: Dirs)

  ghost predicate Shows(sb: Super, m: Moment, ty: Types, ns: seq<Node>) {
    && Ready(sb, m.a, m.dirs) && Stocked(m.a.fs.inodes, m.dirs, ty)
    && ns == View(sb, m.a, m.dirs)
  }

  /** The states behind what is seen, and what each call found there. */
  ghost predicate Behind(sb: Super, moments: seq<Moment>, ty: Types, trace: seq<seq<Node>>, ops: seq<Op>, means: seq<Means>) {
    && |moments| == |trace| == |means| + 1 && |means| <= |ops|
    && (forall t: nat :: t < |trace| ==> Shows(sb, moments[t], TypesAt(ty, ops, t), trace[t]))
    && (forall t: nat :: t < |means| ==> Found(sb, moments[t], ops[t], means[t]))
  }

  ghost predicate Found(sb: Super, m: Moment, op: Op, mean: Means) {
    Ready(sb, m.a, m.dirs) && Asked(op, m.dirs.Keys, |m.a.fs.inodes|) && mean == MeansOf(sb, m.a, m.dirs, op)
  }

  lemma BehindMore(sb: Super, moments: seq<Moment>, ty: Types, trace: seq<seq<Node>>, ops: seq<Op>, means: seq<Means>,
                   m: Moment, ns: seq<Node>, mean: Means)
    requires Behind(sb, moments, ty, trace, ops, means) && |means| < |ops| && Shows(sb, m, TypesAt(ty, ops, |means| + 1), ns)
    requires Found(sb, moments[|means|], ops[|means|], mean)
    ensures Behind(sb, moments + [m], ty, trace + [ns], ops, means + [mean])
  {
    hide Shows, Found, TypesAt;
  }

  /** What is known of a run so far: `log` has the states seen, what each call found, and
      the states behind them. */
  datatype Log = Log(trace: seq<seq<Node>>, means: seq<Means>, moments: seq<Moment>)

  ghost predicate Ran(sb: Super, ops: seq<Op>, ty: Types, outs: seq<Outcome>, log: Log) {
    && |log.trace| == |log.moments| == |outs| + 1 && |log.means| == |outs| <= |ops|
    && Steps(log.trace, ops, outs, log.means) && Behind(sb, log.moments, ty, log.trace, ops, log.means)
  }

  /** The last state of the log is this one. */
  ghost predicate Ends(log: Log, a: Snap, dirs: Dirs) {
    log.moments != [] && log.moments[|log.moments| - 1] == Moment(a, dirs)
  }

  /** The next call of a run. */
  method RunOne(fs: FileSystem, ops: seq<Op>, outs: seq<Outcome>, ghost dirs: Dirs, ghost ty: Types, ghost log: Log)
    returns (out: Outcome, ghost dirs': Dirs, ghost log': Log)
    requires Mounted(fs, dirs) && Legal(ops, ty) && |outs| < |ops| && Stocked(fs.inodes, dirs, TypesAt(ty, ops, |outs|))
    requires Ran(fs.sb, ops, ty, outs, log) && Ends(log, fs.Now(), dirs)
    modifies fs
    ensures Mounted(fs, dirs') && Shape(fs.sb, old(fs.State())) && Shape(fs.sb, fs.State())
    ensures Stocked(fs.inodes, dirs', TypesAt(ty, ops, |outs| + 1))
    ensures Ran(fs.sb, ops, ty, outs + [out], log') && Ends(log', fs.Now(), dirs') && log'.moments != [] && log'.moments[0] == log.moments[0]
    ensures Solid(fs.sb, old(fs.State())) ==> Solid(fs.sb, fs.State()) && out.ok && (AllSmooth(ops, log.means) ==> AllSmooth(ops, log'.means))
  {
    hide Ready, View, Solid, Shape, Owned, StaleOk, Smooth, Callable, MeansOf, AllSmooth, Stocked, Step, Steps, Behind, Legal, TypesAt, After, Asked;
    MountedShape(fs.sb, fs.Now(), dirs);
    LegalAt(ops, ty, |outs|);
    CallAsked(ops[|outs|], fs.inodes, dirs, TypesAt(ty, ops, |outs|));
    ghost var mean := MeansOf(fs.sb, fs.Now(), dirs, ops[|outs|]);
    if Solid(fs.sb, fs.State()) { SolidMeans(fs.sb, fs.Now(), dirs, ops[|outs|]); }
    LastShown(fs.sb, log.moments, ty, log.trace, ops, log.means);
    out, dirs' := Call(fs, ops[|outs|], dirs, TypesAt(ty, ops, |outs|));
    ghost var m, ns := Moment(fs.Now(), dirs'), Seen(fs, dirs');
    RunMore(fs.sb, log.moments, ty, log.trace, ops, outs, log.means, m, ns, out, mean);
    log' := Log(log.trace + [ns], log.means + [mean], log.moments + [m]);
  }

  lemma LastShown(sb: Super, moments: seq<Moment>, ty: Types, trace: seq<seq<Node>>, ops: seq<Op>, means: seq<Means>)
    requires Behind(sb, moments, ty, trace, ops, means)
    ensures 0 < |moments| == |trace| <= |ops| + 1 && Shows(sb, moments[|moments| - 1], TypesAt(ty, ops, |moments| - 1), trace[|moments| - 1])
  {
    hide Shows, TypesAt;
  }

  /** Any sequence of calls, up to the first panic: ownership holds throughout, and
      what is seen goes from call to call as the steps say, each call finding the
      blocks that its state has. */
  method Run(fs: FileSystem, ops: seq<Op>, ghost dirs: Dirs, ghost ty: Types) returns (outs: seq<Outcome>, ghost log: Log)
    requires Mounted(fs, dirs) && Stocked(fs.inodes, dirs, ty) && Legal(ops, ty)
    modifies fs
    ensures Ran(fs.sb, ops, ty, outs, log) && |log.moments| == |outs| + 1
    ensures log.moments[0] == Moment(old(fs.Now()), dirs) && log.moments[|outs|].a == fs.Now()
    ensures forall t :: 0 <= t < |outs| && !outs[t].ok ==> t == |outs| - 1
    ensures |outs| < |ops| ==> outs != [] && !outs[|outs| - 1].ok
    ensures Shape(fs.sb, old(fs.State())) && Shape(fs.sb, fs.State())
    ensures Solid(fs.sb, old(fs.State())) ==> Solid(fs.sb, fs.State()) && |outs| == |ops| && AllSmooth(ops, log.means)
  {
    hide Ready, View, Solid, Shape, Owned, StaleOk, AllSmooth, Stocked, Steps, Behind, Legal, TypesAt, Ran, Ends;
    MountedShape(fs.sb, fs.Now(), dirs);
    outs, log := [], Log([Seen(fs, dirs)], [], [Moment(fs.Now(), dirs)]);
    ghost var dirs' := dirs;
    NoneYet(fs.sb, ops, ty, log.moments[0], log.trace[0], log);
    while |outs| < |ops|
      invariant |outs| <= |ops| && Mounted(fs, dirs') && Shape(fs.sb, fs.State()) && Stocked(fs.inodes, dirs', TypesAt(ty, ops, |outs|))
      invariant Ran(fs.sb, ops, ty, outs, log) && Ends(log, fs.Now(), dirs')
      invariant |log.moments| == |outs| + 1 && log.moments[0] == Moment(old(fs.Now()), dirs) && log.moments[|outs|] == Moment(fs.Now(), dirs')
      invariant forall t :: 0 <= t < |outs| ==> outs[t].ok
      invariant Solid(fs.sb, old(fs.State())) ==> Solid(fs.sb, fs.State()) && AllSmooth(ops, log.means)
      decreases |ops| - |outs|
    {
      var out;
      out, dirs', log := RunOne(fs, ops, outs, dirs', ty, log);
      outs := outs + [out];
      RanEnds(fs.sb, ops, ty, outs, log, fs.Now(), dirs');
      if !out.ok { return; }
    }
  }

  /** One more call. */
  lemma RunMore(sb: Super, moments: seq<Moment>, ty: Types, trace: seq<seq<Node>>, ops: seq<Op>, outs: seq<Outcome>, means: seq<Means>,
                m: Moment, ns: seq<Node>, out: Outcome, mean: Means)
    requires Steps(trace, ops, outs, means) && Behind(sb, moments, ty, trace, ops, means)
    requires |trace| == |moments| == |outs| + 1 && |means| == |outs| < |ops|
    requires Shows(sb, m, After(TypesAt(ty, ops, |outs|), ops[|outs|]), ns) && Found(sb, moments[|outs|], ops[|outs|], mean)
    requires Step(trace[|outs|], ops[|outs|], out, mean, ns)
    ensures Steps(trace + [ns], ops, outs + [out], means + [mean]) && Behind(sb, moments + [m], ty, trace + [ns], ops, means + [mean])
    ensures Smooth(ops[|outs|], mean) ==> out.ok && (AllSmooth(ops, means) ==> AllSmooth(ops, means + [mean]))
  {
    hide Shows, Found, Step, Steps, Behind, Smooth, AllSmooth, After;
    assert TypesAt(ty, ops, |outs| + 1) == After(TypesAt(ty, ops, |outs|), ops[|outs|]);
    hide TypesAt;
    StepsMore(trace, ops, outs, means, out, mean, ns);
    BehindMore(sb, moments, ty, trace, ops, means, m, ns, mean);
    if Smooth(ops[|outs|], mean) {
      SmoothOk(trace[|outs|], ops[|outs|], out, mean, ns);
      if AllSmooth(ops, means) { SmoothMore(ops, means, mean); }
    }
  }

  lemma LegalAt(ops: seq<Op>, ty: Types, t: nat)
    requires Legal(ops, ty) && t < |ops|
    ensures Callable(ops[t], TypesAt(ty, ops, t)) && TypesAt(ty, ops, t + 1) == After(TypesAt(ty, ops, t), ops[t])
  {
    hide Callable;
  }

  lemma CallAsked(op: Op, inodes: seq<Inode>, dirs: Dirs, ty: Types)
    requires Stocked(inodes, dirs, ty) && Callable(op, ty)
    ensures Asked(op, dirs.Keys, |inodes|)
  {
  }

  lemma NoneYet(sb: Super, ops: seq<Op>, ty: Types, m: Moment, ns: seq<Node>, log: Log)
    requires Shows(sb, m, ty, ns) && log == Log([ns], [], [m])
    ensures AllSmooth(ops, []) && Ran(sb, ops, ty, [], log) && Ends(log, m.a, m.dirs) && TypesAt(ty, ops, 0) == ty
  {
    hide Shows;
  }

  /** The log ends with the state that the calls end with. */
  lemma RanEnds(sb: Super, ops: seq<Op>, ty: Types, outs: seq<Outcome>, log: Log, a: Snap, dirs: Dirs)
    requires Ran(sb, ops, ty, outs, log) && Ends(log, a, dirs)
    ensures |log.moments| == |outs| + 1 && |log.means| == |outs| && log.moments[|outs|] == Moment(a, dirs)
  {
    hide Steps, Behind;
  }

  /** The directories of a fresh image: the root, if its names are distinct. */
  ghost function FirstDirs(files: seq<Mkfs.HostFile>): Dirs {
    if MkfsRoot.DistinctNames(files) then map[Mkfs.ROOTINO := MkfsRoot.RootAt(files)] else map[]
  }

  /** Its types: the inodes after those of the files are free. */
  ghost function FirstTypes(files: seq<Mkfs.HostFile>): Types {
    Types(FirstDirs(files).Keys, (set i: nat | i < Mkfs.NINODES && NoFile(files, i)), Mkfs.NINODES)
  }

  /** Inode `i` is past those of the files. */
  predicate NoFile(files: seq<Mkfs.HostFile>, i: nat) {
    i >= |files| + 2
  }

  lemma FreshReady(files: seq<Mkfs.HostFile>, a: Snap)
    requires |files| < Mkfs.NINODES - 2 && Mkfs.Built(files, a.fs, a.owner) && a.u == map[]
    ensures Ready(Mkfs.SUPER, a, FirstDirs(files)) && Shape(Mkfs.SUPER, a.fs) && |a.fs.inodes| == Mkfs.NINODES
  {
    var sb := Mkfs.SUPER;
    OwnedShape(sb, a.fs, a.owner);
    hide Owned, HoleFree, Mkfs.RootBuilt, IsDir, Content, Solid, MkfsRoot.RootAt, MkfsRoot.DistinctNames, ByteAt;
    MkfsRoot.RootIsDir(files, Content(sb, a.fs, Mkfs.ROOTINO));
    forall i: nat
      ensures IsDirAt(sb, a, FirstDirs(files), i)
    {
    }
  }

  lemma FreshNode(files: seq<Mkfs.HostFile>, a: Snap, i: nat)
    requires |files| < Mkfs.NINODES - 2 && Mkfs.Built(files, a.fs, a.owner) && a.u == map[] && i < Mkfs.NINODES
    requires Ready(Mkfs.SUPER, a, FirstDirs(files)) && Shape(Mkfs.SUPER, a.fs) && |a.fs.inodes| == Mkfs.NINODES
    ensures var c := Content(Mkfs.SUPER, a.fs, i);
            View(Mkfs.SUPER, a, FirstDirs(files))[i] ==
            if i == Mkfs.ROOTINO && MkfsRoot.DistinctNames(files) then Dir(MkfsRoot.RootMap(files)) else File(c, c)
  {
    var sb := Mkfs.SUPER;
    hide Owned, HoleFree, Mkfs.RootBuilt, IsDir, Content, SavedContent, Solid, MkfsRoot.RootAt, MkfsRoot.RootMap, MkfsRoot.DistinctNames, ByteAt;
    MkfsRoot.RootIsDir(files, Content(sb, a.fs, Mkfs.ROOTINO));
    AllSaved(sb, a, i);
    ViewAt(sb, a, FirstDirs(files), i);
  }

  /** What an image shows: every file with its bytes, saved, and the root with their names. */
  ghost predicate Imaged(files: seq<Mkfs.HostFile>, ns: seq<Node>)
    requires |files| < Mkfs.NINODES - 2
  {
    && |ns| == Mkfs.NINODES && Tidied(ns)
    && (forall k: nat :: k < |files| ==> ns[k + 2] == File(files[k].data, files[k].data))
    && (MkfsRoot.DistinctNames(files) ==> ns[Mkfs.ROOTINO] == Dir(MkfsRoot.RootMap(files)))
  }

  lemma FreshImaged(files: seq<Mkfs.HostFile>, a: Snap)
    requires |files| < Mkfs.NINODES - 2 && Mkfs.Built(files, a.fs, a.owner) && a.u == map[]
    requires Ready(Mkfs.SUPER, a, FirstDirs(files)) && Shape(Mkfs.SUPER, a.fs) && |a.fs.inodes| == Mkfs.NINODES
    ensures Imaged(files, View(Mkfs.SUPER, a, FirstDirs(files)))
  {
    hide Owned, Mkfs.RootBuilt, Mkfs.HolesLeft, Mkfs.Unused, Content, MkfsRoot.RootMap, MkfsRoot.DistinctNames, View, Ready, FirstDirs;
    forall i: nat | i < Mkfs.NINODES
      ensures var c := Content(Mkfs.SUPER, a.fs, i);
              View(Mkfs.SUPER, a, FirstDirs(files))[i] ==
              if i == Mkfs.ROOTINO && MkfsRoot.DistinctNames(files) then Dir(MkfsRoot.RootMap(files)) else File(c, c)
    {
      FreshNode(files, a, i);
    }
  }

  lemma FreshMounted(files: seq<Mkfs.HostFile>, a: Snap)
    requires |files| < Mkfs.NINODES - 2 && Mkfs.Built(files, a.fs, a.owner) && a.u == map[]
    ensures Ready(Mkfs.SUPER, a, FirstDirs(files)) && Shape(Mkfs.SUPER, a.fs) && |a.fs.inodes| == Mkfs.NINODES
    ensures Imaged(files, View(Mkfs.SUPER, a, FirstDirs(files)))
    ensures Solid(Mkfs.SUPER, a.fs) <==> (|files| + 2) % 64 != 0
  {
    FreshReady(files, a);
    hide Ready, View, Imaged, Owned, Mkfs.RootBuilt, Mkfs.FilesBuilt, Mkfs.Unused, HoleFree, Content;
    FreshImaged(files, a);
  }

  lemma AllSaved(sb: Super, a: Snap, i: nat)
    requires Shape(sb, a.fs) && i < |a.fs.inodes| && a.u == map[]
    ensures SavedContent(sb, a, i) == Content(sb, a.fs, i)
  {
    hide ByteAt;
  }

  /** From a fresh image: whatever files mkfs packed and whatever calls follow, the run
      starts from those files and that root directory. */
  method RunFromImage(files: seq<Mkfs.HostFile>, ops: seq<Op>) returns (ok: bool, outs: seq<Outcome>, ghost log: Log)
    requires |files| < Mkfs.NINODES - 2 && Legal(ops, FirstTypes(files))
    ensures ok ==> Ran(Mkfs.SUPER, ops, FirstTypes(files), outs, log) && Imaged(files, log.trace[0])
    ensures ok && |outs| < |ops| ==> outs != [] && !outs[|outs| - 1].ok
    ensures ok && (|files| + 2) % 64 != 0 ==> |outs| == |ops| && AllSmooth(ops, log.means)
  {
    hide Ready, View, Solid, Shape, Owned, StaleOk, Mkfs.Built, Steps, Behind, Stocked, TypesAt, Legal, Ran, Imaged, AllSmooth;
    outs, log := [], Log([], [], []);
    var used, disk, inodes;
    ghost var owner;
    ok, used, disk, inodes, owner := Mkfs.Build(files);
    if !ok { return; }
    BuiltOwned(files, Fs(disk, inodes), owner);
    var fs := new FileSystem(Mkfs.SUPER, disk, inodes, owner);
    FreshMounted(files, fs.Now());
    FreshStocked(files, fs.State(), owner);
    outs, log := Run(fs, ops, FirstDirs(files), FirstTypes(files));
    RanFirst(Mkfs.SUPER, ops, FirstTypes(files), outs, log);
  }

  lemma RanFirst(sb: Super, ops: seq<Op>, ty: Types, outs: seq<Outcome>, log: Log)
    requires Ran(sb, ops, ty, outs, log)
    ensures |log.moments| == |log.trace| > 0 && Ready(sb, log.moments[0].a, log.moments[0].dirs)
    ensures log.trace[0] == View(sb, log.moments[0].a, log.moments[0].dirs)
  {
    hide Ready, View, Stocked, Steps, TypesAt, Found;
    assert Shows(sb, log.moments[0], TypesAt(ty, ops, 0), log.trace[0]);
  }

  lemma FreshStocked(files: seq<Mkfs.HostFile>, fs: Fs, owner: map<nat, Place>)
    requires |files| < Mkfs.NINODES - 2 && Mkfs.Built(files, fs, owner)
    ensures Stocked(fs.inodes, FirstDirs(files), FirstTypes(files))
  {
    hide Owned, Mkfs.RootBuilt, HoleFree, Content, MkfsRoot.DistinctNames;
  }

  lemma BuiltOwned(files: seq<Mkfs.HostFile>, fs: Fs, owner: map<nat, Place>)
    requires |files| < Mkfs.NINODES - 2 && Mkfs.Built(files, fs, owner)
    ensures Owned(Mkfs.SUPER, fs, owner) && |fs.inodes| == Mkfs.NINODES
  {
  }

  // ---- bytes that are seen and then are not

  /** One byte of two can be copied in. The write counts none, yet a read sees the byte;
      and when the buffer has been recycled, the old byte again. */
  method StrayLost(fs: FileSystem, i: nat, x: byte) returns (before: seq<byte>, after: seq<byte>)
    requires fs.Valid() && fs.unsaved == map[] && i < |fs.inodes| && fs.inodes[i].size >= 2
    requires Shape(fs.sb, fs.State()) && HoleFree(fs.sb, fs.State(), i)
    modifies fs
    ensures before == [x] && after == [old(Content(fs.sb, fs.State(), i)[0])]
  {
    hide Owned, StaleOk, HoleFree, SavedAt, ByteAt, Content, Reverted, SamePtrs;
    ghost var a := fs.Now();
    FirstByte(fs.sb, a.fs, i);
    StrayWrite(fs, i, x);
    ghost var b := fs.Now();
    before := ReadFirst(fs, i);
    var block := fs.inodes[i].addrs[0];
    fs.Recycle(block);
    OwnedShape(fs.sb, fs.State(), fs.owner);
    StrayGone(fs.sb, a, b, fs.Now(), i, block);
    after := ReadFirst(fs, i);
  }

  method ReadFirst(fs: FileSystem, i: nat) returns (d: seq<byte>)
    requires fs.Valid() && i < |fs.inodes| && fs.inodes[i].size >= 1 && Shape(fs.sb, fs.State()) && HoleFree(fs.sb, fs.State(), i)
    modifies fs
    ensures fs.Valid() && fs.Now() == old(fs.Now()) && d == [old(ByteAt(fs.sb, fs.State(), i, 0))]
  {
    hide Owned, StaleOk, HoleFree, Full, Content, ByteAt, Fits, Drawn, Grown, Shed, SameSlots;
    ghost var a := fs.Now();
    OwnedShape(fs.sb, a.fs, a.owner);
    FirstByte(fs.sb, a.fs, i);
    RangeFits(fs.sb, a.fs, i, 0, 1, 1);
    var r;
    r, d := fs.Readi(i, 0, 1, 1);
  }

  /** A write of two bytes at the start of the file of which one can be copied in. */
  method StrayWrite(fs: FileSystem, i: nat, x: byte)
    requires fs.Valid() && fs.unsaved == map[] && i < |fs.inodes| && fs.inodes[i].size >= 2
    requires Shape(fs.sb, fs.State()) && HoleFree(fs.sb, fs.State(), i)
    modifies fs
    ensures fs.Valid() && Shape(fs.sb, fs.State()) && |fs.inodes| == |old(fs.inodes)| && fs.inodes[i].size == old(fs.inodes)[i].size
    ensures HoleFree(fs.sb, fs.State(), i) && ByteAt(fs.sb, fs.State(), i, 0) == x
    ensures SavedAt(fs.sb, fs.State(), fs.unsaved, i, 0) == old(ByteAt(fs.sb, fs.State(), i, 0))
  {
    ghost var a := fs.Now();
    OwnedShape(fs.sb, a.fs, a.owner);
    HoleFreeFits(fs.sb, a.fs, i, 0, 1);
    hide Owned, StaleOk, HoleFree, KeptPtrs, Fits, Drawn, SameSlots, Full, Resaved, WroteBytes, Wrote, Content, SavedAt, ByteAt;
    ghost var stray;
    var r;
    r, stray := fs.Writei(i, 0, [x, x], 1);
    OwnedShape(fs.sb, fs.State(), fs.owner);
    StraySeen(fs.sb, a, fs.Now(), i, x);
  }

  lemma FirstByte(sb: Super, fs: Fs, i: nat)
    requires Shape(sb, fs) && i < |fs.inodes| && fs.inodes[i].size >= 1
    ensures Content(sb, fs, i)[0..1] == [Content(sb, fs, i)[0]] && Content(sb, fs, i)[0] == ByteAt(sb, fs, i, 0)
  {
  }

  lemma StraySeen(sb: Super, a: Snap, b: Snap, i: nat, x: byte)
    requires Shape(sb, a.fs) && Shape(sb, b.fs) && |a.fs.inodes| == |b.fs.inodes| && i < |a.fs.inodes| && a.fs.inodes[i].size >= 2 && a.u == map[]
    requires Wrote(sb, a.fs, b.fs, i, 0, [x, x][..1], 0) && WroteBytes(sb, a.fs, b.fs, i, 0, [x, x][..1])
    requires Resaved(sb, a.fs, a.u, b.fs, b.u, i, 0, [x, x][..0])
    ensures b.fs.inodes[i].size == a.fs.inodes[i].size
    ensures ByteAt(sb, b.fs, i, 0) == x && SavedAt(sb, b.fs, b.u, i, 0) == ByteAt(sb, a.fs, i, 0)
  {
    assert [x, x][..0] == [] && [x, x][..1] == [x];
    hide BlockOf;
  }

  lemma StrayGone(sb: Super, a: Snap, b: Snap, c: Snap, i: nat, block: nat)
    requires Shape(sb, b.fs) && Shape(sb, c.fs) && Shape(sb, a.fs) && i < |a.fs.inodes| == |b.fs.inodes| == |c.fs.inodes|
    requires block == b.fs.inodes[i].addrs[0] && SavedAt(sb, b.fs, b.u, i, 0) == ByteAt(sb, a.fs, i, 0)
    requires Reverted(sb, b.fs, b.u, c.fs, c.u, block) && SamePtrs(sb, b.fs, c.fs) && c.fs.inodes == b.fs.inodes && HoleFree(sb, b.fs, i)
    ensures ByteAt(sb, c.fs, i, 0) == ByteAt(sb, a.fs, i, 0) && HoleFree(sb, c.fs, i)
  {
    hide Word;
    assert BlockOf(sb, b.fs, i, 0) == block;
    forall bn: nat | bn < MAXFILE && bn * BSIZE < c.fs.inodes[i].size
      ensures BlockOf(sb, c.fs, i, bn) != 0
    {
      assert ValidPlace(b.fs, i, SlotOf(bn)) && BlockOf(sb, b.fs, i, bn) != 0;
    }
  }
}
