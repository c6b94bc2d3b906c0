/**
  The directory operations of the file system: a directory is a file whose bytes
  are entries, and stands for a finite map from names to inode numbers.

  `ok` is false where the source panics because an entry could not be read: exactly
  when the blocks missing under the entries to be read are more than the free ones.
 */
module Directory {
  import opened Common
  import opened FsLayout
  import opened FsBlocks
  import opened FsEffects
  import opened FsNeeds
  import opened FsSaved
  import opened FsSnap
  import opened FileSystem
  import opened DirFormat

  /** `strncmp(p, q, DIRSIZ) == 0`, by the loop that computes it. */
  method NameCmp(p: seq<byte>, q: seq<byte>) returns (same: bool)
    requires |p| == |q| == DIRSIZ
    ensures same <==> Canon(p) == Canon(q)
  {
    var k := 0;
    while k < DIRSIZ && p[k] != 0 && p[k] == q[k]
      invariant 0 <= k <= DIRSIZ
      invariant Canon(p) == Canon(q) <==> Canon(p[k..]) == Canon(q[k..])
    {
      CanonStep(p[k..], q[k..]);
      k := k + 1;
    }
    if k < DIRSIZ {
      assert p[k..][0] == p[k] && q[k..][0] == q[k];
      if p[k] != 0 { assert Canon(p[k..])[0] == p[k]; }
      if q[k] != 0 { assert Canon(q[k..])[0] == q[k]; }
    }
    return k == DIRSIZ || p[k] == q[k];
  }

  type Names = map<seq<byte>, nat>

  /** `dp` is a directory whose names are `at`. */
  ghost predicate OpenDir(fs: FileSystem, dp: nat, at: Names)
    reads fs
  {
    && fs.Valid() && dp < |fs.inodes|
    && IsDir(Content(fs.sb, fs.State(), dp), at)
  }

  ghost function DirBytes(fs: FileSystem, dp: nat): seq<byte>
    requires fs.Valid() && dp < |fs.inodes|
    reads fs
  {
    Content(fs.sb, fs.State(), dp)
  }

  ghost function MapOf(fs: FileSystem, dp: nat, at: Names): map<seq<byte>, nat>
    requires OpenDir(fs, dp, at)
    reads fs
  {
    Bindings(DirBytes(fs, dp), at)
  }

  // ---- reading entries

  lemma SlotBlock(k: nat)
    ensures ENTRY * k / BSIZE == k / PERBLOCK && BlocksEnd(ENTRY * k, ENTRY) == k / PERBLOCK + 1
    ensures SlotsEnd(k + 1) == k / PERBLOCK + 1 && k / PERBLOCK <= SlotsEnd(k) <= k / PERBLOCK + 1
  {
  }

  /** One entry, read through `Readi`, when since `base` the blocks of the directory up to `m` have been. */
  method ReadEntry(fs: FileSystem, dp: nat, k: nat, ghost m: nat, ghost at: Names, ghost first: Snap, ghost base: Fs)
    returns (ok: bool, d: seq<byte>)
    requires OpenDir(fs, dp, at) && k < fs.inodes[dp].size / ENTRY && Peeked(fs.sb, dp, first, fs.Now())
    requires k / PERBLOCK <= m <= k / PERBLOCK + 1 && Drawn(fs.sb, base, fs.State(), dp, 0, m)
    modifies fs
    ensures OpenDir(fs, dp, at) && Peeked(fs.sb, dp, first, fs.Now()) && |fs.inodes| == |old(fs.inodes)|
    ensures DirBytes(fs, dp) == old(DirBytes(fs, dp))
    ensures |d| == ENTRY && (ok ==> d == Slot(DirBytes(fs, dp), k))
    ensures Shape(fs.sb, base) && dp < |base.inodes| && (ok <==> Fits(fs.sb, base, dp, 0, SlotsEnd(k + 1)))
    ensures ok ==> Drawn(fs.sb, base, fs.State(), dp, 0, SlotsEnd(k + 1))
    ensures !ok ==> Full(fs.sb, fs.State())
  {
    hide Content, Owned, StaleOk, UsedSet, Full, Peeked, Fits, Drawn, Stops;
    ghost var before := fs.Now();
    OwnedShape(fs.sb, fs.State(), fs.owner);
    PeekedHoles(fs.sb, dp, first, before);
    ghost var c := DirBytes(fs, dp);
    SlotBlock(k);
    var r;
    r, d := fs.Readi(dp, ENTRY * k, ENTRY, ENTRY);
    OwnedShape(fs.sb, fs.State(), fs.owner);
    PeekedJoin(fs.sb, dp, first, before, fs.Now());
    PeekedHoles(fs.sb, dp, before, fs.Now());
    EntryDrawn(fs.sb, base, before.fs, fs.State(), dp, k / PERBLOCK, m);
    ok := r == ENTRY;
    if !ok { d := ZeroBytes(ENTRY); }
  }

  lemma EntryDrawn(sb: Super, a: Fs, b: Fs, c: Fs, dp: nat, bn: nat, m: nat)
    requires Drawn(sb, a, b, dp, 0, m) && bn <= m <= bn + 1
    ensures Shape(sb, a) && Shape(sb, b) && dp < |a.inodes| == |b.inodes|
    ensures Fits(sb, b, dp, bn, bn + 1) <==> Fits(sb, a, dp, 0, bn + 1)
    ensures Drawn(sb, b, c, dp, bn, bn + 1) ==> Drawn(sb, a, c, dp, 0, bn + 1)
  {
    if m == bn {
      NeedsOn(sb, a, b, dp, 0, m, m, m + 1);
      if Drawn(sb, b, c, dp, bn, bn + 1) { DrawnOn(sb, a, b, c, dp, 0, m, m, m + 1); }
    } else {
      DrawnFits(sb, a, b, dp, 0, m);
      DrawnNeeds(sb, a, b, dp, 0, m, bn, m);
      if Drawn(sb, b, c, dp, bn, bn + 1) { DrawnOver(sb, a, b, c, dp, 0, m, bn, m); }
    }
  }

  /** The block of slot `k` exists. */
  ghost predicate SlotBacked(fs: FileSystem, dp: nat, k: nat)
    requires fs.Valid() && dp < |fs.inodes|
    reads fs
  {
    Needs(fs.sb, fs.State(), dp, k / PERBLOCK, k / PERBLOCK + 1) == {}
  }

  lemma SlotDrawn(sb: Super, a: Fs, b: Fs, dp: nat, k: nat, t: nat)
    requires Drawn(sb, a, b, dp, 0, SlotsEnd(t)) && k < t
    ensures Shape(sb, b) && dp < |b.inodes| && Needs(sb, b, dp, k / PERBLOCK, k / PERBLOCK + 1) == {}
  {
    hide Drawn, Needs;
    DrawnNeeds(sb, a, b, dp, 0, SlotsEnd(t), k / PERBLOCK, k / PERBLOCK + 1);
  }

  /** A search that stopped for want of a block at slot `k` would have gone on to `t`. */
  lemma SearchStops(sb: Super, fs: Fs, dp: nat, k: nat, t: nat)
    requires Shape(sb, fs) && dp < |fs.inodes| && !Fits(sb, fs, dp, 0, SlotsEnd(k + 1)) && k < t
    ensures !Fits(sb, fs, dp, 0, SlotsEnd(t))
  {
    hide Fits;
    if Fits(sb, fs, dp, 0, SlotsEnd(t)) { FitsLess(sb, fs, dp, 0, SlotsEnd(k + 1), SlotsEnd(t)); }
  }

  /** A name in use is at or past the slots searched without finding it. */
  lemma NotYet(c: seq<byte>, at: Names, n: seq<byte>, k: nat)
    requires IsDir(c, at) && k <= Count(c) && forall j: nat :: j < k && Live(c, j) ==> EntryName(Slot(c, j)) != n
    ensures k <= Searched(c, at, n) && (k < Count(c) ==> k < Searched(c, at, n)) && (k == Count(c) ==> n !in at)
  {
    hide Slot, EntryInum, EntryName;
  }

  /** The inode number bound to `name`, or 0. */
  method Dirlookup(fs: FileSystem, dp: nat, name: seq<byte>, ghost at: Names) returns (ok: bool, inum: nat)
    requires OpenDir(fs, dp, at) && |name| == DIRSIZ
    modifies fs
    ensures OpenDir(fs, dp, at) && Peeked(fs.sb, dp, old(fs.Now()), fs.Now()) && DirBytes(fs, dp) == old(DirBytes(fs, dp))
    ensures ok ==> inum == if Canon(name) in at then MapOf(fs, dp, at)[Canon(name)] else 0
    ensures ok ==> (inum == 0 <==> Canon(name) !in at)
    ensures ok <==> Fits(fs.sb, old(fs.State()), dp, 0, SlotsEnd(Searched(old(DirBytes(fs, dp)), at, Canon(name))))
    ensures ok ==> Drawn(fs.sb, old(fs.State()), fs.State(), dp, 0, SlotsEnd(Searched(old(DirBytes(fs, dp)), at, Canon(name))))
    ensures !ok ==> Full(fs.sb, fs.State())
  {
    hide Content, Owned, Slot, EntryInum, EntryName, Canon, StaleOk, Peeked, Full, Fits, Drawn;
    ghost var first := fs.Now();
    OwnedShape(fs.sb, first.fs, first.owner);
    PeekedSelf(fs.sb, dp, first);
    DrawnNone(fs.sb, first.fs, dp, 0);
    ghost var c := DirBytes(fs, dp);
    var k := 0;
    while k < fs.inodes[dp].size / ENTRY
      invariant OpenDir(fs, dp, at) && Peeked(fs.sb, dp, first, fs.Now()) && DirBytes(fs, dp) == c
      invariant k <= Count(c) && forall j: nat :: j < k && Live(c, j) ==> EntryName(Slot(c, j)) != Canon(name)
      invariant Drawn(fs.sb, first.fs, fs.State(), dp, 0, SlotsEnd(k))
    {
      NotYet(c, at, Canon(name), k);
      SlotBlock(k);
      var d;
      ok, d := ReadEntry(fs, dp, k, SlotsEnd(k), at, first, first.fs);
      if !ok {
        SearchStops(fs.sb, first.fs, dp, k, Searched(c, at, Canon(name)));
        return false, 0;
      }
      if EntryInum(d) != 0 {
        var same := NameCmp(name, d[2..]);
        EntryNameIs(d);
        if same { return true, EntryInum(d); }
      }
      k := k + 1;
    }
    NotYet(c, at, Canon(name), k);
    DrawnFits(fs.sb, first.fs, fs.State(), dp, 0, SlotsEnd(k));
    return true, 0;
  }

  lemma EntryNameIs(d: seq<byte>)
    requires |d| == ENTRY
    ensures EntryName(d) == Canon(d[2..])
  {
  }

  /** The first slot whose entry is free, or the slot just past the end. */
  method FreeSlot(fs: FileSystem, dp: nat, ghost at: Names) returns (ok: bool, k: nat)
    requires OpenDir(fs, dp, at)
    modifies fs
    ensures OpenDir(fs, dp, at) && Peeked(fs.sb, dp, old(fs.Now()), fs.Now()) && DirBytes(fs, dp) == old(DirBytes(fs, dp))
    ensures ok ==> k <= Count(DirBytes(fs, dp)) && (k < Count(DirBytes(fs, dp)) ==> !Live(DirBytes(fs, dp), k))
    ensures ok ==> forall j: nat :: j < k ==> Live(DirBytes(fs, dp), j)
    ensures ok <==> Fits(fs.sb, old(fs.State()), dp, 0, SlotsEnd(Scanned(old(DirBytes(fs, dp)), 0, false)))
    ensures ok ==> Drawn(fs.sb, old(fs.State()), fs.State(), dp, 0, SlotsEnd(Scanned(old(DirBytes(fs, dp)), 0, false)))
    ensures !ok ==> Full(fs.sb, fs.State())
  {
    hide Content, Owned, Slot, EntryInum, EntryName, StaleOk, Peeked, Full, Fits, Drawn;
    ghost var first := fs.Now();
    OwnedShape(fs.sb, first.fs, first.owner);
    PeekedSelf(fs.sb, dp, first);
    DrawnNone(fs.sb, first.fs, dp, 0);
    ghost var c := DirBytes(fs, dp);
    k := 0;
    while k < fs.inodes[dp].size / ENTRY
      invariant OpenDir(fs, dp, at) && Peeked(fs.sb, dp, first, fs.Now()) && DirBytes(fs, dp) == c
      invariant k <= Count(c) && forall j: nat :: j < k ==> Live(c, j)
      invariant Scanned(c, 0, false) == Scanned(c, k, false) && Drawn(fs.sb, first.fs, fs.State(), dp, 0, SlotsEnd(k))
    {
      SlotBlock(k);
      var d;
      ok, d := ReadEntry(fs, dp, k, SlotsEnd(k), at, first, first.fs);
      if !ok {
        SearchStops(fs.sb, first.fs, dp, k, Scanned(c, k, false));
        return;
      }
      if EntryInum(d) == 0 { return; }
      k := k + 1;
    }
    DrawnFits(fs.sb, first.fs, fs.State(), dp, 0, SlotsEnd(k));
    ok := true;
  }

  /** The blocks read by a scan from slot `k` for an entry in use. */
  function ScanEnd(c: seq<byte>, k: nat): nat
    requires DirSized(c)
  {
    if Scanned(c, k, true) == k then 0 else SlotsEnd(Scanned(c, k, true))
  }

  /** No entry in use from the third on. */
  method Isdirempty(fs: FileSystem, dp: nat, ghost at: Names) returns (ok: bool, empty: bool)
    requires OpenDir(fs, dp, at)
    modifies fs
    ensures OpenDir(fs, dp, at) && Peeked(fs.sb, dp, old(fs.Now()), fs.Now()) && DirBytes(fs, dp) == old(DirBytes(fs, dp))
    ensures ok ==> (empty <==> forall j: nat :: 2 <= j < Count(DirBytes(fs, dp)) ==> !Live(DirBytes(fs, dp), j))
    ensures ok <==> Fits(fs.sb, old(fs.State()), dp, 0, ScanEnd(old(DirBytes(fs, dp)), 2))
    ensures ok ==> Drawn(fs.sb, old(fs.State()), fs.State(), dp, 0, ScanEnd(old(DirBytes(fs, dp)), 2))
    ensures !ok ==> Full(fs.sb, fs.State())
  {
    hide Content, Owned, Slot, EntryInum, EntryName, StaleOk, Peeked, Full, Fits, Drawn;
    ghost var first := fs.Now();
    OwnedShape(fs.sb, first.fs, first.owner);
    PeekedSelf(fs.sb, dp, first);
    DrawnNone(fs.sb, first.fs, dp, 0);
    ghost var c := DirBytes(fs, dp);
    empty := false;
    var k := 2;
    ghost var m := 0;
    while k < fs.inodes[dp].size / ENTRY
      invariant OpenDir(fs, dp, at) && Peeked(fs.sb, dp, first, fs.Now()) && DirBytes(fs, dp) == c
      invariant k >= 2 && forall j: nat :: 2 <= j < k && j < Count(c) ==> !Live(c, j)
      invariant m == (if k == 2 then 0 else SlotsEnd(k)) && Drawn(fs.sb, first.fs, fs.State(), dp, 0, m)
      invariant Scanned(c, 2, true) == Scanned(c, k, true)
    {
      SlotBlock(k);
      var d;
      ok, d := ReadEntry(fs, dp, k, m, at, first, first.fs);
      if !ok {
        SearchStops(fs.sb, first.fs, dp, k, Scanned(c, k, true));
        return;
      }
      if EntryInum(d) != 0 {
        assert Live(c, k);
        return;
      }
      k := k + 1;
      m := SlotsEnd(k);
    }
    DrawnFits(fs.sb, first.fs, fs.State(), dp, 0, m);
    return true, true;
  }

  // ---- writing entries

  /** A full write of one slot, seen from the other files. */
  lemma PutElsewhere(sb: Super, dp: nat, a: Snap, b: Snap, off: nat, d: seq<byte>, r: nat)
    requires Sound(sb, a) && Sound(sb, b) && dp < |a.fs.inodes| == |b.fs.inodes| && off <= a.fs.inodes[dp].size && r == |d|
    requires Wrote(sb, a.fs, b.fs, dp, off, d, r) && WroteBytes(sb, a.fs, b.fs, dp, off, d)
    requires Resaved(sb, a.fs, a.u, b.fs, b.u, dp, off, d)
    requires SameSlots(sb, a.fs, b.fs, dp) && (HoleFree(sb, a.fs, dp) ==> HoleFree(sb, b.fs, dp))
    ensures Elsewhere(sb, dp, a, b)
  {
    OwnedShape(sb, a.fs, a.owner);
    hide SameSlots, Owned, StaleOk, ByteAt, SavedAt, Ptr, Content, Splice;
    forall j: nat | j < |a.fs.inodes| && j != dp
      ensures SameFile(sb, a, b, j) && (HoleFree(sb, a.fs, j) ==> HoleFree(sb, b.fs, j))
    {
      assert |Content(sb, b.fs, j)| == |Content(sb, a.fs, j)|;
      SameHoles(sb, a.fs, b.fs, j);
    }
    if Tidy(sb, a, dp) {
      forall x: nat | x < MAXFILE * BSIZE
        ensures SavedAt(sb, b.fs, b.u, dp, x) == ByteAt(sb, b.fs, dp, x)
      {
        InRange(off, |d|, x);
      }
    }
  }

  lemma SameHoles(sb: Super, a: Fs, b: Fs, j: nat)
    requires Shape(sb, a) && Shape(sb, b) && j < |a.inodes| == |b.inodes| && a.inodes[j].size == b.inodes[j].size && KeptPtrs(sb, a, b)
    ensures HoleFree(sb, a, j) ==> HoleFree(sb, b, j)
  {
    hide Ptr;
    forall bn: nat | bn < MAXFILE && BlockOf(sb, a, j, bn) != 0
      ensures BlockOf(sb, b, j, bn) != 0
    {
      assert ValidPlace(a, j, SlotOf(bn));
    }
  }

  /** Writes `d` into slot `k`, at most one past the end; a slot that was read is never refused. */
  method PutSlot(fs: FileSystem, dp: nat, k: nat, d: seq<byte>, ghost at: Names) returns (ok: bool)
    requires OpenDir(fs, dp, at) && k <= Count(DirBytes(fs, dp)) && |d| == ENTRY
    requires k < Count(DirBytes(fs, dp)) ==> SlotBacked(fs, dp, k)
    modifies fs
    ensures fs.Valid() && |fs.inodes| == |old(fs.inodes)|
    ensures Elsewhere(fs.sb, dp, old(fs.Now()), fs.Now())
    ensures ok ==> SlotPut(old(DirBytes(fs, dp)), DirBytes(fs, dp), k, d)
    ensures !ok ==> DirBytes(fs, dp) == old(DirBytes(fs, dp)) && k == Count(DirBytes(fs, dp))
    ensures ok <==> ENTRY * k + ENTRY <= MAXFILE * BSIZE && Fits(fs.sb, old(fs.State()), dp, k / PERBLOCK, k / PERBLOCK + 1)
    ensures ok ==> Drawn(fs.sb, old(fs.State()), fs.State(), dp, k / PERBLOCK, k / PERBLOCK + 1)
  {
    hide Content, HoleFree, Owned, StaleOk, Slot, KeptPtrs, Splice, Full, EntryInum, EntryName, ByteAt, Wrote, WroteBytes, Resaved, Elsewhere, SlotPut, IsDir;
    hide Needs, Fits, Drawn, SameSlots, FreeSet;
    OwnedShape(fs.sb, fs.State(), fs.owner);
    ghost var before := fs.Now();
    SlotsFit(DirBytes(fs, dp), at, k);
    SlotBlock(k);
    if k < Count(DirBytes(fs, dp)) { NoNeed(fs.sb, before.fs, dp, k / PERBLOCK, k / PERBLOCK + 1); }
    var w;
    ghost var stray;
    w, stray := fs.Writei(dp, ENTRY * k, d, ENTRY);
    OwnedShape(fs.sb, fs.State(), fs.owner);
    ok := w == ENTRY;
    if ok {
      assert d[..stray] == d && d[..w] == d;
      SlotWritten(fs.sb, before.fs, fs.State(), dp, k, d);
      PutElsewhere(fs.sb, dp, before, fs.Now(), ENTRY * k, d, ENTRY);
    } else if w == 0 {
      assert d[..stray] == [] && d[..w] == [];
      NoneWritten(fs.sb, before.fs, fs.State(), dp, k);
      PutElsewhere(fs.sb, dp, before, fs.Now(), ENTRY * k, [], 0);
    } else {
      PeekedSelf(fs.sb, dp, before);
      PeekedElsewhere(fs.sb, dp, before, before);
    }
  }

  lemma SlotsFit(c: seq<byte>, at: Names, k: nat)
    requires IsDir(c, at) && k <= Count(c)
    ensures DirSized(c) && ENTRY * k <= |c| && (k < Count(c) ==> ENTRY * k + ENTRY <= |c|) && (k == Count(c) ==> ENTRY * k == |c|)
    ensures ENTRY * k % BSIZE + ENTRY <= BSIZE
  {
  }

  lemma SlotWritten(sb: Super, a: Fs, b: Fs, dp: nat, k: nat, d: seq<byte>)
    requires Shape(sb, a) && dp < |a.inodes| && |d| == ENTRY && ENTRY * k <= a.inodes[dp].size
    requires DirSized(Content(sb, a, dp)) && k <= Count(Content(sb, a, dp)) && Wrote(sb, a, b, dp, ENTRY * k, d, ENTRY)
    ensures SlotPut(Content(sb, a, dp), Content(sb, b, dp), k, d)
  {
    hide Content, Splice, KeptPtrs, SlotPut;
    var c := Content(sb, a, dp);
    SpliceSlot(c, k, d);
    assert Splice(c, ENTRY * k, d)[..b.inodes[dp].size] == Splice(c, ENTRY * k, d);
  }

  lemma NoneWritten(sb: Super, a: Fs, b: Fs, dp: nat, k: nat)
    requires Shape(sb, a) && dp < |a.inodes| && ENTRY * k <= a.inodes[dp].size && Wrote(sb, a, b, dp, ENTRY * k, [], 0)
    ensures Content(sb, b, dp) == Content(sb, a, dp)
  {
    hide Content, KeptPtrs;
  }

  /** A name can be added: a slot is free, or there is room for one more and a block for it. */
  ghost predicate Roomy(sb: Super, fs: Fs, dp: nat)
    requires Shape(sb, fs) && dp < |fs.inodes| && DirSized(Content(sb, fs, dp))
  {
    var c := Content(sb, fs, dp);
    || (exists k: nat :: k < Count(c) && !Live(c, k))
    || (|c| < MAXFILE * BSIZE && Fits(sb, fs, dp, 0, Count(c) / PERBLOCK + 1))
  }

  /** Without room there are as many names as slots, and these are all a directory can
      have or one more would need a block too many. */
  lemma RoomyMeans(sb: Super, fs: Fs, dp: nat, at: Names)
    requires Shape(sb, fs) && dp < |fs.inodes| && IsDir(Content(sb, fs, dp), at)
    ensures var c := Content(sb, fs, dp);
            !Roomy(sb, fs, dp) <==>
            |Bindings(c, at)| == Count(c) && (Count(c) == MAXFILE * BSIZE / ENTRY || !Fits(sb, fs, dp, 0, Count(c) / PERBLOCK + 1))
  {
    hide Content, Fits, Slot, EntryInum, EntryName;
    var c := Content(sb, fs, dp);
    SizeBounds(sb, fs, dp);
    if k: nat :| k < Count(c) && !Live(c, k) {
      FreeFewer(c, at, k);
    } else {
      AllLive(c, at);
    }
  }

  /** Adds the binding, or fails and leaves the directory as it is: a panic exactly when the
      search for the name lacks a block; else -1 exactly when the name is taken or there
      is no room for it. The second search, for a free slot, lacks none. */
  method Link(fs: FileSystem, dp: nat, name: seq<byte>, inum: nat, ghost at: Names) returns (ok: bool, r: int, ghost at': Names)
    requires OpenDir(fs, dp, at) && |name| == DIRSIZ && 0 < inum < 0x1_0000
    modifies fs
    ensures OpenDir(fs, dp, at') && |fs.inodes| == |old(fs.inodes)|
    ensures Elsewhere(fs.sb, dp, old(fs.Now()), fs.Now())
    ensures ok <==> Fits(fs.sb, old(fs.State()), dp, 0, SlotsEnd(Searched(old(DirBytes(fs, dp)), at, Canon(name))))
    ensures ok ==> r == if Canon(name) !in at && Roomy(fs.sb, old(fs.State()), dp) then 0 else -1
    ensures ok && r == 0 ==> MapOf(fs, dp, at') == old(MapOf(fs, dp, at))[Canon(name) := inum]
    ensures !ok || r == -1 ==> at' == at && DirBytes(fs, dp) == old(DirBytes(fs, dp))
    ensures forall n :: n in at ==> n in at' && at'[n] == at[n]
  {
    hide Content, HoleFree, Owned, StaleOk, Slot, EntryInum, EntryName, Canon, Entry, Full, Peeked, Elsewhere, Short, Fits, Drawn, Needs;
    OwnedShape(fs.sb, fs.State(), fs.owner);
    at', r := at, -1;
    ghost var first := fs.Now();
    var taken;
    ok, taken := Dirlookup(fs, dp, name, at);
    ghost var second := fs.Now();
    PeekedElsewhere(fs.sb, dp, first, second);
    PeekedHoles(fs.sb, dp, first, second);
    if !ok || taken != 0 { return; }
    ghost var c := DirBytes(fs, dp);
    DrawnNeeds(fs.sb, first.fs, second.fs, dp, 0, SlotsEnd(Count(c)), 0, SlotsEnd(Scanned(c, 0, false)));
    var k;
    ok, k := FreeSlot(fs, dp, at);
    ghost var third := fs.Now();
    PeekedJoin(fs.sb, dp, first, second, third);
    PeekedElsewhere(fs.sb, dp, first, third);
    PeekedHoles(fs.sb, dp, first, third);
    DrawnOver(fs.sb, first.fs, second.fs, third.fs, dp, 0, SlotsEnd(Count(c)), 0, SlotsEnd(Scanned(c, 0, false)));
    if k < Count(c) { SlotDrawn(fs.sb, first.fs, third.fs, dp, k, Count(c)); } else { SlotBlock(k); }
    EntryRead(inum, name);
    ShortField(name);
    var put := PutSlot(fs, dp, k, Entry(inum, name), at);
    if k == Count(c) { EntryDrawn(fs.sb, first.fs, third.fs, fs.State(), dp, k / PERBLOCK, SlotsEnd(k)); }
    RoomFound(fs.sb, first.fs, third.fs, dp, c, k, put);
    ElsewhereJoin(fs.sb, dp, first, third, fs.Now());
    if put {
      LinkSlot(c, DirBytes(fs, dp), at, k, Entry(inum, name));
      r, at' := 0, at[Canon(name) := k];
    }
  }

  lemma RoomFound(sb: Super, a: Fs, b: Fs, dp: nat, c: seq<byte>, k: nat, put: bool)
    requires Shape(sb, a) && dp < |a.inodes| && c == Content(sb, a, dp) && DirSized(c) && k <= Count(c)
    requires Shape(sb, b) && dp < |b.inodes|
    requires (k < Count(c) ==> !Live(c, k)) && forall j: nat :: j < k ==> Live(c, j)
    requires put <==> ENTRY * k + ENTRY <= MAXFILE * BSIZE && Fits(sb, b, dp, k / PERBLOCK, k / PERBLOCK + 1)
    requires k < Count(c) ==> put
    requires k == Count(c) ==> (Fits(sb, b, dp, k / PERBLOCK, k / PERBLOCK + 1) <==> Fits(sb, a, dp, 0, k / PERBLOCK + 1))
    ensures put <==> Roomy(sb, a, dp)
  {
    hide Content, Fits, EntryInum, Slot;
  }

  /** Clears slot `k` if it is spelled `name`, whether in use or not. */
  method ClearNamed(fs: FileSystem, dp: nat, k: nat, name: seq<byte>, ghost at: Names, ghost base: Fs) returns (ok: bool, ghost at': Names)
    requires OpenDir(fs, dp, at) && |name| == DIRSIZ && k < Count(DirBytes(fs, dp)) && Drawn(fs.sb, base, fs.State(), dp, 0, SlotsEnd(k))
    modifies fs
    ensures OpenDir(fs, dp, at') && |fs.inodes| == |old(fs.inodes)| && Elsewhere(fs.sb, dp, old(fs.Now()), fs.Now())
    ensures fs.inodes[dp].size == old(fs.inodes)[dp].size
    ensures Shape(fs.sb, base) && dp < |base.inodes| && (ok <==> Fits(fs.sb, base, dp, 0, SlotsEnd(k + 1)))
    ensures ok ==> Drawn(fs.sb, base, fs.State(), dp, 0, SlotsEnd(k + 1))
    ensures var here := ok && Canon(name) in at && at[Canon(name)] == k;
            && at' == (if here then at - {Canon(name)} else at)
            && MapOf(fs, dp, at') == if here then old(MapOf(fs, dp, at)) - {Canon(name)} else old(MapOf(fs, dp, at))
  {
    hide Content, HoleFree, Owned, StaleOk, Slot, EntryInum, EntryName, Canon, Peeked, Elsewhere, Full, Fits, Drawn, Needs;
    OwnedShape(fs.sb, fs.State(), fs.owner);
    at' := at;
    ghost var first := fs.Now();
    PeekedSelf(fs.sb, dp, first);
    SlotBlock(k);
    var d;
    ok, d := ReadEntry(fs, dp, k, SlotsEnd(k), at, first, base);
    ghost var second := fs.Now();
    PeekedElsewhere(fs.sb, dp, first, second);
    PeekedHoles(fs.sb, dp, first, second);
    if !ok { return; }
    var same := NameCmp(name, d[2..]);
    EntryNameIs(d);
    if same {
      ghost var c := DirBytes(fs, dp);
      ZeroEntry();
      SlotDrawn(fs.sb, base, second.fs, dp, k, k + 1);
      var put := PutSlot(fs, dp, k, ZeroBytes(ENTRY), at);
      OwnedShape(fs.sb, fs.State(), fs.owner);
      DrawnOver(fs.sb, base, second.fs, fs.State(), dp, 0, SlotsEnd(k + 1), k / PERBLOCK, k / PERBLOCK + 1);
      ElsewhereJoin(fs.sb, dp, first, second, fs.Now());
      ClearSlot(c, DirBytes(fs, dp), at, k, ZeroBytes(ENTRY));
      at' := Without(c, at, k);
    }
  }

  /** Unbinds `name`: every entry spelled so is cleared. A panic exactly when reading all the
      entries lacks a block; the name is gone unless it lies past the last that could be read. */
  method Unlink(fs: FileSystem, dp: nat, name: seq<byte>, ghost at: Names) returns (ok: bool, ghost at': Names)
    requires OpenDir(fs, dp, at) && |name| == DIRSIZ
    modifies fs
    ensures OpenDir(fs, dp, at') && Elsewhere(fs.sb, dp, old(fs.Now()), fs.Now())
    ensures |fs.inodes| == |old(fs.inodes)| && fs.inodes[dp].size == old(fs.inodes)[dp].size
    ensures ok <==> Fits(fs.sb, old(fs.State()), dp, 0, SlotsEnd(Count(old(DirBytes(fs, dp)))))
    ensures at' == at || at' == at - {Canon(name)}
    ensures MapOf(fs, dp, at') ==
            if Fits(fs.sb, old(fs.State()), dp, 0, SlotsEnd(Searched(old(DirBytes(fs, dp)), at, Canon(name))))
            then old(MapOf(fs, dp, at)) - {Canon(name)} else old(MapOf(fs, dp, at))
  {
    hide Content, HoleFree, Owned, StaleOk, Slot, EntryInum, EntryName, Canon, InodeShape, Elsewhere, Full, Bindings, Fits, Drawn;
    OwnedShape(fs.sb, fs.State(), fs.owner);
    at', ok := at, true;
    ghost var first, n := fs.Now(), Canon(name);
    PeekedSelf(fs.sb, dp, first);
    PeekedElsewhere(fs.sb, dp, first, first);
    DrawnNone(fs.sb, first.fs, dp, 0);
    ghost var m, c := MapOf(fs, dp, at), DirBytes(fs, dp);
    Unbound(c, at, n);
    var k := 0;
    while k < fs.inodes[dp].size / ENTRY
      invariant OpenDir(fs, dp, at') && fs.inodes[dp].size == old(fs.inodes)[dp].size && |fs.inodes| == |old(fs.inodes)|
      invariant Elsewhere(fs.sb, dp, first, fs.Now()) && k <= Count(c) && Drawn(fs.sb, first.fs, fs.State(), dp, 0, SlotsEnd(k))
      invariant at' == (if n in at && at[n] < k then at - {n} else at)
      invariant MapOf(fs, dp, at') == if n in at && at[n] < k then m - {n} else m
    {
      ghost var before := fs.Now();
      ok, at' := ClearNamed(fs, dp, k, name, at', first.fs);
      ElsewhereJoin(fs.sb, dp, first, before, fs.Now());
      if !ok {
        DrawnFits(fs.sb, first.fs, before.fs, dp, 0, SlotsEnd(k));
        UnlinkStops(fs.sb, first.fs, dp, c, at, n, k);
        return;
      }
      k := k + 1;
    }
    DrawnFits(fs.sb, first.fs, fs.State(), dp, 0, SlotsEnd(k));
    FitsLess(fs.sb, first.fs, dp, 0, SlotsEnd(Searched(c, at, n)), SlotsEnd(k));
  }

  lemma UnlinkStops(sb: Super, fs: Fs, dp: nat, c: seq<byte>, at: Names, n: seq<byte>, k: nat)
    requires Shape(sb, fs) && dp < |fs.inodes| && IsDir(c, at) && k < Count(c)
    requires Fits(sb, fs, dp, 0, SlotsEnd(k)) && !Fits(sb, fs, dp, 0, SlotsEnd(k + 1))
    ensures !Fits(sb, fs, dp, 0, SlotsEnd(Count(c)))
    ensures n in at ==> (Fits(sb, fs, dp, 0, SlotsEnd(Searched(c, at, n))) <==> at[n] < k)
  {
    hide Fits, EntryInum, EntryName, Slot;
    SearchStops(sb, fs, dp, k, Count(c));
    if n in at && at[n] < k { FitsLess(sb, fs, dp, 0, SlotsEnd(at[n] + 1), SlotsEnd(k)); }
    if n in at && at[n] >= k { SearchStops(sb, fs, dp, k, at[n] + 1); }
  }

  lemma Unbound(c: seq<byte>, at: Names, n: seq<byte>)
    requires IsDir(c, at)
    ensures n !in at ==> Bindings(c, at) - {n} == Bindings(c, at)
    ensures Searched(c, at, n) <= Count(c)
  {
    hide Slot, EntryInum, EntryName;
  }
}
