/**
  The root directory that mkfs writes, read as a directory.
 */
module MkfsRoot {
  import opened Common
  import opened FsLayout
  import opened DirFormat
  import opened Mkfs

  /** The string mkfs puts into slot `k`: ".", "..", then the files in order. */
  function Given(files: seq<HostFile>, k: nat): seq<byte>
    requires k < |files| + 2
  {
    if k == 0 then [DOT] else if k == 1 then [DOT, DOT] else files[k - 2].name
  }

  function Numbered(k: nat): nat {
    if k < 2 then ROOTINO else k
  }

  function RootName(files: seq<HostFile>, k: nat): seq<byte>
    requires k < |files| + 2
  {
    Short(Given(files, k))
  }

  /** No two files have the same first 14 bytes of name, or are called "." or "..". */
  predicate DistinctNames(files: seq<HostFile>) {
    forall j: nat, k: nat :: j < k < |files| + 2 ==> RootName(files, j) != RootName(files, k)
  }

  ghost function RootAt(files: seq<HostFile>): map<seq<byte>, nat>
    requires DistinctNames(files)
  {
    map k: nat | k < |files| + 2 :: RootName(files, k) := k
  }

  /** "." and ".." are the root, the k-th file is inode k + 2. */
  ghost function RootMap(files: seq<HostFile>): map<seq<byte>, nat>
    requires DistinctNames(files)
  {
    map n | n in RootAt(files) :: Numbered(RootAt(files)[n])
  }

  lemma SliceLeft(a: seq<byte>, b: seq<byte>, lo: nat, hi: nat)
    requires lo <= hi <= |a|
    ensures (a + b)[lo..hi] == a[lo..hi]
  {
  }

  lemma SliceRight(a: seq<byte>, b: seq<byte>)
    ensures (a + b)[|a|..|a| + |b|] == b
  {
  }

  lemma {:induction false} RootEntry(files: seq<HostFile>, n: nat, k: nat)
    requires n <= |files| < NINODES - 2 && k < n + 2
    ensures RootDir(files, n)[ENTRY * k..ENTRY * k + ENTRY] == Entry(Numbered(k), Given(files, k))
    decreases n
  {
    hide Entry;
    if n == 0 {
      var a, b := Entry(ROOTINO, [DOT]), Entry(ROOTINO, [DOT, DOT]);
      if k == 0 { SliceLeft(a, b, 0, ENTRY); } else { SliceRight(a, b); }
    } else {
      var a, b := RootDir(files, n - 1), Entry(n + 1, files[n - 1].name);
      if k == n + 1 {
        SliceRight(a, b);
      } else {
        RootEntry(files, n - 1, k);
        SliceLeft(a, b, ENTRY * k, ENTRY * k + ENTRY);
      }
    }
  }

  lemma RootSized(files: seq<HostFile>, c: seq<byte>)
    requires |files| < NINODES - 2 && RootBuilt(files, c)
    ensures DirSized(c) && |files| + 2 <= Count(c)
  {
    hide RootDir;
  }

  lemma TakeSlice(c: seq<byte>, m: nat, lo: nat, hi: nat)
    requires lo <= hi <= m <= |c|
    ensures c[..m][lo..hi] == c[lo..hi]
  {
  }

  lemma SlotIs(c: seq<byte>, k: nat)
    requires DirSized(c) && k < Count(c)
    ensures ENTRY * k + ENTRY <= |c| && Slot(c, k) == c[ENTRY * k..ENTRY * k + ENTRY]
  {
  }

  lemma RootUsed(files: seq<HostFile>, c: seq<byte>, k: nat)
    requires |files| < NINODES - 2 && k < |files| + 2 <= Count(c) && DirSized(c)
    requires c[..ENTRY * (|files| + 2)] == RootDir(files, |files|)
    ensures Slot(c, k) == Entry(Numbered(k), Given(files, k))
  {
    var m := ENTRY * (|files| + 2);
    RootEntry(files, |files|, k);
    hide *;
    TakeSlice(c, m, ENTRY * k, ENTRY * k + ENTRY);
    SlotIs(c, k);
  }

  lemma RootFree(c: seq<byte>, m: nat, k: nat)
    requires DirSized(c) && m <= k < Count(c) && forall x :: ENTRY * m <= x < |c| ==> c[x] == 0
    ensures !Live(c, k)
  {
    assert Slot(c, k)[0] == c[ENTRY * k] && Slot(c, k)[1] == c[ENTRY * k + 1];
  }

  /** Slot by slot: an entry for each name, and free slots after them. */
  lemma RootSlot(files: seq<HostFile>, c: seq<byte>, k: nat)
    requires |files| < NINODES - 2 && RootBuilt(files, c) && DirSized(c) && |files| + 2 <= Count(c) && k < Count(c)
    ensures Live(c, k) <==> k < |files| + 2
    ensures k < |files| + 2 ==> EntryName(Slot(c, k)) == RootName(files, k) && EntryInum(Slot(c, k)) == Numbered(k)
  {
    hide RootDir, Slot, Entry, EntryName, EntryInum;
    if k < |files| + 2 {
      RootUsed(files, c, k);
      EntryRead(Numbered(k), Given(files, k));
    } else {
      RootFree(c, |files| + 2, k);
    }
  }

  /** The root directory of an image is a map, the one asked for, exactly when the names are distinct. */
  lemma RootIsDir(files: seq<HostFile>, c: seq<byte>)
    requires |files| < NINODES - 2 && RootBuilt(files, c)
    ensures (exists at :: IsDir(c, at)) <==> DistinctNames(files)
    ensures DistinctNames(files) ==> IsDir(c, RootAt(files)) && Bindings(c, RootAt(files)) == RootMap(files)
  {
    RootSized(files, c);
    forall k: nat | k < Count(c)
      ensures Live(c, k) <==> k < |files| + 2
      ensures k < |files| + 2 ==> EntryName(Slot(c, k)) == RootName(files, k) && EntryInum(Slot(c, k)) == Numbered(k)
    {
      RootSlot(files, c, k);
    }
    hide Slot, EntryName, EntryInum, RootBuilt, RootName, Numbered, Live;
    if DistinctNames(files) {
      RootDistinct(files, c);
    }
    if at :| IsDir(c, at) {
      forall j: nat, k: nat | j < k < |files| + 2
        ensures RootName(files, j) != RootName(files, k)
      {
        assert Live(c, j) && Live(c, k);
      }
    }
  }

  lemma RootDistinct(files: seq<HostFile>, c: seq<byte>)
    requires DirSized(c) && |files| + 2 <= Count(c) && DistinctNames(files)
    requires forall k: nat :: k < Count(c) ==>
               && (Live(c, k) <==> k < |files| + 2)
               && (k < |files| + 2 ==> EntryName(Slot(c, k)) == RootName(files, k) && EntryInum(Slot(c, k)) == Numbered(k))
    ensures IsDir(c, RootAt(files)) && Bindings(c, RootAt(files)) == RootMap(files)
  {
    hide Slot, EntryName, EntryInum, RootName, Numbered, Live;
    var at := RootAt(files);
    forall k: nat | k < |files| + 2
      ensures RootName(files, k) in at && at[RootName(files, k)] == k
    {
    }
    forall n | n in at
      ensures at[n] < |files| + 2 && RootName(files, at[n]) == n
    {
      var k: nat :| k < |files| + 2 && RootName(files, k) == n;
      assert at[RootName(files, k)] == k;
    }
  }
}
