/**
  The format of directories: 16-byte entries, an inode number and 14 bytes of
  name, and the finite map from names to inode numbers that a sequence of them
  stands for. An entry with number 0 is free.
 */
module DirFormat {
  import opened Common
  import opened FsLayout
  import opened FsEffects

  const DIRSIZ: nat := 14
  const ENTRY: nat := 16

  // ---- names

  /** A C string in a name field: the bytes before the first NUL. */
  function Canon(n: seq<byte>): (r: seq<byte>)
    ensures |r| <= |n| && forall x :: 0 <= x < |r| ==> r[x] != 0
  {
    if n == [] || n[0] == 0 then [] else [n[0]] + Canon(n[1..])
  }

  function ZeroBytes(k: nat): (r: seq<byte>)
    ensures |r| == k && forall x :: 0 <= x < k ==> r[x] == 0
  {
    seq(k, _ => 0)
  }

  /** What `strncpy` leaves in a name field: the string, then NULs. */
  function NameField(n: seq<byte>): (r: seq<byte>)
    ensures |r| == DIRSIZ
  {
    var c := Canon(n);
    if |c| >= DIRSIZ then c[..DIRSIZ] else c + ZeroBytes(DIRSIZ - |c|)
  }

  /** The name a string becomes in a directory: its first 14 bytes. */
  function Short(n: seq<byte>): (r: seq<byte>)
    ensures |r| <= DIRSIZ && forall x :: 0 <= x < |r| ==> r[x] != 0
  {
    var c := Canon(n);
    if |c| >= DIRSIZ then c[..DIRSIZ] else c
  }

  lemma {:induction false} CanonPadded(n: seq<byte>, z: seq<byte>)
    requires forall x :: 0 <= x < |n| ==> n[x] != 0
    requires z == [] || z[0] == 0
    ensures Canon(n + z) == n
  {
    if n != [] {
      assert (n + z)[1..] == n[1..] + z;
      CanonPadded(n[1..], z);
    }
  }

  lemma CanonStep(p: seq<byte>, q: seq<byte>)
    requires p != [] && q != [] && p[0] == q[0] != 0
    ensures Canon(p) == Canon(q) <==> Canon(p[1..]) == Canon(q[1..])
  {
    assert Canon(p)[1..] == Canon(p[1..]) && Canon(q)[1..] == Canon(q[1..]);
  }

  // ---- entries

  function Entry(inum: nat, name: seq<byte>): (d: seq<byte>)
    requires inum < 0x1_0000
    ensures |d| == ENTRY
  {
    [ToByte(inum % 256), ToByte(inum / 256)] + NameField(name)
  }

  function EntryInum(d: seq<byte>): (r: nat)
    requires |d| == ENTRY
    ensures r < 0x1_0000
  {
    OfByte(d[0]) + 256 * OfByte(d[1])
  }

  function EntryName(d: seq<byte>): seq<byte>
    requires |d| == ENTRY
  {
    Canon(d[2..])
  }

  lemma EntryRead(inum: nat, name: seq<byte>)
    requires inum < 0x1_0000
    ensures EntryInum(Entry(inum, name)) == inum && EntryName(Entry(inum, name)) == Short(name)
  {
    var n := Short(name);
    assert Entry(inum, name)[2..] == n + ZeroBytes(DIRSIZ - |n|);
    CanonPadded(n, ZeroBytes(DIRSIZ - |n|));
  }

  lemma ShortField(n: seq<byte>)
    requires |n| == DIRSIZ
    ensures Short(n) == Canon(n)
  {
  }

  lemma ZeroEntry()
    ensures EntryInum(ZeroBytes(ENTRY)) == 0
  {
  }

  // ---- a directory's bytes as a map

  predicate DirSized(c: seq<byte>) {
    |c| % ENTRY == 0
  }

  function Count(c: seq<byte>): nat {
    |c| / ENTRY
  }

  function Slot(c: seq<byte>, k: nat): (d: seq<byte>)
    requires DirSized(c) && k < Count(c)
    ensures |d| == ENTRY
  {
    c[ENTRY * k..ENTRY * k + ENTRY]
  }

  predicate Live(c: seq<byte>, k: nat)
    requires DirSized(c) && k < Count(c)
  {
    EntryInum(Slot(c, k)) != 0
  }

  /** `at` gives the one slot of each name in use. */
  ghost predicate IsDir(c: seq<byte>, at: map<seq<byte>, nat>) {
    && DirSized(c)
    && (forall n :: n in at ==> at[n] < Count(c) && Live(c, at[n]) && EntryName(Slot(c, at[n])) == n)
    && (forall k: nat :: k < Count(c) && Live(c, k) ==>
          EntryName(Slot(c, k)) in at && at[EntryName(Slot(c, k))] == k)
  }

  /** The finite map the directory stands for. */
  ghost function Bindings(c: seq<byte>, at: map<seq<byte>, nat>): map<seq<byte>, nat>
    requires IsDir(c, at)
  {
    map n | n in at :: EntryInum(Slot(c, at[n]))
  }

  lemma DirKeys(c: seq<byte>, at: map<seq<byte>, nat>)
    requires IsDir(c, at)
    ensures Bindings(c, at).Keys == at.Keys
  {
    hide Slot, EntryInum, EntryName;
  }

  /** c' is c with slot `k` (one past the end at most) now holding `d`. */
  ghost predicate SlotPut(c: seq<byte>, c': seq<byte>, k: nat, d: seq<byte>) {
    && DirSized(c) && DirSized(c') && k <= Count(c) && |d| == ENTRY
    && Count(c') == (if k < Count(c) then Count(c) else k + 1)
    && forall j: nat :: j < Count(c') ==> Slot(c', j) == if j == k then d else Slot(c, j)
  }

  lemma SpliceAt(c: seq<byte>, off: nat, d: seq<byte>, lo: nat, n: nat)
    requires off <= |c| && (lo + n <= off || off + |d| <= lo) && lo + n <= |c|
    ensures Splice(c, off, d)[lo..lo + n] == c[lo..lo + n]
  {
    var r := Splice(c, off, d);
    assert forall x :: lo <= x < lo + n ==> r[x] == c[x];
  }

  lemma SpliceHere(c: seq<byte>, off: nat, d: seq<byte>)
    requires off <= |c|
    ensures Splice(c, off, d)[off..off + |d|] == d
  {
  }

  lemma SlotsApart(j: nat, k: nat)
    requires j != k
    ensures if j < k then ENTRY * j + ENTRY <= ENTRY * k else ENTRY * k + ENTRY <= ENTRY * j
  {
  }

  lemma SpliceCount(c: seq<byte>, k: nat, d: seq<byte>)
    requires DirSized(c) && k <= Count(c) && |d| == ENTRY
    ensures ENTRY * k <= |c| && DirSized(Splice(c, ENTRY * k, d))
    ensures Count(Splice(c, ENTRY * k, d)) == (if k < Count(c) then Count(c) else k + 1)
  {
    hide Splice;
  }

  lemma SpliceSlot(c: seq<byte>, k: nat, d: seq<byte>)
    requires DirSized(c) && k <= Count(c) && |d| == ENTRY
    ensures ENTRY * k <= |c| && SlotPut(c, Splice(c, ENTRY * k, d), k, d)
  {
    SpliceCount(c, k, d);
    var c' := Splice(c, ENTRY * k, d);
    hide Splice;
    forall j: nat | j < Count(c')
      ensures Slot(c', j) == if j == k then d else Slot(c, j)
    {
      if j == k {
        SpliceHere(c, ENTRY * k, d);
      } else {
        SlotsApart(j, k);
        SpliceAt(c, ENTRY * k, d, ENTRY * j, ENTRY);
      }
    }
  }

  /** Writing a new name into a free or fresh slot adds exactly that binding. */
  lemma LinkSlot(c: seq<byte>, c': seq<byte>, at: map<seq<byte>, nat>, k: nat, d: seq<byte>)
    requires IsDir(c, at) && SlotPut(c, c', k, d) && (k < Count(c) ==> !Live(c, k))
    requires EntryInum(d) != 0 && EntryName(d) !in at
    ensures IsDir(c', at[EntryName(d) := k])
    ensures Bindings(c', at[EntryName(d) := k]) == Bindings(c, at)[EntryName(d) := EntryInum(d)]
  {
    hide Slot, EntryInum, EntryName;
  }

  // ---- searches

  /** Slots in one block. */
  const PERBLOCK: nat := 64

  /** The blocks of the first `t` slots. */
  function SlotsEnd(t: nat): nat {
    (t + PERBLOCK - 1) / PERBLOCK
  }

  /** How many slots a search for name `n` reads: up to the name, or all. */
  function Searched(c: seq<byte>, at: map<seq<byte>, nat>, n: seq<byte>): nat {
    if n in at then at[n] + 1 else Count(c)
  }

  /** Where a scan from slot `k` for a slot in use, or for one that is not, ends. */
  function Scanned(c: seq<byte>, k: nat, live: bool): (t: nat)
    requires DirSized(c)
    ensures k <= t && (k < Count(c) ==> k < t <= Count(c))
    decreases Count(c) - k
  {
    if k >= Count(c) then k else if Live(c, k) == live then k + 1 else Scanned(c, k + 1, live)
  }

  /** Clearing a slot removes exactly the binding it held, if any. */
  lemma ClearSlot(c: seq<byte>, c': seq<byte>, at: map<seq<byte>, nat>, k: nat, d: seq<byte>)
    requires IsDir(c, at) && SlotPut(c, c', k, d) && k < Count(c) && EntryInum(d) == 0
    ensures IsDir(c', Without(c, at, k))
    ensures Bindings(c', Without(c, at, k)) == if Live(c, k) then Bindings(c, at) - {EntryName(Slot(c, k))} else Bindings(c, at)
  {
    hide Slot, EntryInum, EntryName;
  }

  ghost function Without(c: seq<byte>, at: map<seq<byte>, nat>, k: nat): map<seq<byte>, nat>
    requires DirSized(c) && k < Count(c)
  {
    if Live(c, k) then at - {EntryName(Slot(c, k))} else at
  }

  /** With "." and ".." in the first two slots, an empty directory is one that binds nothing else. */
  lemma EmptyMeans(c: seq<byte>, at: map<seq<byte>, nat>, dot: seq<byte>, dotdot: seq<byte>)
    requires IsDir(c, at) && dot in at && dotdot in at && at[dot] == 0 && at[dotdot] == 1
    ensures (forall j: nat :: 2 <= j < Count(c) ==> !Live(c, j)) <==> Bindings(c, at).Keys == {dot, dotdot}
  {
    hide Slot, EntryInum, EntryName;
    assert Bindings(c, at).Keys == at.Keys;
  }

  ghost function NamesBelow(c: seq<byte>, n: nat): set<seq<byte>>
    requires DirSized(c) && n <= Count(c)
  {
    set j: nat | j < n :: EntryName(Slot(c, j))
  }

  lemma {:induction false} NamesCount(c: seq<byte>, at: map<seq<byte>, nat>, n: nat)
    requires IsDir(c, at) && n <= Count(c) && forall j: nat :: j < Count(c) ==> Live(c, j)
    ensures |NamesBelow(c, n)| == n
  {
    hide Slot, EntryInum, EntryName, Live;
    if n > 0 {
      NamesCount(c, at, n - 1);
      var m := EntryName(Slot(c, n - 1));
      assert Live(c, n - 1) && at[m] == n - 1;
      assert m !in NamesBelow(c, n - 1);
      assert NamesBelow(c, n) == NamesBelow(c, n - 1) + {m};
    }
  }

  /** With a free slot there are fewer. */
  lemma FreeFewer(c: seq<byte>, at: map<seq<byte>, nat>, k: nat)
    requires IsDir(c, at) && k < Count(c) && !Live(c, k)
    ensures |Bindings(c, at)| < Count(c)
  {
    hide Slot, EntryInum, EntryName;
    assert Bindings(c, at).Keys == at.Keys;
    var slots := set n | n in at :: at[n];
    SlotsDistinct(at, at.Keys, slots);
    Fewer(slots, Below(Count(c)) - {k});
  }

  lemma SlotsDistinct(at: map<seq<byte>, nat>, ns: set<seq<byte>>, slots: set<nat>)
    requires ns <= at.Keys && slots == set n | n in ns :: at[n]
    requires forall n, m :: n in at && m in at && at[n] == at[m] ==> n == m
    ensures |slots| == |ns|
    decreases |ns|
  {
    if ns != {} {
      var n :| n in ns;
      SlotsDistinct(at, ns - {n}, slots - {at[n]});
    }
  }

  function Below(n: nat): (s: set<nat>)
    ensures |s| == n && forall j: nat :: j in s <==> j < n
  {
    if n == 0 then {} else Below(n - 1) + {n - 1}
  }

  /** A directory without a free slot has as many names as slots. */
  lemma AllLive(c: seq<byte>, at: map<seq<byte>, nat>)
    requires IsDir(c, at) && forall j: nat :: j < Count(c) ==> Live(c, j)
    ensures |Bindings(c, at)| == Count(c)
  {
    hide Slot, EntryInum, EntryName, Live;
    NamesCount(c, at, Count(c));
    assert NamesBelow(c, Count(c)) == at.Keys == Bindings(c, at).Keys;
  }
}
