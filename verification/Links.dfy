/**
  Link counts and the shape of the directory tree under create, link and unlink
  (kernel/fs/sysfile.c). A directory is a map from names to inode numbers, as
  module Directory justifies. sys_link lets go of the inode between counting
  the new name and entering it, so it is two steps here.
 */
module Links {

  import opened Common

  type Name = seq<byte>

  const DOT: Name := [46]
  const DOTDOT: Name := [46, 46]
  const ROOT: nat := 1

  /** The value of a C short. */
  function Short(x: int): int {
    (x + 32768) % 65536 - 32768
  }

  /** A file or device, or a directory. */
  datatype Inode = File(nlink: int) | Dir(nlink: int, entries: map<Name, nat>)

  /** `pending` are the inodes whose count some sys_link has raised for a name
      not yet entered. The rest is history: the directories linked into the
      tree, with their depth and their name in their parent. */
  datatype State = State(inodes: map<nat, Inode>, pending: multiset<nat>, linked: set<nat>, depth: map<nat, nat>, name: map<nat, Name>)

  predicate IsDir(s: State, d: nat) {
    d in s.inodes && s.inodes[d].Dir?
  }

  /** In the linked directory `d` the name `n` stands for inode `i`. */
  predicate Entry(s: State, d: nat, n: Name, i: nat) {
    d in s.linked && IsDir(s, d) && n in s.inodes[d].entries && s.inodes[d].entries[n] == i
  }

  /** The names of inode `i`, other than ".", in linked directories. */
  ghost function Names(s: State, i: nat): set<(nat, Name)> {
    set d, n | d in s.linked && IsDir(s, d) && n in s.inodes[d].entries && n != DOT && s.inodes[d].entries[n] == i :: (d, n)
  }

  predicate Plain(n: Name) {
    n != DOT && n != DOTDOT
  }

  // ---- the invariant

  function Parent(s: State, d: nat): nat
    requires IsDir(s, d) && DOTDOT in s.inodes[d].entries
  {
    s.inodes[d].entries[DOTDOT]
  }

  /** "." is the directory itself, ".." its parent, which is one level up and
      has an entry for it; the root is its own parent. */
  predicate LinkedOk(s: State, d: nat) {
    d in s.linked ==>
      && IsDir(s, d) && DOT in s.inodes[d].entries && DOTDOT in s.inodes[d].entries && d in s.depth && d in s.name
      && s.inodes[d].entries[DOT] == d
      && (if d == ROOT then Parent(s, d) == ROOT && s.depth[d] == 0
          else && Parent(s, d) in s.linked && Parent(s, d) in s.depth && s.depth[d] == s.depth[Parent(s, d)] + 1
               && Plain(s.name[d]) && Entry(s, Parent(s, d), s.name[d], d))
  }

  /** An entry stands for an inode in use; for a directory, only in its parent and under its name. */
  predicate EntryOk(s: State, d: nat, n: Name, i: nat) {
    Entry(s, d, n, i) ==>
      && i in s.inodes
      && (Plain(n) && IsDir(s, i) ==> i in s.linked && i != ROOT && i in s.name && s.name[i] == n && DOTDOT in s.inodes[i].entries && Parent(s, i) == d)
  }

  /** nlink counts the names, and those about to be entered, in 16 bits. */
  ghost predicate CountOk(s: State, i: nat) {
    && (i in s.inodes ==> s.inodes[i].nlink == Short(|Names(s, i)| + s.pending[i]))
    && (i in s.pending ==> i in s.inodes && s.inodes[i].File?)
  }

  ghost predicate Inv(s: State) {
    && ROOT in s.linked
    && (forall d: nat {:trigger LinkedOk(s, d)} :: LinkedOk(s, d))
    && (forall d: nat, n: Name, i: nat {:trigger EntryOk(s, d, n, i)} :: EntryOk(s, d, n, i))
    && (forall i: nat {:trigger CountOk(s, i)} :: CountOk(s, i))
  }

  // ---- steps

  function AddEntry(s: State, d: nat, n: Name, i: nat): State
    requires IsDir(s, d)
  {
    s.(inodes := s.inodes[d := s.inodes[d].(entries := s.inodes[d].entries[n := i])])
  }

  function DropEntry(s: State, d: nat, n: Name): State
    requires IsDir(s, d)
  {
    s.(inodes := s.inodes[d := s.inodes[d].(entries := s.inodes[d].entries - {n})])
  }

  function Bump(s: State, i: nat, delta: int): State
    requires i in s.inodes
  {
    s.(inodes := s.inodes[i := s.inodes[i].(nlink := Short(s.inodes[i].nlink + delta))])
  }

  /** What a step can do. Failures inside create are steps of their own. */
  datatype Step =
    | LinkBegin(i: nat)                       // sys_link: ip->nlink++
    | LinkEnd(i: nat, d: nat, n: Name)        // dp->op->link succeeded
    | LinkUndo(i: nat)                        // the bad: path
    | CreateFile(d: nat, n: Name, k: nat)     // create of a file or device, with inode k
    | Mkdir(d: nat, n: Name, k: nat)          // create of a directory, with inode k
    | CreateFails(k: nat, x: Inode)           // the fail: path: inode k, part filled, nlink 0
    | UnlinkFile(d: nat, n: Name)
    | Rmdir(d: nat, n: Name)
    | Release(i: nat)                         // iput of the last reference with nlink 0

  predicate InDir(s: State, d: nat, n: Name) {
    d in s.linked && IsDir(s, d) && n in s.inodes[d].entries
  }

  ghost predicate Enabled(s: State, a: Step) {
    match a
    case LinkBegin(i) => i in s.inodes && s.inodes[i].File?
    case LinkEnd(i, d, n) => i in s.pending && d in s.linked && IsDir(s, d) && n !in s.inodes[d].entries
    case LinkUndo(i) => i in s.pending && i in s.inodes
    case CreateFile(d, n, k) => d in s.linked && IsDir(s, d) && n !in s.inodes[d].entries && k !in s.inodes
    case Mkdir(d, n, k) => d in s.linked && IsDir(s, d) && n !in s.inodes[d].entries && k !in s.inodes && d in s.depth
    case CreateFails(k, x) => k !in s.inodes && x.nlink == 0
    case UnlinkFile(d, n) => InDir(s, d, n) && Plain(n) && s.inodes[d].entries[n] in s.inodes && s.inodes[s.inodes[d].entries[n]].File?
    case Rmdir(d, n) =>
      && InDir(s, d, n) && Plain(n) && IsDir(s, s.inodes[d].entries[n])
      && s.inodes[s.inodes[d].entries[n]].entries.Keys == {DOT, DOTDOT}
    case Release(i) => i in s.inodes && s.inodes[i].nlink == 0
  }

  ghost function Apply(s: State, a: Step): State
    requires Enabled(s, a)
  {
    match a
    case LinkBegin(i) => Bump(s, i, 1).(pending := s.pending + multiset{i})
    case LinkEnd(i, d, n) => AddEntry(s, d, n, i).(pending := s.pending - multiset{i})
    case LinkUndo(i) => Bump(s, i, -1).(pending := s.pending - multiset{i})
    case CreateFile(d, n, k) => AddEntry(s.(inodes := s.inodes[k := File(1)]), d, n, k)
    case Mkdir(d, n, k) =>
      var s1 := s.(inodes := s.inodes[k := Dir(1, map[DOT := k, DOTDOT := d])], linked := s.linked + {k},
                   depth := s.depth[k := s.depth[d] + 1], name := s.name[k := n]);
      Bump(AddEntry(s1, d, n, k), d, 1)
    case CreateFails(k, x) => s.(inodes := s.inodes[k := x])
    case UnlinkFile(d, n) => Bump(DropEntry(s, d, n), s.inodes[d].entries[n], -1)
    case Rmdir(d, n) =>
      var i := s.inodes[d].entries[n];
      Bump(Bump(DropEntry(s, d, n), d, -1), i, -1).(linked := s.linked - {i})
    case Release(i) => s.(inodes := s.inodes - {i})
  }

  // ---- how names change

  lemma NamesSame(s: State, s': State, i: nat)
    requires forall d: nat, n: Name :: n != DOT ==> (Entry(s', d, n, i) <==> Entry(s, d, n, i))
    ensures Names(s', i) == Names(s, i)
  {
    forall d: nat, n: Name
      ensures (d, n) in Names(s', i) <==> (d, n) in Names(s, i)
    {
      assert n != DOT ==> (Entry(s', d, n, i) <==> Entry(s, d, n, i));
    }
  }

  lemma NamesPlus(s: State, s': State, i: nat, e: nat, m: Name)
    requires m != DOT && !Entry(s, e, m, i)
    requires forall d: nat, n: Name :: n != DOT ==> (Entry(s', d, n, i) <==> Entry(s, d, n, i) || (d == e && n == m))
    ensures |Names(s', i)| == |Names(s, i)| + 1
  {
    forall d: nat, n: Name
      ensures (d, n) in Names(s', i) <==> (d, n) in Names(s, i) + {(e, m)}
    {
      assert n != DOT ==> (Entry(s', d, n, i) <==> Entry(s, d, n, i) || (d == e && n == m));
    }
    assert Names(s', i) == Names(s, i) + {(e, m)};
  }

  lemma ShortAdd(x: int, y: int)
    ensures Short(Short(x) + y) == Short(x + y)
  {
  }

  // ---- every step keeps the invariant

  /** A release is of an inode without names, entered or about to be. */
  ghost predicate Loose(s: State, a: Step) {
    a.Release? ==> Names(s, a.i) == {} && s.pending[a.i] == 0
  }

  lemma LinkedNamed(s: State, d: nat)
    requires Inv(s) && d in s.linked
    ensures Names(s, d) != {}
  {
    assert LinkedOk(s, d);
    if d == ROOT {
      assert (ROOT, DOTDOT) in Names(s, d);
    } else {
      assert (Parent(s, d), s.name[d]) in Names(s, d);
    }
  }

  /** Steps that enter and drop no name. */
  lemma QuietEntries(s: State, a: Step)
    requires Inv(s) && Enabled(s, a) && Loose(s, a) && (a.LinkBegin? || a.LinkUndo? || a.CreateFails? || a.Release?)
    ensures forall d: nat, n: Name, j: nat :: Entry(Apply(s, a), d, n, j) <==> Entry(s, d, n, j)
  {
    var s' := Apply(s, a);
    if a.Release? && a.i in s.linked { LinkedNamed(s, a.i); }
    forall d: nat, n: Name, j: nat
      ensures Entry(s', d, n, j) <==> Entry(s, d, n, j)
    {
      assert LinkedOk(s, d);
    }
  }

  lemma Unnamed(s: State, i: nat, d: nat, n: Name)
    requires Names(s, i) == {} && Entry(s, d, n, i)
    ensures n == DOT
  {
    assert n != DOT ==> (d, n) in Names(s, i);
  }

  lemma QuietShape(s: State, a: Step)
    requires Inv(s) && Enabled(s, a) && Loose(s, a) && (a.LinkBegin? || a.LinkUndo? || a.CreateFails? || a.Release?)
    ensures var s' := Apply(s, a); (forall d: nat :: LinkedOk(s', d)) && (forall d: nat, n: Name, i: nat :: EntryOk(s', d, n, i))
  {
    var s' := Apply(s, a);
    QuietEntries(s, a);
    if a.Release? && a.i in s.linked { LinkedNamed(s, a.i); }
    forall d: nat
      ensures LinkedOk(s', d)
    {
      assert LinkedOk(s, d);
      if d in s.linked {
        assert LinkedOk(s, Parent(s, d));
      }
    }
    forall d: nat, n: Name, i: nat
      ensures EntryOk(s', d, n, i)
    {
      assert EntryOk(s, d, n, i) && LinkedOk(s, d) && LinkedOk(s, i) && CountOk(s, i);
      if a.Release? && i == a.i && Entry(s, d, n, i) {
        Unnamed(s, i, d, n);
      }
    }
  }

  lemma PendingCounts(s: State, a: Step, i: nat)
    requires Inv(s) && Enabled(s, a) && (a.LinkBegin? || a.LinkUndo?)
    ensures CountOk(Apply(s, a), i)
  {
    var s' := Apply(s, a);
    QuietEntries(s, a);
    NamesSame(s, s', i);
    assert CountOk(s, i);
    hide Names, Inv;
    ShortAdd(|Names(s, i)| + s.pending[i], if a.LinkBegin? then 1 else -1);
  }

  lemma FailsCounts(s: State, a: Step, i: nat)
    requires Inv(s) && Enabled(s, a) && a.CreateFails?
    ensures CountOk(Apply(s, a), i)
  {
    var s' := Apply(s, a);
    QuietEntries(s, a);
    NamesSame(s, s', i);
    assert CountOk(s, i);
    if i == a.k {
      forall d: nat, n: Name
        ensures !Entry(s, d, n, i)
      {
        assert EntryOk(s, d, n, i);
      }
      NoNames(s, i);
    }
    hide Names, Inv;
  }

  lemma QuietCounts(s: State, a: Step, i: nat)
    requires Inv(s) && Enabled(s, a) && Loose(s, a) && (a.LinkBegin? || a.LinkUndo? || a.CreateFails? || a.Release?)
    ensures CountOk(Apply(s, a), i)
  {
    if a.LinkBegin? || a.LinkUndo? {
      PendingCounts(s, a, i);
    } else if a.CreateFails? {
      FailsCounts(s, a, i);
    } else {
      QuietEntries(s, a);
      NamesSame(s, Apply(s, a), i);
      assert CountOk(s, i);
      hide Names, Inv;
    }
  }

  lemma NoNames(s: State, i: nat)
    requires forall d: nat, n: Name :: !Entry(s, d, n, i)
    ensures Names(s, i) == {}
  {
    forall d: nat, n: Name
      ensures (d, n) !in Names(s, i)
    {
      assert !Entry(s, d, n, i);
    }
  }

  lemma QuietKeeps(s: State, a: Step)
    requires Inv(s) && Enabled(s, a) && Loose(s, a) && (a.LinkBegin? || a.LinkUndo? || a.CreateFails? || a.Release?)
    ensures Inv(Apply(s, a))
  {
    QuietShape(s, a);
    forall i: nat
      ensures CountOk(Apply(s, a), i)
    {
      QuietCounts(s, a, i);
    }
  }

  // a name entered for a file

  lemma EnterLinked(s: State, a: Step, i: nat, d: nat)
    requires Inv(s) && Enabled(s, a) && (a.LinkEnd? || a.CreateFile?) && i == (if a.LinkEnd? then a.i else a.k)
    ensures LinkedOk(Apply(s, a), d)
  {
    EnterEntries(s, a, i);
    assert LinkedOk(s, d) && LinkedOk(s, a.d);
    if d in s.linked {
      assert LinkedOk(s, Parent(s, d));
    }
  }

  lemma EnterEntryOk(s: State, a: Step, i: nat, d: nat, n: Name, j: nat)
    requires Inv(s) && Enabled(s, a) && (a.LinkEnd? || a.CreateFile?) && i == (if a.LinkEnd? then a.i else a.k)
    ensures EntryOk(Apply(s, a), d, n, j)
  {
    EnterEntries(s, a, i);
    assert EntryOk(s, d, n, j) && LinkedOk(s, j) && LinkedOk(s, d) && CountOk(s, i);
  }

  lemma EnterKeeps(s: State, a: Step)
    requires Inv(s) && Enabled(s, a) && (a.LinkEnd? || a.CreateFile?)
    ensures Inv(Apply(s, a))
  {
    var s' := Apply(s, a);
    var i := if a.LinkEnd? then a.i else a.k;
    forall d: nat
      ensures LinkedOk(s', d)
    {
      EnterLinked(s, a, i, d);
    }
    forall d: nat, n: Name, j: nat
      ensures EntryOk(s', d, n, j)
    {
      EnterEntryOk(s, a, i, d, n, j);
    }
    forall j: nat
      ensures CountOk(s', j)
    {
      EnterCounts(s, a, i, j);
    }
  }

  lemma EnterEntries(s: State, a: Step, i: nat)
    requires Inv(s) && Enabled(s, a) && ((a.LinkEnd? && i == a.i) || (a.CreateFile? && i == a.k))
    ensures a.n != DOT && a.n != DOTDOT
    ensures forall d: nat, n: Name, j: nat :: Entry(Apply(s, a), d, n, j) <==> Entry(s, d, n, j) || (d == a.d && n == a.n && j == i)
    ensures i in Apply(s, a).inodes && Apply(s, a).inodes[i].File?
  {
    var s' := Apply(s, a);
    assert LinkedOk(s, a.d) && CountOk(s, i);
    forall d: nat, n: Name, j: nat
      ensures Entry(s', d, n, j) <==> Entry(s, d, n, j) || (d == a.d && n == a.n && j == i)
    {
      assert LinkedOk(s, d);
    }
  }

  lemma EnterCounts(s: State, a: Step, i: nat, j: nat)
    requires Inv(s) && Enabled(s, a) && ((a.LinkEnd? && i == a.i) || (a.CreateFile? && i == a.k))
    ensures CountOk(Apply(s, a), j)
  {
    hide Names;
    var s' := Apply(s, a);
    EnterEntries(s, a, i);
    assert CountOk(s, j) && CountOk(s, i);
    if j == i {
      NamesPlus(s, s', i, a.d, a.n);
      if a.CreateFile? {
        forall d: nat, n: Name
          ensures !Entry(s, d, n, i)
        {
          assert EntryOk(s, d, n, i);
        }
        NoNames(s, i);
      }
    } else {
      NamesSame(s, s', j);
    }
  }

  // a file's name dropped

  lemma UnlinkEntries(s: State, a: Step, i: nat)
    requires Inv(s) && Enabled(s, a) && a.UnlinkFile? && i == s.inodes[a.d].entries[a.n]
    ensures forall d: nat, n: Name, j: nat :: Entry(Apply(s, a), d, n, j) <==> Entry(s, d, n, j) && !(d == a.d && n == a.n)
    ensures forall j: nat :: j in s.inodes <==> j in Apply(s, a).inodes
    ensures forall j: nat :: IsDir(s, j) <==> IsDir(Apply(s, a), j)
  {
  }

  lemma UnlinkCounts(s: State, a: Step, i: nat, j: nat)
    requires Inv(s) && Enabled(s, a) && a.UnlinkFile? && i == s.inodes[a.d].entries[a.n]
    ensures CountOk(Apply(s, a), j)
  {
    var s' := Apply(s, a);
    UnlinkEntries(s, a, i);
    assert CountOk(s, j);
    if j == i {
      NamesPlus(s', s, i, a.d, a.n);
      ShortAdd(|Names(s, i)| + s.pending[i], -1);
    } else {
      NamesSame(s, s', j);
    }
    hide Names;
  }

  lemma UnlinkKeeps(s: State, a: Step)
    requires Inv(s) && Enabled(s, a) && a.UnlinkFile?
    ensures Inv(Apply(s, a))
  {
    var s' := Apply(s, a);
    var i := s.inodes[a.d].entries[a.n];
    UnlinkEntries(s, a, i);
    forall d: nat
      ensures LinkedOk(s', d)
    {
      assert LinkedOk(s, d);
      if d in s.linked {
        assert LinkedOk(s, Parent(s, d));
      }
    }
    forall d: nat, n: Name, j: nat
      ensures EntryOk(s', d, n, j)
    {
      assert EntryOk(s, d, n, j);
    }
    forall j: nat
      ensures CountOk(s', j)
    {
      UnlinkCounts(s, a, i, j);
    }
  }

  // a directory made

  lemma MkdirEntries(s: State, a: Step)
    requires Inv(s) && Enabled(s, a) && a.Mkdir?
    ensures Plain(a.n) && a.k !in s.linked && a.k != a.d
    ensures forall d: nat, n: Name, j: nat :: Entry(Apply(s, a), d, n, j) <==>
              Entry(s, d, n, j) || (d == a.d && n == a.n && j == a.k) || (d == a.k && n == DOT && j == a.k) || (d == a.k && n == DOTDOT && j == a.d)
    ensures forall j: nat :: j in Apply(s, a).inodes <==> j in s.inodes || j == a.k
    ensures forall j: nat :: IsDir(Apply(s, a), j) <==> IsDir(s, j) || j == a.k
  {
    assert LinkedOk(s, a.d) && LinkedOk(s, a.k);
    forall d: nat, n: Name, j: nat
      ensures Entry(Apply(s, a), d, n, j) <==>
              Entry(s, d, n, j) || (d == a.d && n == a.n && j == a.k) || (d == a.k && n == DOT && j == a.k) || (d == a.k && n == DOTDOT && j == a.d)
    {
      assert LinkedOk(s, d);
    }
  }

  lemma MkdirCounts(s: State, a: Step, j: nat)
    requires Inv(s) && Enabled(s, a) && a.Mkdir?
    ensures CountOk(Apply(s, a), j)
  {
    var s' := Apply(s, a);
    MkdirEntries(s, a);
    assert CountOk(s, j) && CountOk(s, a.d) && CountOk(s, a.k);
    if j == a.k {
      forall d: nat, n: Name
        ensures !Entry(s, d, n, j)
      {
        assert EntryOk(s, d, n, j);
      }
      NoNames(s, j);
      NamesPlus(s, s', j, a.d, a.n);
    } else if j == a.d {
      assert !Entry(s, a.k, DOTDOT, j);
      NamesPlus(s, s', j, a.k, DOTDOT);
      ShortAdd(|Names(s, j)| + s.pending[j], 1);
    } else {
      NamesSame(s, s', j);
    }
    hide Names;
  }

  lemma MkdirLinked(s: State, a: Step, d: nat)
    requires Inv(s) && Enabled(s, a) && a.Mkdir?
    ensures LinkedOk(Apply(s, a), d)
  {
    MkdirEntries(s, a);
    assert LinkedOk(s, d) && LinkedOk(s, a.d);
    if d in s.linked {
      assert LinkedOk(s, Parent(s, d));
      if d != ROOT {
        assert Entry(s, Parent(s, d), s.name[d], d);
      }
    }
  }

  lemma MkdirEntryOk(s: State, a: Step, d: nat, n: Name, j: nat)
    requires Inv(s) && Enabled(s, a) && a.Mkdir?
    ensures EntryOk(Apply(s, a), d, n, j)
  {
    MkdirEntries(s, a);
    assert EntryOk(s, d, n, j) && LinkedOk(s, a.d) && LinkedOk(s, j) && LinkedOk(s, ROOT);
  }

  lemma MkdirKeeps(s: State, a: Step)
    requires Inv(s) && Enabled(s, a) && a.Mkdir?
    ensures Inv(Apply(s, a))
  {
    forall d: nat
      ensures LinkedOk(Apply(s, a), d)
    {
      MkdirLinked(s, a, d);
    }
    forall d: nat, n: Name, j: nat
      ensures EntryOk(Apply(s, a), d, n, j)
    {
      MkdirEntryOk(s, a, d, n, j);
    }
    forall j: nat
      ensures CountOk(Apply(s, a), j)
    {
      MkdirCounts(s, a, j);
    }
  }

  // a directory removed

  lemma RmdirEntries(s: State, a: Step, i: nat)
    requires Inv(s) && Enabled(s, a) && a.Rmdir? && i == s.inodes[a.d].entries[a.n]
    ensures i in s.linked && i != ROOT && i != a.d && DOTDOT in s.inodes[i].entries && Parent(s, i) == a.d
    ensures forall d: nat, n: Name, j: nat :: Entry(Apply(s, a), d, n, j) <==> Entry(s, d, n, j) && !(d == a.d && n == a.n) && d != i
    ensures forall j: nat :: j in Apply(s, a).inodes <==> j in s.inodes
    ensures forall j: nat :: IsDir(Apply(s, a), j) <==> IsDir(s, j)
  {
    assert EntryOk(s, a.d, a.n, i) && LinkedOk(s, a.d);
  }

  lemma RmdirCounts(s: State, a: Step, i: nat, j: nat)
    requires Inv(s) && Enabled(s, a) && a.Rmdir? && i == s.inodes[a.d].entries[a.n]
    ensures CountOk(Apply(s, a), j)
  {
    var s' := Apply(s, a);
    RmdirEntries(s, a, i);
    assert CountOk(s, j) && LinkedOk(s, i);
    ShortAdd(|Names(s, j)| + s.pending[j], -1);
    if j == i {
      assert !Entry(s, i, DOTDOT, i);
      NamesPlus(s', s, i, a.d, a.n);
    } else if j == a.d {
      assert Entry(s, i, DOTDOT, j);
      NamesPlus(s', s, j, i, DOTDOT);
    } else {
      NamesSame(s, s', j);
    }
    hide Names;
  }

  /** Nothing linked had the empty directory as its parent. */
  lemma NoChildren(s: State, i: nat, d: nat)
    requires Inv(s) && i in s.linked && i != ROOT && IsDir(s, i) && s.inodes[i].entries.Keys == {DOT, DOTDOT} && d in s.linked
    ensures IsDir(s, d) && DOTDOT in s.inodes[d].entries && Parent(s, d) != i
  {
    assert LinkedOk(s, d) && LinkedOk(s, i);
  }

  lemma RmdirLinked(s: State, a: Step, i: nat, d: nat)
    requires Inv(s) && Enabled(s, a) && a.Rmdir? && i == s.inodes[a.d].entries[a.n]
    ensures LinkedOk(Apply(s, a), d)
  {
    RmdirEntries(s, a, i);
    assert LinkedOk(s, d) && LinkedOk(s, i);
    if d in s.linked {
      NoChildren(s, i, d);
      assert LinkedOk(s, Parent(s, d));
    }
  }

  lemma RmdirEntryOk(s: State, a: Step, i: nat, d: nat, n: Name, j: nat)
    requires Inv(s) && Enabled(s, a) && a.Rmdir? && i == s.inodes[a.d].entries[a.n]
    ensures EntryOk(Apply(s, a), d, n, j)
  {
    RmdirEntries(s, a, i);
    assert EntryOk(s, d, n, j);
    assert EntryOk(s, a.d, a.n, i);
  }

  lemma RmdirKeeps(s: State, a: Step)
    requires Inv(s) && Enabled(s, a) && a.Rmdir?
    ensures Inv(Apply(s, a))
  {
    var i := s.inodes[a.d].entries[a.n];
    RmdirEntries(s, a, i);
    forall d: nat
      ensures LinkedOk(Apply(s, a), d)
    {
      RmdirLinked(s, a, i, d);
    }
    forall d: nat, n: Name, j: nat
      ensures EntryOk(Apply(s, a), d, n, j)
    {
      RmdirEntryOk(s, a, i, d, n, j);
    }
    forall j: nat
      ensures CountOk(Apply(s, a), j)
    {
      RmdirCounts(s, a, i, j);
    }
  }

  /** Every step keeps the invariant, but for the release of an inode that has names. */
  lemma StepKeeps(s: State, a: Step)
    requires Inv(s) && Enabled(s, a) && Loose(s, a)
    ensures Inv(Apply(s, a))
  {
    hide Inv, Apply, Enabled, Loose;
    match a {
      case LinkEnd(_, _, _) => EnterKeeps(s, a);
      case CreateFile(_, _, _) => EnterKeeps(s, a);
      case Mkdir(_, _, _) => MkdirKeeps(s, a);
      case UnlinkFile(_, _) => UnlinkKeeps(s, a);
      case Rmdir(_, _) => RmdirKeeps(s, a);
      case _ => QuietKeeps(s, a);
    }
  }

  /** iput looks at nlink alone: the release it makes keeps the invariant exactly when
      the inode has no name and none is about to be entered. */
  lemma ReleaseExactly(s: State, i: nat)
    requires Inv(s) && Enabled(s, Release(i))
    ensures Inv(Apply(s, Release(i))) <==> Names(s, i) == {} && s.pending[i] == 0
  {
    var s' := Apply(s, Release(i));
    if Loose(s, Release(i)) {
      StepKeeps(s, Release(i));
    } else if s.pending[i] > 0 {
      assert !CountOk(s', i);
    } else {
      var p :| p in Names(s, i);
      assert LinkedOk(s, p.0) && Entry(s, p.0, p.1, i);
      assert p.0 == i ==> !LinkedOk(s', i);
      assert p.0 != i ==> !EntryOk(s', p.0, p.1, i);
    }
  }

  /** nlink is 0 with names left only from 65536 names on. */
  lemma FewNamesLoose(s: State, i: nat)
    requires Inv(s) && Enabled(s, Release(i)) && |Names(s, i)| + s.pending[i] < 65536
    ensures Loose(s, Release(i))
  {
    assert CountOk(s, i);
  }

  // ---- runs

  /** What mkfs writes: the root directory with files in it, every inode with one link. */
  ghost predicate Init(s: State) {
    && s.linked == {ROOT} && s.pending == multiset{} && IsDir(s, ROOT) && s.inodes[ROOT].nlink == 1
    && DOT in s.inodes[ROOT].entries && DOTDOT in s.inodes[ROOT].entries
    && s.inodes[ROOT].entries[DOT] == s.inodes[ROOT].entries[DOTDOT] == ROOT
    && s.depth == map[ROOT := 0] && ROOT in s.name
    && (forall n :: n in s.inodes[ROOT].entries && Plain(n) ==> s.inodes[ROOT].entries[n] in s.inodes && s.inodes[s.inodes[ROOT].entries[n]] == File(1))
    && (forall n, m :: n in s.inodes[ROOT].entries && m in s.inodes[ROOT].entries && Plain(n) && Plain(m) && s.inodes[ROOT].entries[n] == s.inodes[ROOT].entries[m] ==> n == m)
    && (forall i :: i in s.inodes && i != ROOT ==> exists n :: n in s.inodes[ROOT].entries && Plain(n) && s.inodes[ROOT].entries[n] == i)
  }

  lemma InitCount(s: State, i: nat)
    requires Init(s) && i in s.inodes
    ensures |Names(s, i)| == 1
  {
    if i == ROOT {
      assert forall n :: n in s.inodes[ROOT].entries && Plain(n) ==> s.inodes[ROOT].entries[n] != ROOT;
      assert Names(s, i) == {(ROOT, DOTDOT)};
    } else {
      var n :| n in s.inodes[ROOT].entries && Plain(n) && s.inodes[ROOT].entries[n] == i;
      assert Names(s, i) == {(ROOT, n)};
    }
  }

  lemma InitInv(s: State)
    requires Init(s)
    ensures Inv(s)
  {
    forall i: nat
      ensures CountOk(s, i)
    {
      if i in s.inodes {
        InitCount(s, i);
      }
    }
  }

  ghost predicate IsRun(trace: seq<State>, steps: seq<Step>) {
    && |trace| == |steps| + 1 && Init(trace[0])
    && forall t :: 0 <= t < |steps| ==> Enabled(trace[t], steps[t]) && trace[t + 1] == Apply(trace[t], steps[t])
  }

  /** Up to state `t`, only inodes without names have been released. */
  ghost predicate Sane(trace: seq<State>, steps: seq<Step>, t: nat)
    requires |trace| == |steps| + 1
  {
    forall u :: 0 <= u < t && u < |steps| ==> Loose(trace[u], steps[u])
  }

  lemma {:induction false} RunInv(trace: seq<State>, steps: seq<Step>, t: nat)
    requires IsRun(trace, steps) && t < |trace| && Sane(trace, steps, t)
    ensures Inv(trace[t])
  {
    hide Inv, Enabled, Apply, Loose;
    if t == 0 {
      InitInv(trace[0]);
    } else {
      RunInv(trace, steps, t - 1);
      StepKeeps(trace[t - 1], steps[t - 1]);
    }
  }

  /** A run in which no inode ever has 65536 names releases only inodes without names. */
  lemma {:induction false} FewNamesSane(trace: seq<State>, steps: seq<Step>, t: nat)
    requires IsRun(trace, steps) && t < |trace|
    requires forall u: nat, i: nat {:trigger Names(trace[u], i)} :: u < t ==> |Names(trace[u], i)| + trace[u].pending[i] < 65536
    ensures Sane(trace, steps, t)
  {
    hide Inv, Apply, Loose;
    if t > 0 {
      FewNamesSane(trace, steps, t - 1);
      RunInv(trace, steps, t - 1);
      var a := steps[t - 1];
      if a.Release? {
        assert |Names(trace[t - 1], a.i)| + trace[t - 1].pending[a.i] < 65536;
        FewNamesLoose(trace[t - 1], a.i);
      } else {
        NotRelease(trace[t - 1], a);
      }
    }
  }

  lemma NotRelease(s: State, a: Step)
    requires !a.Release?
    ensures Loose(s, a)
  {
  }

  /** nlink is the number of names other than "." in linked directories, plus
      the names being entered, exactly when that number fits a short. */
  lemma NlinkCounts(trace: seq<State>, steps: seq<Step>, t: nat, i: nat)
    requires IsRun(trace, steps) && t < |trace| && Sane(trace, steps, t) && i in trace[t].inodes
    ensures var s := trace[t];
            var names := |Names(s, i)| + s.pending[i];
            s.inodes[i].nlink == Short(names) && (s.inodes[i].nlink == names <==> names < 32768)
  {
    RunInv(trace, steps, t);
    assert CountOk(trace[t], i);
  }

  /** sys_unlink finds a count below 1, and panics, exactly when the names leave 0 or
      32768 and more modulo 65536. */
  lemma UnlinkPanics(trace: seq<State>, steps: seq<Step>, t: nat, d: nat, n: Name)
    requires IsRun(trace, steps) && t < |trace| && Sane(trace, steps, t) && InDir(trace[t], d, n) && n != DOT
    ensures var s := trace[t];
            var i := s.inodes[d].entries[n];
            i in s.inodes && var names := |Names(s, i)| + s.pending[i];
            names >= 1 && (s.inodes[i].nlink < 1 <==> names % 65536 == 0 || names % 65536 >= 32768)
  {
    RunInv(trace, steps, t);
    var s := trace[t];
    var i := s.inodes[d].entries[n];
    assert EntryOk(s, d, n, i);
    assert CountOk(s, i);
    assert (d, n) in Names(s, i);
    assert Names(s, i) != {};
  }

  /** The directory reached from `d` by following ".." `k` times. */
  ghost function Up(s: State, d: nat, k: nat): nat
    decreases k
  {
    if k == 0 || !IsDir(s, d) || DOTDOT !in s.inodes[d].entries then d else Up(s, Parent(s, d), k - 1)
  }

  lemma {:induction false} UpToRoot(s: State, d: nat)
    requires Inv(s) && d in s.linked
    ensures d in s.depth && Up(s, d, s.depth[d]) == ROOT
    decreases if d in s.depth then s.depth[d] else 0
  {
    assert LinkedOk(s, d);
    if d != ROOT {
      UpToRoot(s, Parent(s, d));
    }
  }

  /** The linked directories are a tree: each has exactly one entry that stands
      for it, in the directory its ".." names, and ".." leads to the root. */
  lemma Tree(trace: seq<State>, steps: seq<Step>, t: nat, d: nat)
    requires IsRun(trace, steps) && t < |trace| && Sane(trace, steps, t) && d in trace[t].linked
    ensures var s := trace[t];
            && IsDir(s, d) && DOTDOT in s.inodes[d].entries && d in s.depth && Up(s, d, s.depth[d]) == ROOT
            && (d != ROOT ==> d in s.name && Entry(s, Parent(s, d), s.name[d], d))
            && (forall e: nat, n: Name :: Plain(n) && Entry(s, e, n, d) ==> d != ROOT && e == Parent(s, d) && n == s.name[d])
  {
    RunInv(trace, steps, t);
    var s := trace[t];
    UpToRoot(s, d);
    assert LinkedOk(s, d);
    forall e: nat, n: Name | Plain(n) && Entry(s, e, n, d)
      ensures d != ROOT && e == Parent(s, d) && n == s.name[d]
    {
      assert EntryOk(s, e, n, d);
    }
  }
}
