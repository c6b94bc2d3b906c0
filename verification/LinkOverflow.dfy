/**
  Runs that give one inode more names than its 16-bit count can tell: from 32768
  on sys_unlink panics, and with 65536 the count is 0 and iput frees the inode
  under its names. A directory holds 17152 entries, so a few directories do.
 */
module LinkOverflow {
  import opened Common
  import opened FsLayout
  import opened Links

  const PERDIR: nat := 16384

  // ---- names

  function Digit(x: nat): byte
    requires x < 41
  {
    ToByte(48 + x)
  }

  /** Three characters, from the digit 0 up. */
  function NameNo(m: nat): Name
    requires m < PERDIR
  {
    [Digit(m / 1681), Digit(m / 41 % 41), Digit(m % 41)]
  }

  lemma DigitInjective(x: nat, y: nat)
    requires x < 41 && y < 41 && Digit(x) == Digit(y)
    ensures x == y
  {
    assert OfByte(Digit(x)) == 48 + x && OfByte(Digit(y)) == 48 + y;
  }

  lemma ThreeDigits(m: nat)
    ensures m == m / 1681 * 1681 + m / 41 % 41 * 41 + m % 41
  {
  }

  lemma NameInjective(m: nat, k: nat)
    requires m < PERDIR && k < PERDIR && NameNo(m) == NameNo(k)
    ensures m == k
  {
    hide Digit;
    var a, b := NameNo(m), NameNo(k);
    assert a[0] == b[0] && a[1] == b[1] && a[2] == b[2];
    DigitInjective(m / 1681, k / 1681);
    DigitInjective(m / 41 % 41, k / 41 % 41);
    DigitInjective(m % 41, k % 41);
    ThreeDigits(m);
    ThreeDigits(k);
  }

  lemma NamePlain(m: nat)
    requires m < PERDIR
    ensures Plain(NameNo(m))
  {
    assert |NameNo(m)| == 3 && |DOT| == 1 && |DOTDOT| == 2;
  }

  // ---- runs

  predicate NoRelease(steps: seq<Step>) {
    forall u :: 0 <= u < |steps| ==> !steps[u].Release?
  }

  ghost predicate Ended(trace: seq<State>, steps: seq<Step>, s: State) {
    IsRun(trace, steps) && NoRelease(steps) && |trace| == |steps| + 1 && trace[|steps|] == s
  }

  lemma EndedInv(trace: seq<State>, steps: seq<Step>, s: State)
    requires Ended(trace, steps, s)
    ensures Sane(trace, steps, |steps|) && Inv(s)
  {
    hide Inv, Apply, Enabled, Init;
    RunInv(trace, steps, |steps|);
  }

  lemma Extended(trace: seq<State>, steps: seq<Step>, s: State, a: Step) returns (trace': seq<State>, steps': seq<Step>)
    requires Ended(trace, steps, s) && Enabled(s, a) && !a.Release?
    ensures Ended(trace', steps', Apply(s, a)) && trace'[0] == trace[0]
  {
    hide Init, Enabled, Apply;
    trace', steps' := trace + [Apply(s, a)], steps + [a];
  }

  // ---- one more name

  /** Of the places in the directories `ds`, those from number `used` on are free for inode `i`. */
  ghost predicate Room(s: State, ds: seq<nat>, i: nat, used: nat) {
    && i in s.inodes && s.inodes[i].File?
    && (forall j :: 0 <= j < |ds| ==> ds[j] in s.linked && IsDir(s, ds[j]))
    && (forall j, k :: 0 <= j < k < |ds| ==> ds[j] != ds[k])
    && (forall j: nat, m: nat :: j < |ds| && m < PERDIR && NameNo(m) in s.inodes[ds[j]].entries ==> j * PERDIR + m < used)
  }

  function Begun(s: State, i: nat): State
    requires i in s.inodes
  {
    Bump(s, i, 1).(pending := s.pending + multiset{i})
  }

  lemma BeginOne(s: State, ds: seq<nat>, i: nat, used: nat)
    requires Room(s, ds, i, used)
    ensures Enabled(s, LinkBegin(i)) && Apply(s, LinkBegin(i)) == Begun(s, i)
    ensures Room(Begun(s, i), ds, i, used) && Names(Begun(s, i), i) == Names(s, i)
    ensures Begun(s, i).pending == s.pending + multiset{i} && Begun(s, i).linked == s.linked
  {
    hide NameNo;
    NamesSame(s, Begun(s, i), i);
  }

  lemma EndOne(s: State, ds: seq<nat>, i: nat, used: nat, j: nat, m: nat)
    requires Room(s, ds, i, used) && i in s.pending && j < |ds| && m < PERDIR && j * PERDIR + m == used
    ensures Enabled(s, LinkEnd(i, ds[j], NameNo(m)))
    ensures var s' := Apply(s, LinkEnd(i, ds[j], NameNo(m)));
            && Room(s', ds, i, used + 1) && s'.pending == s.pending - multiset{i}
            && |Names(s', i)| == |Names(s, i)| + 1
  {
    var d, n := ds[j], NameNo(m);
    assert n !in s.inodes[d].entries;
    NamePlain(m);
    var s' := Apply(s, LinkEnd(i, d, n));
    assert Entry(s', d, n, i) && !Entry(s, d, n, i);
    NamesPlus(s, s', i, d, n);
    forall k: nat, l: nat | k < |ds| && l < PERDIR && NameNo(l) in s'.inodes[ds[k]].entries
      ensures k * PERDIR + l < used + 1
    {
      if k == j && NameNo(l) == n { NameInjective(l, m); }
    }
  }

  lemma OneMore(trace: seq<State>, steps: seq<Step>, s: State, ds: seq<nat>, i: nat, used: nat)
      returns (trace': seq<State>, steps': seq<Step>, s': State)
    requires Ended(trace, steps, s) && Room(s, ds, i, used) && used < |ds| * PERDIR
    ensures Ended(trace', steps', s') && trace'[0] == trace[0] && Room(s', ds, i, used + 1)
    ensures s'.pending == s.pending && |Names(s', i)| == |Names(s, i)| + 1
  {
    BeginOne(s, ds, i, used);
    var j, m := used / PERDIR, used % PERDIR;
    EndOne(Begun(s, i), ds, i, used, j, m);
    hide Apply, Enabled, Names, Room, Ended;
    trace', steps' := Extended(trace, steps, s, LinkBegin(i));
    trace', steps' := Extended(trace', steps', Begun(s, i), LinkEnd(i, ds[j], NameNo(m)));
    s' := Apply(Begun(s, i), LinkEnd(i, ds[j], NameNo(m)));
    assert s.pending + multiset{i} - multiset{i} == s.pending;
  }

  /** As many more names as there are places. */
  lemma {:induction false} ManyMore(trace: seq<State>, steps: seq<Step>, s: State, ds: seq<nat>, i: nat, n: nat)
      returns (trace': seq<State>, steps': seq<Step>, s': State)
    requires Ended(trace, steps, s) && Room(s, ds, i, 0) && n <= |ds| * PERDIR
    ensures Ended(trace', steps', s') && trace'[0] == trace[0] && Room(s', ds, i, n)
    ensures s'.pending == s.pending && |Names(s', i)| == |Names(s, i)| + n
    decreases n
  {
    hide Apply, Enabled, Names, Room, Ended;
    if n == 0 {
      trace', steps', s' := trace, steps, s;
    } else {
      trace', steps', s' := ManyMore(trace, steps, s, ds, i, n - 1);
      trace', steps', s' := OneMore(trace', steps', s', ds, i, n - 1);
    }
  }

  // ---- directories for them

  /** Inode numbers `ks` and names `ns` are free for new directories in the root, from number `c` on. */
  ghost predicate Spare(s: State, ks: seq<nat>, ns: seq<Name>, c: nat) {
    && |ks| == |ns| && ROOT in s.linked && IsDir(s, ROOT) && ROOT in s.depth && ROOT !in ks
    && (forall j, k :: 0 <= j < k < |ks| ==> ks[j] != ks[k] && ns[j] != ns[k])
    && (forall j :: c <= j < |ks| ==> ks[j] !in s.inodes && ns[j] !in s.inodes[ROOT].entries)
  }

  lemma DirMade(s: State, ks: seq<nat>, ns: seq<Name>, c: nat, i: nat)
    requires Inv(s) && c < |ks| && Spare(s, ks, ns, c) && Room(s, ks[..c], i, 0)
    ensures Enabled(s, Mkdir(ROOT, ns[c], ks[c]))
    ensures var s' := Apply(s, Mkdir(ROOT, ns[c], ks[c]));
            && Spare(s', ks, ns, c + 1) && Room(s', ks[..c + 1], i, 0)
            && s'.pending == s.pending && Names(s', i) == Names(s, i)
  {
    hide NameNo;
    var a := Mkdir(ROOT, ns[c], ks[c]);
    var s' := Apply(s, a);
    MkdirEntries(s, a);
    NamesSame(s, s', i);
    forall j: nat, m: nat | j < c + 1 && m < PERDIR
      ensures NameNo(m) !in s'.inodes[ks[j]].entries
    {
      NamePlain(m);
      assert ks[..c + 1][j] == ks[j] && (j < c ==> ks[..c][j] == ks[j]);
    }
  }

  lemma {:induction false} DirsMade(s: State, ks: seq<nat>, ns: seq<Name>, i: nat, c: nat)
      returns (trace: seq<State>, steps: seq<Step>, s': State)
    requires Init(s) && i in s.inodes && s.inodes[i].File? && Spare(s, ks, ns, 0) && c <= |ks|
    ensures Ended(trace, steps, s') && trace[0] == s && Spare(s', ks, ns, c) && Room(s', ks[..c], i, 0)
    ensures s'.pending == s.pending && |Names(s', i)| == 1
    decreases c
  {
    if c == 0 {
      InitCount(s, i);
      trace, steps, s' := [s], [], s;
    } else {
      hide Apply, Enabled, Names, Room, Ended, Init, Inv, Spare;
      trace, steps, s' := DirsMade(s, ks, ns, i, c - 1);
      EndedInv(trace, steps, s');
      DirMade(s', ks, ns, c - 1, i);
      var a := Mkdir(ROOT, ns[c - 1], ks[c - 1]);
      trace, steps := Extended(trace, steps, s', a);
      s' := Apply(s', a);
    }
  }

  // ---- what the counts then say

  /** From any image with a file in it, a run of link calls gives the file `n + 1` names. */
  lemma NamesReached(s: State, ks: seq<nat>, ns: seq<Name>, i: nat, n: nat)
      returns (trace: seq<State>, steps: seq<Step>, s': State)
    requires Init(s) && i in s.inodes && s.inodes[i].File? && Spare(s, ks, ns, 0) && n <= |ks| * PERDIR
    ensures Ended(trace, steps, s') && trace[0] == s && i in s'.inodes && Inv(s')
    ensures |Names(s', i)| == n + 1 && s'.pending[i] == 0 && s'.inodes[i].nlink == Short(n + 1)
  {
    trace, steps, s' := DirsMade(s, ks, ns, i, |ks|);
    assert ks[..|ks|] == ks;
    hide Names, Ended, Inv;
    trace, steps, s' := ManyMore(trace, steps, s', ks, i, n);
    EndedInv(trace, steps, s');
    Counted(s', i);
  }

  lemma Counted(s: State, i: nat)
    requires Inv(s) && i in s.inodes
    ensures s.inodes[i].nlink == Short(|Names(s, i)| + s.pending[i])
  {
    assert CountOk(s, i);
  }

  /** With 32768 names the count is negative, and sys_unlink of any of them panics. */
  lemma PanicReached(s: State, ks: seq<nat>, ns: seq<Name>, i: nat)
      returns (trace: seq<State>, steps: seq<Step>, s': State)
    requires Init(s) && i in s.inodes && s.inodes[i].File? && Spare(s, ks, ns, 0) && |ks| == 2
    ensures Ended(trace, steps, s') && trace[0] == s && |Names(s', i)| == 32768
    ensures i in s'.inodes && s'.inodes[i].nlink == -32768
  {
    trace, steps, s' := NamesReached(s, ks, ns, i, 32767);
  }

  /** With 65536 the count is 0: iput releases the inode, and its names stand for nothing. */
  lemma FreedUnderNames(s: State, ks: seq<nat>, ns: seq<Name>, i: nat)
      returns (trace: seq<State>, steps: seq<Step>, s': State)
    requires Init(s) && i in s.inodes && s.inodes[i].File? && Spare(s, ks, ns, 0) && |ks| == 4
    ensures Ended(trace, steps, s') && trace[0] == s && |Names(s', i)| == 65536
    ensures Enabled(s', Release(i)) && !Inv(Apply(s', Release(i)))
  {
    trace, steps, s' := NamesReached(s, ks, ns, i, 65535);
    ReleaseExactly(s', i);
    hide Inv;
    assert Names(s', i) != {};
  }
}
