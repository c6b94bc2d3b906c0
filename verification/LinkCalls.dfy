/**
  sys_link, sys_unlink and create of kernel/fs/sysfile.c as they run, from one
  consistent state to the next. What path lookup, the allocator and the disk
  answer are parameters.
 */
module LinkCalls {

  import opened Common
  import opened Links

  class Files {
    var s: State

    constructor (s: State)
      ensures this.s == s
    {
      this.s := s;
    }

    /** dp->op->link: fails if the name is there, or if the entry cannot be written. */
    method Enter(d: nat, n: Name, i: nat, room: bool) returns (rc: int)
      requires IsDir(s, d)
      modifies this
      ensures rc == (if n in old(s).inodes[d].entries || !room then -1 else 0)
      ensures s == if rc == 0 then AddEntry(old(s), d, n, i) else old(s)
      ensures rc == 0 ==> DropEntry(s, d, n) == old(s)
      ensures rc == 0 && d in s.linked && n != DOT ==> |Names(s, i)| == |Names(old(s), i)| + 1
    {
      if n in s.inodes[d].entries || !room {
        return -1;
      }
      ghost var was := s;
      s := AddEntry(s, d, n, i);
      assert s.inodes[d].entries - {n} == was.inodes[d].entries;
      assert DropEntry(s, d, n).inodes == was.inodes;
      if d in s.linked && n != DOT {
        NamesPlus(was, s, i, d, n);
      }
      return 0;
    }

    /** sys_link: one more name, counted, or no change at all. */
    method SysLink(i: nat, d: nat, n: Name, found: bool, sameDev: bool, room: bool) returns (rc: int)
      requires Inv(s) && i in s.inodes && (found ==> d in s.linked && IsDir(s, d))
      modifies this
      ensures Inv(s)
      ensures rc == 0 <==> old(s).inodes[i].File? && found && sameDev && room && n !in old(s).inodes[d].entries
      ensures rc != 0 ==> rc == -1 && s == old(s)
      ensures rc == 0 ==> s == Bump(AddEntry(old(s), d, n, i), i, 1)
      ensures rc == 0 ==> i in s.inodes && s.inodes[i] == File(Short(old(s).inodes[i].nlink + 1))
      ensures rc == 0 ==> d in s.inodes && s.inodes[d] == Dir(old(s).inodes[d].nlink, old(s).inodes[d].entries[n := i])
      ensures rc == 0 ==> Elsewhere(old(s), s, {i, d})
    {
      hide Inv, Names, Short, Apply;
      if s.inodes[i].Dir? {
        return -1;
      }
      ghost var first := s;
      Begun(first, i);
      s := Bump(s, i, 1).(pending := s.pending + multiset{i});
      StepKeeps(first, LinkBegin(i));
      ghost var raised := s;
      rc := -1;
      if found && sameDev {
        rc := Enter(d, n, i, room);
      }
      if rc == 0 {
        s := s.(pending := s.pending - multiset{i});
        Done(first, i, d, n);
        StepKeeps(raised, LinkEnd(i, d, n));
      } else {
        s := Bump(s, i, -1).(pending := s.pending - multiset{i});
        Undone(first, i);
      }
    }

    /** sys_unlink: the name is gone and uncounted, or no change at all. */
    method SysUnlink(d: nat, n: Name) returns (rc: int)
      requires Inv(s) && d in s.linked && IsDir(s, d)
      requires Plain(n) && n in s.inodes[d].entries ==> s.inodes[d].entries[n] in s.inodes && s.inodes[s.inodes[d].entries[n]].nlink >= 1
      modifies this
      ensures Inv(s)
      ensures rc == 0 <==> Plain(n) && n in old(s).inodes[d].entries && !FullDir(old(s), old(s).inodes[d].entries[n])
      ensures rc != 0 ==> rc == -1 && s == old(s)
      ensures rc == 0 ==> var i := old(s).inodes[d].entries[n];
                          s == Apply(old(s), if old(s).inodes[i].Dir? then Rmdir(d, n) else UnlinkFile(d, n))
      ensures rc == 0 ==> var i := old(s).inodes[d].entries[n];
                          && IsDir(s, d) && s.inodes[d].entries == old(s).inodes[d].entries - {n} && i in s.inodes && i != d
                          && s.inodes[i] == old(s).inodes[i].(nlink := Short(old(s).inodes[i].nlink - 1))
                          && s.inodes[d].nlink == (if s.inodes[i].Dir? then Short(old(s).inodes[d].nlink - 1) else old(s).inodes[d].nlink)
                          && Elsewhere(old(s), s, {i, d})
    {
      hide Inv, Names, Short, LinkedOk;
      if n == DOT || n == DOTDOT || n !in s.inodes[d].entries {
        return -1;
      }
      var i := s.inodes[d].entries[n];
      DotsThere(s, d, n, i);
      if s.inodes[i].Dir? && s.inodes[i].entries.Keys != {DOT, DOTDOT} {
        return -1;
      }
      ghost var first := s;
      StepKeeps(s, if s.inodes[i].Dir? then Rmdir(d, n) else UnlinkFile(d, n));
      s := DropEntry(s, d, n);
      if s.inodes[i].Dir? {
        s := Bump(s, d, -1);
        s := s.(linked := s.linked - {i});
      }
      s := Bump(s, i, -1);
      rc := 0;
    }

    /** The new inode, before it has a name: a directory gets "." and "..". */
    method Fill(d: nat, k: nat, dir: bool, room: seq<bool>) returns (ok: bool)
      requires k !in s.inodes && |room| == 3
      modifies this
      ensures ok <==> dir ==> room[0] && room[1]
      ensures k in s.inodes && s == old(s).(inodes := old(s).inodes[k := s.inodes[k]])
      ensures ok ==> s.inodes[k] == if dir then Dir(1, map[DOT := k, DOTDOT := d]) else File(1)
    {
      ghost var first := s;
      s := s.(inodes := s.inodes[k := if dir then Dir(1, map[]) else File(1)]);
      if !dir {
        return true;
      }
      var rc := Enter(k, DOT, k, room[0]);
      if rc < 0 {
        return false;
      }
      assert s.inodes == first.inodes[k := Dir(1, map[DOT := k])];
      rc := Enter(k, DOTDOT, d, room[1]);
      ok := rc == 0;
      if ok {
        assert s.inodes == first.inodes[k := Dir(1, map[DOT := k, DOTDOT := d])];
      }
    }

    /** A name that is there already: opened, if a file was asked for and it is a
        file or device; the tree does not change. */
    method Existing(d: nat, n: Name, kind: Kind) returns (ok: bool, ip: nat)
      requires Inv(s) && InDir(s, d, n)
      ensures ip == s.inodes[d].entries[n]
      ensures ok <==> kind.Regular? && ip in s.inodes && s.inodes[ip].File?
    {
      ip := s.inodes[d].entries[n];
      EntryThere(s, d, n, ip);
      ok := kind.Regular? && s.inodes[ip].File?;
    }

    /** create, for a name that is not there yet: the new inode with its name
        and its count, or, with the inode given up again, no change in the tree. */
    method CreateNew(d: nat, n: Name, k: nat, dir: bool, room: seq<bool>) returns (ok: bool)
      requires Inv(s) && d in s.linked && IsDir(s, d) && n !in s.inodes[d].entries && k !in s.inodes && |room| == 3
      modifies this
      ensures Inv(s)
      ensures ok <==> (dir ==> room[0] && room[1]) && room[2]
      ensures ok ==> d in old(s).depth && s == Apply(old(s), if dir then Mkdir(d, n, k) else CreateFile(d, n, k))
      ensures !ok ==> k in s.inodes && s.inodes[k].nlink == 0 && s == old(s).(inodes := old(s).inodes[k := s.inodes[k]])
    {
      hide Inv, Names, Short;
      ghost var first := s;
      InDepth(s, d);
      ok := Fill(d, k, dir, room);
      if ok {
        var rc := Enter(d, n, k, room[2]);
        ok := rc == 0;
      }
      if !ok {
        s := s.(inodes := s.inodes[k := s.inodes[k].(nlink := 0)]);
        assert s.inodes == first.inodes[k := s.inodes[k]];
        StepKeeps(first, CreateFails(k, s.inodes[k]));
        return;
      }
      StepKeeps(first, if dir then Mkdir(d, n, k) else CreateFile(d, n, k));
      if dir {
        s := Bump(s, d, 1);
        s := s.(linked := s.linked + {k}, depth := s.depth[k := s.depth[d] + 1], name := s.name[k := n]);
      }
    }

    /** create: `spare` is the inode alloc_inode finds, if any, and `room` says
        which of the entries ".", ".." and the name itself can be written. */
    method Create(d: nat, n: Name, kind: Kind, spare: Option<nat>, room: seq<bool>) returns (ok: bool, ip: nat)
      requires Inv(s) && d in s.linked && IsDir(s, d) && |room| == 3 && (spare.Some? ==> spare.value !in s.inodes)
      modifies this
      ensures Inv(s)
      ensures InDir(old(s), d, n) ==> s == old(s) && ip == s.inodes[d].entries[n]
      ensures InDir(old(s), d, n) ==> (ok <==> kind.Regular? && ip in s.inodes && s.inodes[ip].File?)
      ensures !InDir(old(s), d, n) ==> (ok <==> spare.Some? && (kind.Directory? ==> room[0] && room[1]) && room[2])
      ensures !InDir(old(s), d, n) && ok ==>
                ip == spare.value && d in old(s).depth && s == Apply(old(s), if kind.Directory? then Mkdir(d, n, ip) else CreateFile(d, n, ip))
      ensures !InDir(old(s), d, n) && ok ==>
                Made(old(s), s, d, n, ip, kind.Directory?)
      ensures !InDir(old(s), d, n) && !ok ==>
                if spare.None? then s == old(s)
                else spare.value in s.inodes && s.inodes[spare.value].nlink == 0 && s == old(s).(inodes := old(s).inodes[spare.value := s.inodes[spare.value]])
    {
      hide Inv, Names, Short, Apply;
      if n in s.inodes[d].entries {
        ok, ip := Existing(d, n, kind);
        return;
      }
      if spare.None? {
        return false, 0;
      }
      ip := spare.value;
      ok := CreateNew(d, n, ip, kind.Directory?, room);
      if ok { NewMade(old(s), d, n, ip, kind.Directory?); }
    }
  }

  /** No inode but these has changed, come or gone. */
  ghost predicate Elsewhere(s: State, s': State, but: set<nat>) {
    forall j :: j !in but ==> (j in s'.inodes <==> j in s.inodes) && (j in s.inodes ==> s'.inodes[j] == s.inodes[j])
  }

  /** Inode `k` is new, a file or a directory with its two names, and has the name `n` in `d`,
      which counts the ".." of a new directory. */
  ghost predicate Made(s: State, s': State, d: nat, n: Name, k: nat, dir: bool)
    requires IsDir(s, d)
  {
    && k !in s.inodes && k in s'.inodes && s'.inodes[k] == (if dir then Dir(1, map[[46] := k, [46, 46] := d]) else File(1))
    && IsDir(s', d) && s'.inodes[d].entries == s.inodes[d].entries[n := k]
    && s'.inodes[d].nlink == (if dir then Short(s.inodes[d].nlink + 1) else s.inodes[d].nlink)
    && Elsewhere(s, s', {k, d})
  }

  lemma NewMade(s: State, d: nat, n: Name, k: nat, dir: bool)
    requires d in s.linked && IsDir(s, d) && n !in s.inodes[d].entries && k !in s.inodes && d in s.depth
    ensures Made(s, Apply(s, if dir then Mkdir(d, n, k) else CreateFile(d, n, k)), d, n, k, dir)
  {
    hide Short;
  }

  /** The type create is asked for. */
  datatype Kind = Directory | Regular | Device

  lemma EntryThere(s: State, d: nat, n: Name, i: nat)
    requires Inv(s) && Entry(s, d, n, i)
    ensures i in s.inodes
  {
    assert EntryOk(s, d, n, i);
  }

  lemma Begun(s: State, i: nat)
    requires i in s.inodes && s.inodes[i].File?
    ensures Enabled(s, LinkBegin(i)) && Apply(s, LinkBegin(i)) == Bump(s, i, 1).(pending := s.pending + multiset{i})
  {
  }

  lemma Done(s: State, i: nat, d: nat, n: Name)
    requires i in s.inodes && s.inodes[i].File? && d in s.linked && IsDir(s, d) && n !in s.inodes[d].entries
    ensures var r := Bump(s, i, 1).(pending := s.pending + multiset{i});
            && Enabled(r, LinkEnd(i, d, n))
            && AddEntry(r, d, n, i).(pending := r.pending - multiset{i}) == Apply(r, LinkEnd(i, d, n)) == Bump(AddEntry(s, d, n, i), i, 1)
  {
    var r := Bump(s, i, 1).(pending := s.pending + multiset{i});
    assert r.pending - multiset{i} == s.pending;
    assert AddEntry(r, d, n, i).inodes == Bump(AddEntry(s, d, n, i), i, 1).inodes;
  }

  lemma Undone(s: State, i: nat)
    requires Inv(s) && i in s.inodes && s.inodes[i].File?
    ensures var r := Bump(s, i, 1).(pending := s.pending + multiset{i});
            Bump(r, i, -1).(pending := r.pending - multiset{i}) == s
  {
    var r := Bump(s, i, 1).(pending := s.pending + multiset{i});
    Restored(s, i);
    assert r.pending - multiset{i} == s.pending;
    assert Bump(r, i, -1).inodes == s.inodes;
  }

  /** A directory that isdirempty refuses. */
  predicate FullDir(s: State, i: nat) {
    IsDir(s, i) && s.inodes[i].entries.Keys != {DOT, DOTDOT}
  }

  /** Raising and lowering a count gives it back. */
  lemma Restored(s: State, i: nat)
    requires Inv(s) && i in s.inodes
    ensures Short(Short(s.inodes[i].nlink + 1) - 1) == s.inodes[i].nlink
  {
    assert CountOk(s, i);
  }

  lemma DotsThere(s: State, d: nat, n: Name, i: nat)
    requires Inv(s) && Plain(n) && Entry(s, d, n, i)
    ensures i in s.inodes && i != d
  {
    assert EntryOk(s, d, n, i) && LinkedOk(s, d);
  }

  lemma InDepth(s: State, d: nat)
    requires Inv(s) && d in s.linked
    ensures d in s.depth
  {
    assert LinkedOk(s, d);
  }
}
