/**
  sys_link and sys_unlink on the disk: the directory tree of module Links is what the
  bytes of its directories say, and stays so. Whether a name is there, whether there
  is room for another and whether a directory is empty are read off those bytes.
 */
module LinkDisk {
  import opened Common
  import opened FsLayout
  import opened FsBlocks
  import opened FsEffects
  import opened FsNeeds
  import opened FsSaved
  import opened FsSnap
  import opened FileSystem
  import opened DirFormat
  import opened Directory
  import Links
  import LinkCalls

  type Dirs = map<nat, Directory.Names>

  /** The linked directory `d` of the tree is the one on the disk, "." and ".." first. */
  ghost predicate JoinAt(sb: Super, a: Snap, s: Links.State, dirs: Dirs, d: nat) {
    && d in dirs && Shape(sb, a.fs) && d < |a.fs.inodes| && IsDir(Content(sb, a.fs, d), dirs[d])
    && Links.IsDir(s, d) && Bindings(Content(sb, a.fs, d), dirs[d]) == s.inodes[d].entries
    && Links.DOT in dirs[d] && dirs[d][Links.DOT] == 0 && Links.DOTDOT in dirs[d] && dirs[d][Links.DOTDOT] == 1
  }

  ghost predicate Joined(sb: Super, a: Snap, s: Links.State, dirs: Dirs) {
    Sound(sb, a) && forall d {:trigger JoinAt(sb, a, s, dirs, d)} :: d in s.linked ==> JoinAt(sb, a, s, dirs, d)
  }

  lemma JoinedAt(sb: Super, a: Snap, s: Links.State, dirs: Dirs, d: nat)
    requires Joined(sb, a, s, dirs) && d in s.linked
    ensures JoinAt(sb, a, s, dirs, d)
  {
  }

  lemma SameBytesOf(sb: Super, a: Snap, b: Snap, j: nat)
    requires Shape(sb, a.fs) && Shape(sb, b.fs) && j < |a.fs.inodes| == |b.fs.inodes| && SameFile(sb, a, b, j)
    ensures Content(sb, b.fs, j) == Content(sb, a.fs, j)
  {
    hide ByteAt, SavedAt;
  }

  /** Searching changes nothing. */
  lemma PeekedJoined(sb: Super, a: Snap, b: Snap, s: Links.State, dirs: Dirs, dp: nat)
    requires Joined(sb, a, s, dirs) && Peeked(sb, dp, a, b)
    ensures Joined(sb, b, s, dirs)
  {
    PeekedHoles(sb, dp, a, b);
    PeekedElsewhere(sb, dp, a, b);
    hide Peeked, Owned, StaleOk, Content, IsDir, SameFile, Tidy, HoleFree, SameSlots;
    forall d | d in s.linked
      ensures JoinAt(sb, b, s, dirs, d)
    {
      JoinedAt(sb, a, s, dirs, d);
      if d != dp { SameBytesOf(sb, a, b, d); }
    }
  }

  /** Directory `dp` changed, on the disk and in the tree, and nothing else of the tree. */
  lemma ChangedJoined(sb: Super, a: Snap, b: Snap, s: Links.State, s': Links.State, dirs: Dirs, dp: nat, at: Directory.Names)
    requires Joined(sb, a, s, dirs) && Elsewhere(sb, dp, a, b) && s'.linked <= s.linked
    requires forall d :: d in s'.linked && d != dp ==>
               Links.IsDir(s, d) && Links.IsDir(s', d) && s'.inodes[d].entries == s.inodes[d].entries
    requires dp in s'.linked ==> JoinAt(sb, b, s', dirs[dp := at], dp)
    ensures Joined(sb, b, s', dirs[dp := at])
  {
    hide Owned, StaleOk, Elsewhere, JoinAt;
    ElsewhereSound(sb, dp, a, b);
    forall d | d in s'.linked
      ensures JoinAt(sb, b, s', dirs[dp := at], d)
    {
      if d != dp {
        JoinedAt(sb, a, s, dirs, d);
        JoinIn(sb, a, s, dirs, d);
        ElsewhereContent(sb, dp, a, b, d);
        KeptJoined(sb, a, b, s, s', dirs, dp, at, d);
      }
    }
  }

  lemma ElsewhereSound(sb: Super, dp: nat, a: Snap, b: Snap)
    requires Elsewhere(sb, dp, a, b)
    ensures Sound(sb, b)
  {
  }

  lemma KeptJoined(sb: Super, a: Snap, b: Snap, s: Links.State, s': Links.State, dirs: Dirs, dp: nat, at: Directory.Names, d: nat)
    requires JoinAt(sb, a, s, dirs, d) && d != dp
    requires Shape(sb, b.fs) && |a.fs.inodes| == |b.fs.inodes| && Content(sb, b.fs, d) == Content(sb, a.fs, d)
    requires Links.IsDir(s', d) && Links.IsDir(s, d) && s'.inodes[d].entries == s.inodes[d].entries
    ensures JoinAt(sb, b, s', dirs[dp := at], d)
  {
    hide Content, IsDir, Bindings, Shape;
  }

  lemma JoinIn(sb: Super, a: Snap, s: Links.State, dirs: Dirs, d: nat)
    requires JoinAt(sb, a, s, dirs, d)
    ensures Shape(sb, a.fs) && d < |a.fs.inodes|
  {
  }

  lemma ElsewhereContent(sb: Super, dp: nat, a: Snap, b: Snap, d: nat)
    requires Elsewhere(sb, dp, a, b) && Shape(sb, a.fs) && d < |a.fs.inodes| && d != dp
    ensures Shape(sb, b.fs) && |a.fs.inodes| == |b.fs.inodes| && Content(sb, b.fs, d) == Content(sb, a.fs, d)
  {
    OwnedShape(sb, b.fs, b.owner);
    hide Owned, StaleOk, Content, SameFile, Tidy, HoleFree, SameSlots;
    SameBytesOf(sb, a, b, d);
  }

  /** sys_link of inode `i` under `name` in directory `d`. It panics exactly when the search for
      the name lacks a block; otherwise it succeeds exactly for a file on this disk, a name
      not there, and room for one. */
  method SysLink(fs: FileSystem, files: LinkCalls.Files, i: nat, d: nat, name: seq<byte>, sameDev: bool, ghost dirs: Dirs)
    returns (ok: bool, rc: int, ghost dirs': Dirs)
    requires Links.Inv(files.s) && Joined(fs.sb, fs.Now(), files.s, dirs) && i in files.s.inodes && 0 < i < 0x1_0000
    requires d in files.s.linked && |name| == DIRSIZ && JoinAt(fs.sb, fs.Now(), files.s, dirs, d)
    modifies fs, files
    ensures ok ==> Links.Inv(files.s) && Joined(fs.sb, fs.Now(), files.s, dirs')
    ensures var tried := old(files.s).inodes[i].File? && sameDev;
            var c := Content(fs.sb, old(fs.State()), d);
            && (ok <==> (tried ==> Fits(fs.sb, old(fs.State()), d, 0, SlotsEnd(Searched(c, dirs[d], Canon(name))))))
            && (ok ==> (rc == 0 <==> tried && Canon(name) !in old(files.s).inodes[d].entries && Roomy(fs.sb, old(fs.State()), d)))
    ensures ok && rc != 0 ==> rc == -1 && files.s == old(files.s)
    ensures ok && rc == 0 ==> files.s == Links.Bump(Links.AddEntry(old(files.s), d, Canon(name), i), i, 1)
  {
    hide Links.Inv, Content, Owned, StaleOk, IsDir, Fits, Roomy, Elsewhere, Canon, Joined, Bindings;
    ghost var a, s := fs.Now(), files.s;
    ok, dirs' := true, dirs;
    if files.s.inodes[i].Dir? || !sameDev {
      rc := files.SysLink(i, d, Canon(name), true, sameDev, false);
      return;
    }
    JoinedSound(fs.sb, a, s, dirs);
    var r;
    ghost var at;
    ok, r, at := Directory.Link(fs, d, name, i, dirs[d]);
    if !ok { return ok, -1, dirs; }
    DirKeys(Content(fs.sb, a.fs, d), dirs[d]);
    LinkedDirs(fs.sb, a, s, dirs);
    rc := files.SysLink(i, d, Canon(name), true, true, r == 0);
    dirs' := dirs[d := at];
    OwnedShape(fs.sb, fs.State(), fs.owner);
    ChangedJoined(fs.sb, a, fs.Now(), s, files.s, dirs, d, at);
  }

  // ---- unlink

  function Unlinking(s: Links.State, d: nat, n: Links.Name, i: nat): Links.Step
    requires i in s.inodes
  {
    if s.inodes[i].Dir? then Links.Rmdir(d, n) else Links.UnlinkFile(d, n)
  }

  /** There are free blocks enough for the searches of sys_unlink: for the name; if it is a
      directory's, for an entry in that; and to the end, if it is to be cleared. */
  ghost predicate CanUnlink(sb: Super, fs: Fs, s: Links.State, dirs: Dirs, d: nat, n: Links.Name)
    requires Shape(sb, fs) && d in dirs && d < |fs.inodes| && Links.IsDir(s, d)
  {
    var c, names := Content(sb, fs, d), s.inodes[d].entries;
    if n == Links.DOT || n == Links.DOTDOT then true
    else if n !in names || !Links.IsDir(s, names[n]) then Fits(sb, fs, d, 0, SlotsEnd(Count(c)))
    else
      var i := names[n];
      && i < |fs.inodes| && DirSized(Content(sb, fs, i))
      && Affords(sb, fs, d, SlotsEnd(if LinkCalls.FullDir(s, i) then Searched(c, dirs[d], n) else Count(c)), i, ScanEnd(Content(sb, fs, i), 2))
  }

  /** Without holes there always are. */
  lemma NoHolesCanUnlink(sb: Super, a: Snap, s: Links.State, dirs: Dirs, d: nat, n: Links.Name)
    requires Links.Inv(s) && Joined(sb, a, s, dirs) && d in s.linked && JoinAt(sb, a, s, dirs, d)
    requires forall e: nat :: e < |a.fs.inodes| ==> HoleFree(sb, a.fs, e)
    ensures CanUnlink(sb, a.fs, s, dirs, d, n)
  {
    hide Owned, StaleOk, HoleFree, Content, Fits, Slot, EntryInum, EntryName, Live, Needs, Links.Inv, Joined;
    var c, names := Content(sb, a.fs, d), s.inodes[d].entries;
    Unbound(c, dirs[d], n);
    HoleFreeFits(sb, a.fs, d, 0, SlotsEnd(Count(c)));
    HoleFreeFits(sb, a.fs, d, 0, SlotsEnd(Searched(c, dirs[d], n)));
    if Links.Plain(n) && n in names && Links.IsDir(s, names[n]) {
      EntryUnlinks(s, d, n, names[n]);
      JoinedAt(sb, a, s, dirs, names[n]);
      HoleFreeFits(sb, a.fs, names[n], 0, ScanEnd(Content(sb, a.fs, names[n]), 2));
    }
  }

  /** A name is looked up in directory `d`. */
  method Find(fs: FileSystem, d: nat, name: seq<byte>, ghost s: Links.State, ghost dirs: Dirs) returns (ok: bool, i: nat)
    requires Joined(fs.sb, fs.Now(), s, dirs) && d in s.linked && |name| == DIRSIZ && JoinAt(fs.sb, fs.Now(), s, dirs, d)
    modifies fs
    ensures Joined(fs.sb, fs.Now(), s, dirs)
    ensures ok ==> i == if Canon(name) in s.inodes[d].entries then s.inodes[d].entries[Canon(name)] else 0
    ensures ok ==> (i == 0 <==> Canon(name) !in s.inodes[d].entries)
    ensures var h := SlotsEnd(Searched(Content(fs.sb, old(fs.State()), d), dirs[d], Canon(name)));
            && (ok <==> Fits(fs.sb, old(fs.State()), d, 0, h)) && (ok ==> Drawn(fs.sb, old(fs.State()), fs.State(), d, 0, h))
    ensures Shape(fs.sb, fs.State()) && |fs.inodes| == |old(fs.inodes)| && SameContents(fs.sb, old(fs.State()), fs.State())
  {
    hide Content, Owned, StaleOk, Fits, Drawn, Canon, Joined, Peeked, Slot, EntryInum, EntryName, Live;
    ghost var a := fs.Now();
    JoinedSound(fs.sb, a, s, dirs);
    ok, i := Dirlookup(fs, d, name, dirs[d]);
    PeekedJoined(fs.sb, a, fs.Now(), s, dirs, d);
    PeekedContents(fs.sb, a, fs.Now(), d);
    DirKeys(Content(fs.sb, a.fs, d), dirs[d]);
  }

  /** Every file has the bytes it had. */
  ghost predicate SameContents(sb: Super, a: Fs, b: Fs) {
    && Shape(sb, a) && Shape(sb, b) && |a.inodes| == |b.inodes|
    && forall j: nat :: j < |a.inodes| ==> Content(sb, b, j) == Content(sb, a, j)
  }

  lemma PeekedContents(sb: Super, a: Snap, b: Snap, dp: nat)
    requires Peeked(sb, dp, a, b)
    ensures SameContents(sb, a.fs, b.fs)
  {
    OwnedShape(sb, a.fs, a.owner);
    hide Owned, StaleOk, Content, HoleFree, SameSlots, Shed, SameBytes, KeptPtrs;
    forall j: nat | j < |a.fs.inodes|
      ensures Content(sb, b.fs, j) == Content(sb, a.fs, j)
    {
      GrownContent(sb, a.fs, b.fs, j);
    }
  }

  /** Whether the directory `i` binds nothing but "." and "..". */
  method IsEmpty(fs: FileSystem, i: nat, ghost s: Links.State, ghost dirs: Dirs) returns (ok: bool, empty: bool)
    requires Joined(fs.sb, fs.Now(), s, dirs) && i in s.linked && JoinAt(fs.sb, fs.Now(), s, dirs, i)
    modifies fs
    ensures Joined(fs.sb, fs.Now(), s, dirs)
    ensures ok ==> (empty <==> s.inodes[i].entries.Keys == {Links.DOT, Links.DOTDOT})
    ensures var e := ScanEnd(Content(fs.sb, old(fs.State()), i), 2);
            && (ok <==> Fits(fs.sb, old(fs.State()), i, 0, e)) && (ok ==> Drawn(fs.sb, old(fs.State()), fs.State(), i, 0, e))
    ensures Shape(fs.sb, fs.State()) && |fs.inodes| == |old(fs.inodes)| && SameContents(fs.sb, old(fs.State()), fs.State())
  {
    hide Content, Owned, StaleOk, Fits, Drawn, Joined, Peeked, Slot, EntryInum, EntryName, Live, Bindings;
    ghost var a := fs.Now();
    JoinedSound(fs.sb, a, s, dirs);
    EmptyMeans(Content(fs.sb, a.fs, i), dirs[i], Links.DOT, Links.DOTDOT);
    ok, empty := Isdirempty(fs, i, dirs[i]);
    PeekedJoined(fs.sb, a, fs.Now(), s, dirs, i);
    PeekedContents(fs.sb, a, fs.Now(), i);
  }

  /** sys_unlink of `name` in directory `d`. It panics exactly when one of its searches lacks a
      block; otherwise the name goes exactly if it is a plain name of a file or empty directory. */
  method SysUnlink(fs: FileSystem, files: LinkCalls.Files, d: nat, name: seq<byte>, ghost dirs: Dirs)
    returns (ok: bool, rc: int, ghost dirs': Dirs)
    requires Links.Inv(files.s) && Joined(fs.sb, fs.Now(), files.s, dirs) && d in files.s.linked && |name| == DIRSIZ
    requires JoinAt(fs.sb, fs.Now(), files.s, dirs, d)
    requires var n := Canon(name);
             Links.Plain(n) && n in files.s.inodes[d].entries ==>
               files.s.inodes[d].entries[n] in files.s.inodes && files.s.inodes[files.s.inodes[d].entries[n]].nlink >= 1
    modifies fs, files
    ensures ok ==> Links.Inv(files.s) && Joined(fs.sb, fs.Now(), files.s, dirs')
    ensures ok <==> CanUnlink(fs.sb, old(fs.State()), old(files.s), dirs, d, Canon(name))
    ensures var n, was := Canon(name), old(files.s);
            && (ok ==> (rc == 0 <==> Links.Plain(n) && n in was.inodes[d].entries && !LinkCalls.FullDir(was, was.inodes[d].entries[n])))
            && (ok && rc != 0 ==> rc == -1 && files.s == was)
            && (ok && rc == 0 ==>
                  var i := was.inodes[d].entries[n];
                  && i in was.inodes && Links.Enabled(was, Unlinking(was, d, n, i)) && files.s == Links.Apply(was, Unlinking(was, d, n, i)))
  {
    hide Links.Inv, Content, Owned, StaleOk, IsDir, Fits, Drawn, Canon, Joined, Bindings, Links.Enabled, Links.Apply, LinkCalls.FullDir, Affords;
    hide SlotsEnd, ScanEnd, Searched;
    ghost var s, a := files.s, fs.State();
    var n := Canon(name);
    ok, rc, dirs' := true, -1, dirs;
    if n == Links.DOT || n == Links.DOTDOT { return; }
    LookupLacks(fs.sb, fs.Now(), s, dirs, d, n);
    var i;
    ok, i := Find(fs, d, name, s, dirs);
    if !ok || i == 0 { return; }
    EntryUnlinks(s, d, n, i);
    LinkCalls.DotsThere(s, d, n, i);
    if files.s.inodes[i].Dir? {
      JoinedAt(fs.sb, fs.Now(), s, dirs, i);
      ok, rc, dirs' := UnlinkDir(fs, files, d, name, i, dirs, a);
      return;
    }
    NeedsAgain(fs.sb, a, fs.State(), dirs[d], d, n);
    ok, dirs' := ClearName(fs, d, name, i, s, dirs);
    if !ok { return; }
    rc := files.SysUnlink(d, n);
  }

  /** The lookup is the first search, and the last for a name that is not there. */
  lemma LookupLacks(sb: Super, a: Snap, s: Links.State, dirs: Dirs, d: nat, n: Links.Name)
    requires JoinAt(sb, a, s, dirs, d) && Links.Plain(n)
    ensures var c := Content(sb, a.fs, d);
            var found := Fits(sb, a.fs, d, 0, SlotsEnd(Searched(c, dirs[d], n)));
            && (!found ==> !CanUnlink(sb, a.fs, s, dirs, d, n))
            && (n !in s.inodes[d].entries ==> (found <==> CanUnlink(sb, a.fs, s, dirs, d, n)))
  {
    hide Content, Fits, Affords, Slot, EntryInum, EntryName, Live;
    var c, names := Content(sb, a.fs, d), s.inodes[d].entries;
    Unbound(c, dirs[d], n);
    DirKeys(c, dirs[d]);
    var h := SlotsEnd(Searched(c, dirs[d], n));
    if CanUnlink(sb, a.fs, s, dirs, d, n) {
      if n !in names || !Links.IsDir(s, names[n]) {
        FitsLess(sb, a.fs, d, 0, h, SlotsEnd(Count(c)));
      } else {
        var t := if LinkCalls.FullDir(s, names[n]) then Searched(c, dirs[d], n) else Count(c);
        AffordsLess(sb, a.fs, d, h, SlotsEnd(t), names[n], ScanEnd(Content(sb, a.fs, names[n]), 2));
      }
    }
  }

  /** Reading on to the end after a lookup takes what the whole would have taken. */
  lemma NeedsAgain(sb: Super, a: Fs, b: Fs, at: Directory.Names, d: nat, n: Links.Name)
    requires SameContents(sb, a, b) && d < |a.inodes| && IsDir(Content(sb, a, d), at)
    requires Drawn(sb, a, b, d, 0, SlotsEnd(Searched(Content(sb, a, d), at, n)))
    ensures Fits(sb, b, d, 0, SlotsEnd(Count(Content(sb, b, d)))) <==> Fits(sb, a, d, 0, SlotsEnd(Count(Content(sb, a, d))))
  {
    hide Content, Fits, Drawn, Slot, EntryInum, EntryName, Live;
    var c := Content(sb, a, d);
    Unbound(c, at, n);
    NeedsOn(sb, a, b, d, 0, SlotsEnd(Searched(c, at, n)), 0, SlotsEnd(Count(c)));
  }

  /** sys_unlink of the directory `i`, found under `name` since state `a`. */
  method UnlinkDir(fs: FileSystem, files: LinkCalls.Files, d: nat, name: seq<byte>, i: nat, ghost dirs: Dirs, ghost a: Fs)
    returns (ok: bool, rc: int, ghost dirs': Dirs)
    requires Links.Inv(files.s) && Joined(fs.sb, fs.Now(), files.s, dirs) && |name| == DIRSIZ && Links.Plain(Canon(name))
    requires Links.Entry(files.s, d, Canon(name), i) && i in files.s.linked && i != d
    requires JoinAt(fs.sb, fs.Now(), files.s, dirs, i) && files.s.inodes[i].nlink >= 1
    requires SameContents(fs.sb, a, fs.State()) && d in dirs && d < |a.inodes| && IsDir(Content(fs.sb, a, d), dirs[d])
    requires Drawn(fs.sb, a, fs.State(), d, 0, SlotsEnd(Searched(Content(fs.sb, a, d), dirs[d], Canon(name))))
    modifies fs, files
    ensures ok ==> Links.Inv(files.s) && Joined(fs.sb, fs.Now(), files.s, dirs')
    ensures i < |a.inodes| && DirSized(Content(fs.sb, a, i))
    ensures var c, was := Content(fs.sb, a, d), old(files.s);
            && (ok <==> Affords(fs.sb, a, d, SlotsEnd(if LinkCalls.FullDir(was, i) then Searched(c, dirs[d], Canon(name)) else Count(c)),
                                i, ScanEnd(Content(fs.sb, a, i), 2)))
            && (ok ==> (rc == 0 <==> !LinkCalls.FullDir(was, i))) && (ok && rc != 0 ==> rc == -1 && files.s == was)
            && (ok && rc == 0 ==>
                  && Links.Enabled(was, Unlinking(was, d, Canon(name), i)) && files.s == Links.Apply(was, Unlinking(was, d, Canon(name), i)))
  {
    hide Links.Inv, Content, Owned, StaleOk, Fits, Drawn, Canon, Joined, Bindings, Links.Enabled, Links.Apply, Affords, Slot, EntryInum, EntryName, Live;
    ghost var s, b, n, c := files.s, fs.State(), Canon(name), Content(fs.sb, a, d);
    ghost var h, e := SlotsEnd(Searched(c, dirs[d], n)), ScanEnd(Content(fs.sb, a, i), 2);
    rc, dirs' := -1, dirs;
    EntryUnlinks(s, d, n, i);
    Unbound(c, dirs[d], n);
    OtherNeeds(fs.sb, a, b, d, h, i, e);
    var empty;
    ok, empty := IsEmpty(fs, i, s, dirs);
    if !ok && Affords(fs.sb, a, d, SlotsEnd(Count(c)), i, e) { AffordsLess(fs.sb, a, d, h, SlotsEnd(Count(c)), i, e); }
    if !ok || !empty { return; }
    ThenMore(fs.sb, a, b, fs.State(), d, h, i, e, SlotsEnd(Count(c)));
    ok, dirs' := ClearName(fs, d, name, i, s, dirs);
    if !ok { return; }
    rc := files.SysUnlink(d, Canon(name));
  }

  /** What an entry stands for can be unlinked, if a directory then only an empty one. */
  lemma EntryUnlinks(s: Links.State, d: nat, n: Links.Name, i: nat)
    requires Links.Inv(s) && Links.Plain(n) && Links.Entry(s, d, n, i)
    ensures i in s.inodes && (s.inodes[i].Dir? ==> i in s.linked && Links.IsDir(s, i))
    ensures LinkCalls.FullDir(s, i) <==> s.inodes[i].Dir? && s.inodes[i].entries.Keys != {Links.DOT, Links.DOTDOT}
    ensures !LinkCalls.FullDir(s, i) ==> Links.Enabled(s, Unlinking(s, d, n, i))
  {
    assert Links.EntryOk(s, d, n, i);
  }

  /** The entry goes, on the disk as in the tree. */
  method ClearName(fs: FileSystem, d: nat, name: seq<byte>, i: nat, ghost s: Links.State, ghost dirs: Dirs) returns (ok: bool, ghost dirs': Dirs)
    requires Links.Inv(s) && Joined(fs.sb, fs.Now(), s, dirs) && |name| == DIRSIZ && Links.Plain(Canon(name))
    requires Links.Entry(s, d, Canon(name), i) && i in s.inodes && Links.Enabled(s, Unlinking(s, d, Canon(name), i))
    modifies fs
    ensures ok ==> Joined(fs.sb, fs.Now(), Links.Apply(s, Unlinking(s, d, Canon(name), i)), dirs')
    ensures Shape(fs.sb, old(fs.State())) && d < |old(fs.inodes)|
    ensures ok <==> Fits(fs.sb, old(fs.State()), d, 0, SlotsEnd(Count(Content(fs.sb, old(fs.State()), d))))
  {
    hide Links.Inv, Content, Owned, StaleOk, Fits, Elsewhere, Canon, Joined, HoleFree, Links.Enabled, Links.Apply, Slot, EntryInum, EntryName, Live, Bindings, IsDir;
    ghost var a, n := fs.Now(), Canon(name);
    JoinedSound(fs.sb, a, s, dirs);
    JoinedAt(fs.sb, a, s, dirs, d);
    Unbound(Content(fs.sb, a.fs, d), dirs[d], n);
    ghost var at;
    ok, at := Directory.Unlink(fs, d, name, dirs[d]);
    dirs' := dirs[d := at];
    if !ok { return; }
    FitsLess(fs.sb, a.fs, d, 0, SlotsEnd(Searched(Content(fs.sb, a.fs, d), dirs[d], n)), SlotsEnd(Count(Content(fs.sb, a.fs, d))));
    OwnedShape(fs.sb, fs.State(), fs.owner);
    UnlinkEffect(s, d, n, i);
    LinkedDirs(fs.sb, a, s, dirs);
    ChangedJoined(fs.sb, a, fs.Now(), s, Links.Apply(s, Unlinking(s, d, n, i)), dirs, d, at);
  }

  lemma LinkedDirs(sb: Super, a: Snap, s: Links.State, dirs: Dirs)
    requires Joined(sb, a, s, dirs)
    ensures forall e :: e in s.linked ==> Links.IsDir(s, e)
  {
    hide Owned, StaleOk, Content, IsDir;
    forall e | e in s.linked
      ensures Links.IsDir(s, e)
    {
      JoinedAt(sb, a, s, dirs, e);
    }
  }

  lemma UnlinkEffect(s: Links.State, d: nat, n: Links.Name, i: nat)
    requires Links.Inv(s) && Links.Plain(n) && Links.Entry(s, d, n, i) && i in s.inodes && Links.Enabled(s, Unlinking(s, d, n, i))
    ensures var s' := Links.Apply(s, Unlinking(s, d, n, i));
            && s'.linked <= s.linked && Links.IsDir(s', d) && s'.inodes[d].entries == s.inodes[d].entries - {n}
            && forall e :: e != d && Links.IsDir(s, e) ==> Links.IsDir(s', e) && s'.inodes[e].entries == s.inodes[e].entries
  {
    LinkCalls.DotsThere(s, d, n, i);
    hide Links.Inv;
  }

  lemma JoinedSound(sb: Super, a: Snap, s: Links.State, dirs: Dirs)
    requires Joined(sb, a, s, dirs)
    ensures Sound(sb, a)
  {
  }
}
