/**
  exec and loadseg of kernel/fs/exec.c: the user image built from any ELF
  program headers, the argument stack, and the cleanup on every failure.
 */
module Exec {

  import opened Common
  import opened Riscv
  import opened PageTable
  import opened Kalloc
  import opened Vm
  import opened UserSpace
  import opened UserVm
  import opened UserCopy
  import opened ProcVm
  import opened ExecArgs
  import FsLayout

  const FILEMAX: nat := FsLayout.MAXFILE * FsLayout.BSIZE

  /** Every page below `c` is accessible. */
  ghost predicate AllUser(m: Mem, n: Nodes, c: nat) {
    forall v: nat :: v < c ==> Accessible(m, n, v)
  }

  lemma UserAt(m: Mem, n: Nodes, c: nat, va: nat)
    requires AllUser(m, n, c) && va < c * PGSIZE
    ensures Mapped(m, n, va)
  {
    hide Accessible;
    assert va / PGSIZE < c;
  }

  lemma AllUserSame(m: Mem, m': Mem, s: Space, c: nat)
    requires AllUser(m, s.n, c) && SameLeaves(m, s.n, m', s.n)
    ensures AllUser(m', s.n, c)
  {
    hide Leaf, Valid, User;
    forall v: nat | v < c
      ensures Accessible(m', s.n, v)
    {
      assert Accessible(m, s.n, v);
    }
  }

  // ---- loadseg

  /** readi on a file with these bytes. */
  function Read(file: seq<byte>, off: nat, n: nat): (r: seq<byte>)
    ensures |r| == n <==> n == 0 || off + n <= |file|
    ensures |r| <= n && (|r| == n && n > 0 ==> r == file[off..off + n])
  {
    if off >= |file| then [] else if off + n <= |file| then file[off..off + n] else file[off..]
  }

  /** The piece of the segment in the page at `va`. */
  method LoadPage(k: Kmem, root: nat, va: nat, bs: seq<byte>, ghost s: Space)
    requires k.Valid() && Ok(k.mem, s) && root == s.root && AllUser(k.mem, s.n, s.np)
    requires va % PGSIZE == 0 && va < s.np * PGSIZE && |bs| <= PGSIZE
    modifies k
    ensures k.Valid() && Ok(k.mem, s) && SameButBytes(old(k.mem), k.mem, s) && k.list == old(k.list)
    ensures Wrote(old(k.mem), k.mem, s.n, va, bs) && AllUser(k.mem, s.n, s.np)
  {
    hide Ok, Leaf, InData, ByteAt, Page, SameButBytes, Wrote, AllUser, Mapped;
    ghost var before := k.mem;
    UserAt(before, s.n, s.np, va);
    var p := Walkaddr(k, root, va, s);
    PutBytes(k, p, 0, va, bs, s);
    SameButOk(before, k.mem, s);
    AllUserSame(before, k.mem, s, s.np);
  }

  /** The first `c` bytes of a segment. */
  function Part(file: seq<byte>, offset: nat, c: nat): (r: seq<byte>)
    requires c == 0 || offset + c <= |file|
    ensures |r| == c
  {
    if c == 0 then [] else file[offset..offset + c]
  }

  lemma ReadNext(file: seq<byte>, offset: nat, i: nat, n: nat)
    requires offset < U32 && |file| <= FILEMAX && 0 < n && (i == 0 || offset + i <= |file|)
    ensures var bs := Read(file, (offset + i) % U32, n);
            && (|bs| == n <==> offset + i + n <= |file|)
            && (|bs| == n ==> Part(file, offset, i) + bs == Part(file, offset, i + n))
  {
    assert (offset + i) % U32 == offset + i;
  }

  /** loadseg: reads the segment, or finds the file too short; its panic is
      unreachable, since every page of the segment is accessible. */
  method Loadseg(k: Kmem, root: nat, va: nat, file: seq<byte>, offset: nat, sz: nat, ghost s: Space) returns (rc: int)
    requires k.Valid() && Ok(k.mem, s) && root == s.root && AllUser(k.mem, s.n, s.np)
    requires va % PGSIZE == 0 && va + sz <= s.np * PGSIZE && offset < U32 && |file| <= FILEMAX
    modifies k
    ensures k.Valid() && Ok(k.mem, s) && SameButBytes(old(k.mem), k.mem, s) && k.list == old(k.list) && AllUser(k.mem, s.n, s.np)
    ensures rc == 0 <==> sz == 0 || offset + sz <= |file|
    ensures rc == 0 ==> Wrote(old(k.mem), k.mem, s.n, va, Part(file, offset, sz))
  {
    hide Ok, Leaf, ByteAt, SameButBytes, Wrote, AllUser, SameLeaves, Read, Part;
    ghost var first := k.mem;
    SameButSelf(first, s);
    NoPart(file, offset);
    var i := 0;
    while i < sz
      invariant i % PGSIZE == 0 && 0 <= i <= s.np * PGSIZE && (i == 0 || offset + Least(i, sz) <= |file|)
      invariant k.Valid() && Ok(k.mem, s) && SameButBytes(first, k.mem, s) && k.list == old(k.list)
      invariant AllUser(k.mem, s.n, s.np) && Wrote(first, k.mem, s.n, va, Part(file, offset, Least(i, sz)))
      decreases sz - i
    {
      ghost var before := k.mem;
      var n := if sz - i < PGSIZE then sz - i else PGSIZE;
      ReadNext(file, offset, i, n);
      var bs := Read(file, (offset + i) % U32, n);
      LoadPage(k, root, va + i, bs, s);
      SameButOk(first, before, s);
      SameButJoin(first, before, k.mem, s);
      if |bs| != n {
        return -1;
      }
      WroteJoin(first, before, k.mem, s.n, va, Part(file, offset, i), bs);
      i := i + PGSIZE;
    }
    rc := 0;
  }

  function Least(a: nat, b: nat): nat {
    if a < b then a else b
  }

  lemma NoPart(file: seq<byte>, offset: nat)
    ensures Part(file, offset, 0) == []
  {
  }

  // ---- program headers

  /** struct proghdr: 64-bit numbers, whatever the file holds. */
  datatype ProgHdr = ProgHdr(load: bool, flags: nat, off: nat, vaddr: nat, filesz: nat, memsz: nat) {
    predicate Wide() {
      off < U64 && vaddr < U64 && filesz < U64 && memsz < U64
    }
  }

  /** flags2perm: PF_X is bit 0 and PF_W bit 1 of the ELF flags. */
  function Flags2perm(flags: nat): (perm: nat)
    ensures perm / PTE_X % 2 == flags % 2 && perm / PTE_W % 2 == flags / 2 % 2
    ensures perm == 0 || perm == PTE_W || perm == PTE_X || perm == PTE_W + PTE_X
  {
    (if flags % 2 == 1 then PTE_X else 0) + (if flags / 2 % 2 == 1 then PTE_W else 0)
  }

  /** exec accepts the segment. */
  predicate GoodSeg(ph: ProgHdr, file: seq<byte>) {
    && ph.filesz <= ph.memsz && ph.vaddr + ph.memsz < U64 && ph.vaddr % PGSIZE == 0
    && (ph.filesz == 0 || ph.off % U32 + ph.filesz <= |file|)
  }

  /** The size the image has grown to with these segments. */
  function Size(segs: seq<ProgHdr>): nat {
    if segs == [] then 0
    else
      var ph, sz := segs[|segs| - 1], Size(segs[..|segs| - 1]);
      if ph.vaddr + ph.memsz < sz then sz else ph.vaddr + ph.memsz
  }

  /** The byte at `va` of the image: from the last segment that covers it, or zero. */
  function Image(segs: seq<ProgHdr>, file: seq<byte>, va: nat): byte {
    if segs == [] then 0
    else
      var ph := segs[|segs| - 1];
      if ph.vaddr <= va < ph.vaddr + ph.filesz && ph.off % U32 + (va - ph.vaddr) < |file| then
        file[ph.off % U32 + (va - ph.vaddr)]
      else Image(segs[..|segs| - 1], file, va)
  }

  /** The flags of page `v`: those of the segment for which it was allocated, the
      first to reach it. */
  function PagePerm(segs: seq<ProgHdr>, v: nat): nat {
    if segs == [] then 0
    else
      var before := segs[..|segs| - 1];
      if v < PageUp(Size(before)) then PagePerm(before, v)
      else PTE_R + PTE_U + Flags2perm(segs[|segs| - 1].flags) + 1
  }

  ghost predicate HasPerms(m: Mem, n: Nodes, np: nat, segs: seq<ProgHdr>) {
    forall v: nat :: v < np ==> Flags(Leaf(m, n, v)) == PagePerm(segs, v)
  }

  lemma GrownPerms(m: Mem, s: Space, m': Mem, s': Space, segs: seq<ProgHdr>, ph: ProgHdr)
    requires HasPerms(m, s.n, s.np, segs) && s.np == PageUp(Size(segs)) && Keeps(m, s, m', s', s.np)
    requires Fresh(m', s'.n, s.np, s'.np, PTE_R + PTE_U + Flags2perm(ph.flags) + 1)
    ensures HasPerms(m', s'.n, s'.np, segs + [ph])
  {
    assert (segs + [ph])[..|segs|] == segs;
    hide Leaf, Flags, Page, Size, PageUp, Flags2perm;
  }

  lemma PermsKept(m: Mem, s: Space, m': Mem, s': Space, segs: seq<ProgHdr>)
    requires HasPerms(m, s.n, s.np, segs) && Keeps(m, s, m', s', s.np)
    ensures HasPerms(m', s'.n, s.np, segs)
  {
    hide Leaf, Flags, Page, PagePerm;
  }

  lemma PermsSame(m: Mem, m': Mem, n: Nodes, np: nat, segs: seq<ProgHdr>)
    requires HasPerms(m, n, np, segs) && SameLeaves(m, n, m', n)
    ensures HasPerms(m', n, np, segs)
  {
    hide Leaf, Flags, PagePerm;
  }

  /** The bytes of the first `np` pages. */
  ghost predicate HasImage(m: Mem, n: Nodes, np: nat, segs: seq<ProgHdr>, file: seq<byte>) {
    forall va: nat :: va < np * PGSIZE ==> ByteAt(m, n, va) == Image(segs, file, va)
  }

  ghost predicate ZeroAbove(segs: seq<ProgHdr>, file: seq<byte>, np: nat) {
    forall va: nat :: va >= np * PGSIZE ==> Image(segs, file, va) == 0
  }

  lemma FreshUser(m: Mem, n: Nodes, v: nat, perm: nat)
    requires v < MAXPAGES && Flags(Leaf(m, n, v)) == PTE_R + PTE_U + perm + 1
    requires perm == 0 || perm == PTE_W || perm == PTE_X || perm == PTE_W + PTE_X
    ensures Accessible(m, n, v)
  {
  }

  /** Growth keeps the bytes there were and adds zeros. */
  lemma GrownHolds(m: Mem, s: Space, m': Mem, s': Space, perm: nat, segs: seq<ProgHdr>, file: seq<byte>)
    requires Ok(m', s') && Keeps(m, s, m', s', s.np) && Fresh(m', s'.n, s.np, s'.np, PTE_R + PTE_U + perm + 1) && s.np <= s'.np
    requires perm == 0 || perm == PTE_W || perm == PTE_X || perm == PTE_W + PTE_X
    requires AllUser(m, s.n, s.np) && HasImage(m, s.n, s.np, segs, file) && ZeroAbove(segs, file, s.np)
    ensures AllUser(m', s'.n, s'.np) && HasImage(m', s'.n, s'.np, segs, file)
  {
    AtTree(m', s');
    forall v: nat | v < s'.np
      ensures Accessible(m', s'.n, v)
    {
      if v >= s.np {
        FreshUser(m', s'.n, v, perm);
      } else {
        assert Accessible(m, s.n, v);
      }
    }
    forall va: nat | va < s'.np * PGSIZE
      ensures ByteAt(m', s'.n, va) == Image(segs, file, va)
    {
      GrownByte(m, s, m', s', perm, va);
    }
  }

  lemma GrownByte(m: Mem, s: Space, m': Mem, s': Space, perm: nat, va: nat)
    requires Keeps(m, s, m', s', s.np) && Fresh(m', s'.n, s.np, s'.np, PTE_R + PTE_U + perm + 1) && va < s'.np * PGSIZE
    ensures ByteAt(m', s'.n, va) == if va < s.np * PGSIZE then ByteAt(m, s.n, va) else 0
  {
    hide Leaf, Page, Flags;
    assert va / PGSIZE < s'.np;
    if va < s.np * PGSIZE {
      assert va / PGSIZE < s.np;
    } else {
      assert va / PGSIZE >= s.np;
    }
  }

  /** The image in memory so far, all of it accessible. */
  ghost predicate Built(m: Mem, s: Space, segs: seq<ProgHdr>, file: seq<byte>) {
    && Ok(m, s) && s.np == PageUp(Size(segs))
    && AllUser(m, s.n, s.np) && HasImage(m, s.n, s.np, segs, file) && ZeroAbove(segs, file, s.np)
    && HasPerms(m, s.n, s.np, segs)
  }

  lemma Loaded(a: Mem, b: Mem, s: Space, segs: seq<ProgHdr>, ph: ProgHdr, file: seq<byte>)
    requires GoodSeg(ph, file) && Ok(b, s) && AllUser(a, s.n, s.np) && AllUser(b, s.n, s.np)
    requires HasImage(a, s.n, s.np, segs, file) && ZeroAbove(segs, file, s.np)
    requires s.np == PageUp(Size(segs + [ph])) && HasPerms(b, s.n, s.np, segs + [ph])
    requires Wrote(a, b, s.n, ph.vaddr, Part(file, ph.off % U32, ph.filesz))
    ensures Built(b, s, segs + [ph], file)
  {
    var all := segs + [ph];
    assert all[..|all| - 1] == segs;
    assert ph.vaddr + ph.filesz <= Size(all) <= s.np * PGSIZE;
    hide Ok, ByteAt, Mapped, AllUser, Size, HasPerms;
    forall va: nat | va < s.np * PGSIZE
      ensures ByteAt(b, s.n, va) == Image(all, file, va)
    {
      UserAt(a, s.n, s.np, va);
    }
    forall va: nat | va >= s.np * PGSIZE
      ensures Image(all, file, va) == 0
    {
      assert Image(segs, file, va) == 0;
    }
  }

  lemma Unloaded(m: Mem, s: Space, m': Mem, segs: seq<ProgHdr>, file: seq<byte>, perm: nat, s': Space)
    requires Built(m, s, segs, file) && Ok(m', s') && s.np <= s'.np
    requires perm == 0 || perm == PTE_W || perm == PTE_X || perm == PTE_W + PTE_X
    requires Keeps(m, s, m', s', s.np) && Fresh(m', s'.n, s.np, s'.np, PTE_R + PTE_U + perm + 1)
    ensures AllUser(m', s'.n, s'.np) && HasImage(m', s'.n, s'.np, segs, file) && ZeroAbove(segs, file, s'.np)
  {
    hide HasPerms;
    GrownHolds(m, s, m', s', perm, segs, file);
  }

  lemma NoFresh(m: Mem, s: Space, flags: nat)
    ensures Fresh(m, s.n, s.np, s.np, flags)
  {
  }

  lemma SizeNext(segs: seq<ProgHdr>, ph: ProgHdr)
    ensures Size(segs + [ph]) == if ph.vaddr + ph.memsz < Size(segs) then Size(segs) else ph.vaddr + ph.memsz
  {
    assert (segs + [ph])[..|segs|] == segs;
  }

  lemma PageUpLe(a: nat, b: nat)
    requires a <= b
    ensures PageUp(a) <= PageUp(b)
  {
  }

  /** uvmalloc and loadseg for one segment that passed the checks. */
  method LoadSegment(k: Kmem, root: nat, sz: nat, ph: ProgHdr, file: seq<byte>, ghost segs: seq<ProgHdr>, ghost s: Space)
      returns (ok: bool, sz': nat, ghost s': Space)
    requires k.Valid() && Built(k.mem, s, segs, file) && root == s.root && sz == Size(segs)
    requires |file| <= FILEMAX && ph.filesz <= ph.memsz && ph.vaddr + ph.memsz < U64 && ph.vaddr % PGSIZE == 0
    modifies k
    ensures k.Valid() && Ok(k.mem, s') && Becomes(old(k.mem), s, k.mem, s') && s'.np == PageUp(sz')
    ensures ok ==> GoodSeg(ph, file) && sz' == Size(segs + [ph]) != 0 && Built(k.mem, s', segs + [ph], file)
    ensures ok ==> |old(k.list)| <= |k.list| + 3 * (s'.np - s.np)
    ensures !ok ==> !GoodSeg(ph, file) || Size(segs + [ph]) == 0 || |old(k.list)| < 3 * (PageUp(Size(segs + [ph])) - s.np)
  {
    hide Ok, Becomes, Leaf, AllUser, HasImage, ZeroAbove, HasPerms, Keeps, SameLeaves, Wrote, SameButBytes, Fresh, PageUp, Size;
    ghost var first := k.mem;
    BecomesSelf(first, s);
    SizeNext(segs, ph);
    ghost var grew;
    ok := false;
    sz', grew, s' := Uvmalloc(k, root, sz, ph.vaddr + ph.memsz, Flags2perm(ph.flags), s);
    if sz' == 0 {
      sz' := sz;
      return;
    }
    ghost var grown := k.mem;
    NoFresh(first, s, PTE_R + PTE_U + Flags2perm(ph.flags) + 1);
    PageUpLe(sz, sz');
    Unloaded(first, s, grown, segs, file, Flags2perm(ph.flags), s');
    GrownPerms(first, s, grown, s', segs, ph);
    SameFixed(first, s, grown, s');
    RoomBelow(grown, k.first, s');
    SizeBound(sz', s'.np);
    var rc := Loadseg(k, root, ph.vaddr, file, ph.off % U32, ph.filesz % U32, s');
    SameButBecomes(grown, k.mem, s');
    BecomesJoin(first, s, grown, s', k.mem, s');
    if rc != 0 {
      return;
    }
    SameButOk(grown, k.mem, s');
    PermsSame(grown, k.mem, s'.n, s'.np, segs + [ph]);
    Loaded(grown, k.mem, s', segs, ph, file);
    ok := true;
  }

  /** One turn of exec's loop over the program headers. `sz` is what the page
      table has to be freed with on failure. */
  method LoadOne(k: Kmem, root: nat, sz: nat, ph: ProgHdr, file: seq<byte>, ghost segs: seq<ProgHdr>, ghost s: Space)
      returns (ok: bool, sz': nat, ghost s': Space)
    requires k.Valid() && Built(k.mem, s, segs, file) && root == s.root && sz == Size(segs)
    requires ph.Wide() && |file| <= FILEMAX
    modifies k
    ensures k.Valid() && Ok(k.mem, s') && Becomes(old(k.mem), s, k.mem, s') && s'.np == PageUp(sz')
    ensures ok ==> GoodSeg(ph, file) && sz' == Size(segs + [ph]) != 0 && Built(k.mem, s', segs + [ph], file)
    ensures ok ==> |old(k.list)| <= |k.list| + 3 * (s'.np - s.np)
    ensures !ok ==> !GoodSeg(ph, file) || Size(segs + [ph]) == 0 || |old(k.list)| < 3 * (PageUp(Size(segs + [ph])) - s.np)
  {
    hide Ok, Becomes, AllUser, HasImage, ZeroAbove, HasPerms, Leaf, Size;
    if ph.memsz < ph.filesz || (ph.vaddr + ph.memsz) % U64 < ph.vaddr || ph.vaddr % PGSIZE != 0 {
      BecomesSelf(k.mem, s);
      return false, sz, s;
    }
    ok, sz', s' := LoadSegment(k, root, sz, ph, file, segs, s);
  }

  lemma SameButBecomes(m: Mem, m': Mem, s: Space)
    requires SameButBytes(m, m', s)
    ensures Becomes(m, s, m', s)
  {
  }

  /** What reading one program header gives. */
  datatype HdrRead = Got(ph: ProgHdr) | Short

  function Segs(hdrs: seq<HdrRead>): seq<ProgHdr> {
    if hdrs == [] then []
    else
      var h := hdrs[|hdrs| - 1];
      Segs(hdrs[..|hdrs| - 1]) + if h.Got? && h.ph.load then [h.ph] else []
  }

  /** exec accepts the headers. */
  predicate GoodHdrs(hdrs: seq<HdrRead>, file: seq<byte>) {
    hdrs == [] ||
    var h := hdrs[|hdrs| - 1];
    && GoodHdrs(hdrs[..|hdrs| - 1], file)
    && h.Got? && (h.ph.load ==> GoodSeg(h.ph, file) && Size(Segs(hdrs)) != 0)
  }

  lemma HdrNext(hdrs: seq<HdrRead>, i: nat)
    requires i < |hdrs|
    ensures hdrs[..i + 1][..i] == hdrs[..i] && hdrs[..i + 1][i] == hdrs[i]
    ensures Segs(hdrs[..i + 1]) == Segs(hdrs[..i]) + if hdrs[i].Got? && hdrs[i].ph.load then [hdrs[i].ph] else []
  {
    var h := hdrs[..i + 1];
    assert h[..i] == hdrs[..i];
    assert h[|h| - 1] == hdrs[i];
  }

  lemma {:induction false} GoodPrefix(hdrs: seq<HdrRead>, file: seq<byte>, i: nat)
    requires i <= |hdrs|
    ensures GoodHdrs(hdrs, file) ==> GoodHdrs(hdrs[..i], file)
    ensures Size(Segs(hdrs[..i])) <= Size(Segs(hdrs))
    decreases |hdrs|
  {
    if i == |hdrs| {
      assert hdrs[..i] == hdrs;
    } else {
      var p := hdrs[..|hdrs| - 1];
      assert p[..i] == hdrs[..i];
      GoodPrefix(p, file, i);
      var h := hdrs[|hdrs| - 1];
      if h.Got? && h.ph.load {
        SizeNext(Segs(p), h.ph);
      } else {
        assert Segs(hdrs) == Segs(p);
      }
    }
  }

  lemma NothingBuilt(m: Mem, s: Space, file: seq<byte>)
    requires Ok(m, s) && s.np == 0
    ensures Built(m, s, [], file)
  {
  }

  /** exec's loop over the program headers. */
  method LoadAll(k: Kmem, root: nat, hdrs: seq<HdrRead>, file: seq<byte>, ghost s: Space)
      returns (ok: bool, sz: nat, ghost s': Space)
    requires k.Valid() && Ok(k.mem, s) && root == s.root && s.np == 0 && |file| <= FILEMAX
    requires forall i :: 0 <= i < |hdrs| && hdrs[i].Got? ==> hdrs[i].ph.Wide()
    modifies k
    ensures k.Valid() && Ok(k.mem, s') && Becomes(old(k.mem), s, k.mem, s') && s'.np == PageUp(sz)
    ensures ok ==> GoodHdrs(hdrs, file) && sz == Size(Segs(hdrs)) && Built(k.mem, s', Segs(hdrs), file)
    ensures ok ==> |old(k.list)| <= |k.list| + 3 * s'.np
    ensures !ok ==> !GoodHdrs(hdrs, file) || |old(k.list)| < 3 * PageUp(Size(Segs(hdrs)))
  {
    hide Ok, Becomes, Leaf, Built, Size, GoodSeg, PageUp;
    ghost var first := k.mem;
    BecomesSelf(first, s);
    NothingBuilt(first, s, file);
    ghost var segs := [];
    sz, s' := 0, s;
    SizeNone();
    assert hdrs[..0] == [];
    for i := 0 to |hdrs|
      invariant k.Valid() && Ok(k.mem, s') && Becomes(first, s, k.mem, s') && s'.root == root && s'.np == PageUp(sz)
      invariant segs == Segs(hdrs[..i]) && GoodHdrs(hdrs[..i], file) && sz == Size(segs) && Built(k.mem, s', segs, file)
      invariant |old(k.list)| <= |k.list| + 3 * s'.np
    {
      HdrNext(hdrs, i);
      GoodPrefix(hdrs, file, i + 1);
      if hdrs[i].Short? {
        assert !GoodHdrs(hdrs[..i + 1], file);
        return false, sz, s';
      }
      var ph := hdrs[i].ph;
      if ph.load {
        ghost var before, had := k.mem, s';
        ok, sz, s' := LoadOne(k, root, sz, ph, file, segs, s');
        BecomesJoin(first, s, before, had, k.mem, s');
        SameFixed(before, had, k.mem, s');
        if !ok {
          PageUpLe(Size(segs + [ph]), Size(Segs(hdrs)));
          return false, sz, s';
        }
        segs := segs + [ph];
      }
    }
    assert hdrs[..|hdrs|] == hdrs;
    ok := true;
  }

  lemma SizeNone()
    ensures Size([]) == 0 && PageUp(0) == 0
  {
  }

  // ---- the stack

  /** uvmclear: user mode loses access to one page. */
  method Uvmclear(k: Kmem, root: nat, va: nat, ghost s: Space)
    requires k.Valid() && Ok(k.mem, s) && root == s.root && va / PGSIZE < s.np && IsLeaf(Leaf(k.mem, s.n, va / PGSIZE))
    modifies k
    ensures k.Valid() && Ok(k.mem, s) && Becomes(old(k.mem), s, k.mem, s) && k.list == old(k.list)
    ensures Maps1(old(k.mem), s.n, k.mem, s.n, va / PGSIZE, NoUser(old(Leaf(k.mem, s.n, va / PGSIZE))))
    ensures SameData(old(k.mem), k.mem)
  {
    hide Ok, Leaf, Tree, Maps1, Becomes;
    ghost var first, v := k.mem, va / PGSIZE;
    RoomBelow(first, k.first, s);
    PageAt(first, s, v);
    AtTree(first, s);
    var t, _ := Walk(k, root, va, false, s.n);
    AtLow(first, root, s.n, v);
    k.Store(t, Table(k.mem[t].ptes[va / PGSIZE % 512 := NoUser(k.mem[t].ptes[va / PGSIZE % 512])]));
    LeafSets(first, root, s.n, v, NoUser(Leaf(first, s.n, v)));
    SetMoves(first, root, s.n, v, NoUser(Leaf(first, s.n, v)));
    ClearedOk(first, s, v, k.mem);
  }

  ghost predicate SameData(m: Mem, m': Mem) {
    forall p :: p in m && m[p].Data? ==> p in m' && m'[p] == m[p]
  }

  lemma ClearedOk(m: Mem, s: Space, v: nat, m': Mem)
    requires Ok(m, s) && v < s.np && IsLeaf(Leaf(m, s.n, v)) && Tree(m', s.root, s.n)
    requires Maps1(m, s.n, m', s.n, v, NoUser(Leaf(m, s.n, v))) && Moves(m, s.root, s.n, m', s.n)
    ensures Ok(m', s) && Becomes(m, s, m', s) && SameData(m, m')
  {
    var e := Leaf(m, s.n, v);
    NotOne(NoUser(e));
    OkPages(m, s);
    MovesOwn(m, s.root, s.n, m', s.n);
    hide Leaf, Tree, Pages, Page, Flags, Valid, Entry, IsLeaf, User, NoUser;
    assert DataOf(m', s.n, 0, s.np) == DataOf(m, s.n, 0, s.np);
    assert Ok(m', s);
    hide Ok;
    ExchangeBeside(m, Pages(s.n), m', Pages(s.n), DataOf(m, s.n, 0, s.np));
  }

  lemma NotOne(e: nat)
    requires IsLeaf(e)
    ensures Flags(e) != 1
  {
  }

  /** The image below, the guard page, and the stack page on top. */
  ghost predicate Staged(m: Mem, s: Space, segs: seq<ProgHdr>, file: seq<byte>) {
    && Ok(m, s) && s.np == PageUp(Size(segs)) + 2
    && AllUser(m, s.n, s.np - 2) && HasImage(m, s.n, s.np - 2, segs, file)
    && !Accessible(m, s.n, s.np - 2) && Accessible(m, s.n, s.np - 1)
    && HasPerms(m, s.n, s.np - 2, segs)
    && Flags(Leaf(m, s.n, s.np - 2)) == PTE_R + PTE_W + 1 && Flags(Leaf(m, s.n, s.np - 1)) == PTE_R + PTE_U + PTE_W + 1
  }

  lemma StackLeaf(m: Mem, n: Nodes, v: nat)
    requires Flags(Leaf(m, n, v)) == PTE_R + PTE_U + PTE_W + 1
    ensures IsLeaf(Leaf(m, n, v)) && Valid(Leaf(m, n, v)) && User(Leaf(m, n, v))
  {
    hide Leaf;
    ByFlags(Leaf(m, n, v));
    hide Flags, Valid;
  }

  lemma StackStaged(a: Mem, b: Mem, s: Space, segs: seq<ProgHdr>, file: seq<byte>)
    requires Ok(b, s) && s.np == PageUp(Size(segs)) + 2
    requires AllUser(a, s.n, s.np) && HasImage(a, s.n, s.np, segs, file) && SameData(a, b)
    requires Maps1(a, s.n, b, s.n, s.np - 2, NoUser(Leaf(a, s.n, s.np - 2)))
    requires Ok(a, s) && HasPerms(a, s.n, s.np - 2, segs)
    requires Flags(Leaf(a, s.n, s.np - 2)) == Flags(Leaf(a, s.n, s.np - 1)) == PTE_R + PTE_U + PTE_W + 1
    ensures Staged(b, s, segs, file)
  {
    AtTree(b, s);
    StackLeaf(a, s.n, s.np - 2);
    hide Leaf, Tree, NoUser, Valid, User, Page, Flags, Size, PageUp, PagePerm, Image, ByteAt;
    StackPerms(a, b, s.n, s.np, segs);
    assert Leaf(b, s.n, s.np - 2) == NoUser(Leaf(a, s.n, s.np - 2));
    hide Ok;
    forall va: nat | va < (s.np - 2) * PGSIZE
      ensures ByteAt(b, s.n, va) == Image(segs, file, va)
    {
      StackByte(a, b, s, segs, file, va);
    }
  }

  /** Taking the user bit from the guard page changes no other flags. */
  lemma StackPerms(a: Mem, b: Mem, n: Nodes, np: nat, segs: seq<ProgHdr>)
    requires np >= 2 && AllUser(a, n, np) && HasPerms(a, n, np - 2, segs)
    requires forall v: nat :: v != np - 2 ==> Leaf(b, n, v) == Leaf(a, n, v)
    ensures AllUser(b, n, np - 2) && Accessible(b, n, np - 1) && HasPerms(b, n, np - 2, segs)
  {
    hide Leaf, Valid, User, Flags, PagePerm;
    forall v: nat | v < np && v != np - 2
      ensures Accessible(b, n, v)
    {
      assert Accessible(a, n, v);
    }
  }

  /** Taking the user bit from the guard page changes no byte below it. */
  lemma StackByte(a: Mem, b: Mem, s: Space, segs: seq<ProgHdr>, file: seq<byte>, va: nat)
    requires Ok(b, s) && Ok(a, s) && s.np == PageUp(Size(segs)) + 2 && va < (s.np - 2) * PGSIZE
    requires AllUser(a, s.n, s.np) && HasImage(a, s.n, s.np, segs, file) && SameData(a, b)
    requires forall v: nat :: v < s.np && v != s.np - 2 ==> Leaf(b, s.n, v) == Leaf(a, s.n, v)
    ensures ByteAt(b, s.n, va) == Image(segs, file, va)
  {
    hide Leaf, Tree, NoUser, Valid, User, Page, Flags, Size, PageUp, PagePerm;
    assert va / PGSIZE < s.np - 2;
    assert ByteAt(a, s.n, va) == Image(segs, file, va);
    assert InData(a, s.n, va / PGSIZE);
  }

  lemma FlagsAt(m: Mem, n: Nodes, lo: nat, hi: nat, flags: nat, v: nat)
    requires Fresh(m, n, lo, hi, flags) && lo <= v < hi
    ensures Flags(Leaf(m, n, v)) == flags
  {
  }

  /** Two pages more: an inaccessible guard and the stack. */
  method AddStack(k: Kmem, root: nat, sz: nat, file: seq<byte>, ghost segs: seq<ProgHdr>, ghost s: Space)
      returns (ok: bool, sz': nat, ghost s': Space)
    requires k.Valid() && Built(k.mem, s, segs, file) && root == s.root && sz == Size(segs)
    modifies k
    ensures k.Valid() && Ok(k.mem, s') && Becomes(old(k.mem), s, k.mem, s') && s'.np == PageUp(sz')
    ensures ok ==> Staged(k.mem, s', segs, file) && sz' == s'.np * PGSIZE
    ensures !ok ==> |old(k.list)| < 6
  {
    hide Ok, Becomes, Leaf, AllUser, HasImage, ZeroAbove, HasPerms, Keeps, SameLeaves, Maps1, SameData, PageUp, Size;
    ghost var first := k.mem;
    RoomBelow(first, k.first, s);
    SizeBound(sz, s.np);
    SizeBound(s.np * PGSIZE, s.np);
    SizeBound(s.np * PGSIZE + 2 * PGSIZE, s.np + 2);
    var base := RoundUp(sz);
    ghost var grew;
    sz', grew, s' := Uvmalloc(k, root, base, base + 2 * PGSIZE, PTE_W, s);
    if sz' == 0 {
      return false, base, s';
    }
    ghost var grown := k.mem;
    Unloaded(first, s, grown, segs, file, PTE_W, s');
    SameFixed(first, s, grown, s');
    FlagsAt(grown, s'.n, s.np, s'.np, PTE_R + PTE_U + PTE_W + 1, s.np);
    FlagsAt(grown, s'.n, s.np, s'.np, PTE_R + PTE_U + PTE_W + 1, s.np + 1);
    StackLeaf(grown, s'.n, s.np);
    PermsKept(first, s, grown, s', segs);
    assert (sz' - 2 * PGSIZE) / PGSIZE == s.np;
    Uvmclear(k, root, sz' - 2 * PGSIZE, s');
    BecomesJoin(first, s, grown, s', k.mem, s');
    StackStaged(grown, k.mem, s', segs, file);
    ok := true;
  }

  // ---- exec

  /** The new image, ready to run: the segments, the guard page, and a stack
      holding argv. */
  ghost predicate Ready(m: Mem, s: Space, segs: seq<ProgHdr>, file: seq<byte>, argv: seq<seq<byte>>, us: seq<nat>, sp: nat) {
    && Staged(m, s, segs, file)
    && |us| == |argv| && Total(argv) <= PGSIZE && sp == s.np * PGSIZE - Total(argv) && sp % 16 == 0
    && (forall j: nat {:trigger StrAt(m, s.n, s.np * PGSIZE, argv, us, j)} :: j < |us| ==> StrAt(m, s.n, s.np * PGSIZE, argv, us, j))
    && Reads(m, s.n, sp, Words(us + [0]))
  }

  lemma StackedStaged(a: Mem, b: Mem, s: Space, segs: seq<ProgHdr>, file: seq<byte>, at: nat)
    requires Staged(a, s, segs, file) && SameButBytes(a, b, s) && KeptBelow(a, b, s.n, at) && (s.np - 2) * PGSIZE <= at
    ensures Staged(b, s, segs, file)
  {
    SameButOk(a, b, s);
    AllUserSame(a, b, s, s.np - 2);
    PermsSame(a, b, s.n, s.np - 2, segs);
    SameAt(a, s.n, b, s.n, s.np - 2);
    SameAt(a, s.n, b, s.n, s.np - 1);
    hide Ok, Leaf, ByteAt, AllUser, HasPerms, SameButBytes, Size, PageUp, Valid, User, Flags;
    forall va: nat | va < (s.np - 2) * PGSIZE
      ensures ByteAt(b, s.n, va) == Image(segs, file, va)
    {
      UserAt(a, s.n, s.np - 2, va);
    }
  }

  lemma StackedReady(a: Mem, b: Mem, s: Space, segs: seq<ProgHdr>, file: seq<byte>, argv: seq<seq<byte>>, us: seq<nat>, sp: nat)
    requires Staged(a, s, segs, file) && Stacked(a, b, s, argv, us, sp)
    ensures Ready(b, s, segs, file, argv, us, sp)
  {
    hide Ok, Leaf, SameButBytes, KeptBelow, Staged, StrAt, Reads, Words;
    PushedFacts(a, b, s, argv, us, sp);
    AtStaged(a, s, segs, file);
    StackedStaged(a, b, s, segs, file, sp);
  }

  lemma AtStaged(m: Mem, s: Space, segs: seq<ProgHdr>, file: seq<byte>)
    requires Staged(m, s, segs, file)
    ensures Ok(m, s) && s.np == PageUp(Size(segs)) + 2 && Accessible(m, s.n, s.np - 1)
  {
  }

  /** All the pages of a space unchanged, all its bytes and entries are. */
  lemma SameView(m: Mem, m': Mem, s: Space, va: nat)
    requires Ok(m, s) && Keeps(m, s, m', s, s.np) && Ok(m', s)
    ensures va / PGSIZE < s.np ==> ByteAt(m', s.n, va) == ByteAt(m, s.n, va)
    ensures Leaf(m', s.n, va / PGSIZE) == Leaf(m, s.n, va / PGSIZE)
  {
    hide Tree, Leaf, Page, Flags, Valid, User, Entry;
  }

  lemma ReadyStill(m: Mem, m': Mem, s: Space, segs: seq<ProgHdr>, file: seq<byte>, argv: seq<seq<byte>>, us: seq<nat>, sp: nat)
    requires Ready(m, s, segs, file, argv, us, sp) && Ok(m', s) && Keeps(m, s, m', s, s.np)
    ensures Ready(m', s, segs, file, argv, us, sp)
  {
    SameSpace(m, s, m', s);
    StagedStill(m, m', s, segs, file);
    hide Ok, Leaf, Staged, Size, Words;
    forall j: nat | j < |us|
      ensures StrAt(m', s.n, s.np * PGSIZE, argv, us, j)
    {
      assert StrAt(m, s.n, s.np * PGSIZE, argv, us, j);
      DepthNext(argv, j);
      ReadsStill(m, m', s, us[j], Str(argv[j]));
    }
    ReadsStill(m, m', s, sp, Words(us + [0]));
  }

  lemma ReadsStill(m: Mem, m': Mem, s: Space, lo: nat, bs: seq<byte>)
    requires Ok(m, s) && Ok(m', s) && Keeps(m, s, m', s, s.np) && Reads(m, s.n, lo, bs) && lo + |bs| <= s.np * PGSIZE
    ensures Reads(m', s.n, lo, bs)
  {
    hide Ok, ByteAt, Keeps;
    forall va: nat | lo <= va < lo + |bs|
      ensures bs[va - lo] == ByteAt(m', s.n, va)
    {
      SameView(m, m', s, va);
    }
  }

  lemma StagedStill(m: Mem, m': Mem, s: Space, segs: seq<ProgHdr>, file: seq<byte>)
    requires Staged(m, s, segs, file) && Ok(m', s) && Keeps(m, s, m', s, s.np)
    ensures Staged(m', s, segs, file)
  {
    SameSpace(m, s, m', s);
    AllUserSame(m, m', s, s.np - 2);
    PermsSame(m, m', s.n, s.np - 2, segs);
    SameAt(m, s.n, m', s.n, s.np - 2);
    SameAt(m, s.n, m', s.n, s.np - 1);
    hide Ok, ByteAt, Keeps, Leaf, AllUser, HasPerms, Size, PageUp, Valid, User, Flags;
    forall va: nat | va < (s.np - 2) * PGSIZE
      ensures ByteAt(m', s.n, va) == Image(segs, file, va)
    {
      SameView(m, m', s, va);
    }
  }

  /** The fields of struct proc that exec reads and sets. */
  class Proc {
    var pagetable: nat
    var sz: nat
    var trapframe: nat
    var epc: nat
    var sp: nat
    var a1: nat
    ghost var space: Space

    ghost predicate Runs(k: Kmem)
      reads this, k
    {
      && k.Valid() && Ok(k.mem, space) && space.root == pagetable && space.np == PageUp(sz)
      && trapframe in k.mem && k.mem[trapframe].Data? && trapframe !in Own(k.mem, space)
    }

    constructor (k: Kmem, pagetable: nat, sz: nat, trapframe: nat, ghost space: Space)
      requires k.Valid() && Ok(k.mem, space) && space.root == pagetable && space.np == PageUp(sz)
      requires trapframe in k.mem && k.mem[trapframe].Data? && trapframe !in Own(k.mem, space)
      ensures Runs(k) && this.pagetable == pagetable && this.sz == sz && this.trapframe == trapframe && this.space == space
    {
      this.pagetable, this.sz, this.trapframe, this.space := pagetable, sz, trapframe, space;
      epc, sp, a1 := 0, 0, 0;
    }
  }

  lemma StillOwn(first: Mem, a: Mem, x: Space, b: Mem, y: Space)
    requires Exchange(first, {}, a, Own(a, x)) && Becomes(a, x, b, y)
    ensures Exchange(first, {}, b, Own(b, y))
  {
    hide Ok, Own;
    ExchangeJoin(first, {}, a, Own(a, x), b, Own(b, y));
  }

  /** Build the whole image in a page table of its own. */
  method BuildImage(k: Kmem, trap: nat, tramp: nat, hdrs: seq<HdrRead>, file: seq<byte>, argv: seq<seq<byte>>)
      returns (ok: bool, root: nat, sz: nat, sp: nat, us: seq<nat>, ghost s: Space)
    requires k.Valid() && trap in k.mem && k.mem[trap].Data? && |file| <= FILEMAX
    requires forall i :: 0 <= i < |hdrs| && hdrs[i].Got? ==> hdrs[i].ph.Wide()
    requires |argv| != MAXARG && forall i :: 0 <= i < |argv| ==> |argv[i]| < PGSIZE
    modifies k
    ensures k.Valid()
    ensures ok ==> GoodHdrs(hdrs, file) && |argv| < MAXARG && Ready(k.mem, s, Segs(hdrs), file, argv, us, sp)
    ensures ok ==> Ok(k.mem, s) && s.root == root && sz == s.np * PGSIZE && Exchange(old(k.mem), {}, k.mem, Own(k.mem, s))
    ensures !ok ==> Exchange(old(k.mem), {}, k.mem, {})
    ensures !ok ==> !GoodHdrs(hdrs, file) || |argv| >= MAXARG || Total(argv) > PGSIZE || |old(k.list)| < 3 * (PageUp(Size(Segs(hdrs))) + 3)
  {
    hide Ok, Becomes, Own, Exchange, Leaf, Built, Staged, Stacked, Ready, SameButBytes, GoodHdrs, PageUp, Size, Total;
    ghost var first := k.mem;
    sz, sp, us := 0, 0, [];
    root, s := ProcPagetable(k, trap, tramp);
    if root == 0 {
      return false, root, sz, sp, us, s;
    }
    ghost var m1, s1 := k.mem, s;
    SizeNone();
    ok, sz, s := LoadAll(k, root, hdrs, file, s);
    StillOwn(first, m1, s1, k.mem, s);
    SameFixed(m1, s1, k.mem, s);
    if ok {
      ghost var m2, s2 := k.mem, s;
      ok, sz, s := AddStack(k, root, sz, file, Segs(hdrs), s);
      StillOwn(first, m2, s2, k.mem, s);
      SameFixed(m2, s2, k.mem, s);
      if ok {
        ghost var m3 := k.mem;
        AtStaged(m3, s, Segs(hdrs), file);
        ok, sp, us := PushArgs(k, root, sz, argv, s);
        SameButBecomes(m3, k.mem, s);
        StillOwn(first, m3, s, k.mem, s);
        if ok {
          StackedReady(m3, k.mem, s, Segs(hdrs), file, argv, us, sp);
          return;
        }
      }
    }
    ghost var m4 := k.mem;
    ProcFreepagetable(k, root, sz, s);
    ExchangeJoin(first, {}, m4, Own(m4, s), k.mem, {});
  }

  /** exec, on any ELF contents: it fails without any effect, or the process
      runs exactly the image the segments describe with argv on its stack and
      its old memory is given back. It fails only for a bad header, arguments
      that do not fit, or want of memory. `headOk` is that the ELF header was
      read and has the magic number. */
  method Exec(k: Kmem, p: Proc, tramp: nat, headOk: bool, entry: nat, hdrs: seq<HdrRead>, file: seq<byte>, argv: seq<seq<byte>>)
      returns (rc: int, ghost us: seq<nat>)
    requires p.Runs(k) && |file| <= FILEMAX
    requires forall i :: 0 <= i < |hdrs| && hdrs[i].Got? ==> hdrs[i].ph.Wide()
    requires |argv| != MAXARG && forall i :: 0 <= i < |argv| ==> |argv[i]| < PGSIZE
    modifies k, p
    ensures p.Runs(k) && p.trapframe == old(p.trapframe)
    ensures rc == -1 || rc == |argv|
    ensures rc == -1 ==> Exchange(old(k.mem), {}, k.mem, {})
    ensures rc == -1 ==> p.pagetable == old(p.pagetable) && p.sz == old(p.sz) && p.epc == old(p.epc) && p.sp == old(p.sp) && p.a1 == old(p.a1) && p.space == old(p.space)
    ensures rc == -1 ==> !headOk || !GoodHdrs(hdrs, file) || |argv| >= MAXARG || Total(argv) > PGSIZE || |old(k.list)| < 3 * (PageUp(Size(Segs(hdrs))) + 3)
    ensures rc >= 0 ==> headOk && GoodHdrs(hdrs, file) && |argv| < MAXARG && Ready(k.mem, p.space, Segs(hdrs), file, argv, us, p.sp)
    ensures rc >= 0 ==> p.epc == entry && p.a1 == p.sp && p.sz == p.space.np * PGSIZE
    ensures rc >= 0 ==> Exchange(old(k.mem), old(Own(k.mem, p.space)), k.mem, Own(k.mem, p.space))
  {
    hide Ok, Own, Exchange, Leaf, Ready, GoodHdrs, PageUp, Size, Total, Aside, Keeps;
    ghost var first, s := k.mem, p.space;
    us := [];
    if !headOk {
      Nothing(first);
      return -1, us;
    }
    var ok, root, sz, sp, ustack;
    ok, root, sz, sp, ustack, s := BuildImage(k, p.trapframe, tramp, hdrs, file, argv);
    us := ustack;
    if !ok {
      Waits(first, p.space, p.trapframe, k.mem);
      return -1, us;
    }
    ghost var m1, was := k.mem, p.space;
    NewAside(first, was, m1, Own(m1, s), s);
    OwnKept(first, was, m1, s);
    var oldroot, oldsz := p.pagetable, p.sz;
    p.pagetable, p.sz, p.space := root, sz, s;
    p.epc, p.sp, p.a1 := entry, sp, sp;
    ProcFreepagetable(k, oldroot, oldsz, was);
    OldGone(first, was, m1, s, k.mem);
    ReadyStill(m1, k.mem, s, Segs(hdrs), file, argv, us, sp);
    SizeOf(s.np);
    TrapStays(first, was, m1, s, k.mem, p.trapframe);
    rc := |argv|;
  }

  lemma SizeOf(np: nat)
    ensures PageUp(np * PGSIZE) == np
  {
  }

  lemma Waits(m: Mem, s: Space, trap: nat, m': Mem)
    requires Ok(m, s) && Exchange(m, {}, m', {}) && trap in m && m[trap].Data? && trap !in Own(m, s)
    ensures Ok(m', s) && trap in m' && m'[trap].Data? && trap !in Own(m', s)
  {
    Idle(m, s, m');
    hide Ok, Own;
  }

  lemma OwnKept(m: Mem, s: Space, m': Mem, c: Space)
    requires Ok(m, s) && Exchange(m, {}, m', Own(m', c))
    ensures Own(m', s) == Own(m, s) && Own(m, s) !! Own(m', c)
  {
    OkPages(m, s);
    assert forall q :: q in Own(m, s) ==> q in m' && m'[q] == m[q] by { hide Own, Tree, Leaf; }
    Bystander(m, m', s);
    hide Own, Tree, Leaf, Ok;
  }

  lemma OldGone(m: Mem, was: Space, m1: Mem, s: Space, m2: Mem)
    requires Ok(m, was) && Exchange(m, {}, m1, Own(m1, s)) && Ok(m1, s) && Own(m, was) !! Own(m1, s)
    requires Exchange(m1, Own(m, was), m2, {})
    ensures Ok(m2, s) && Keeps(m1, s, m2, s, s.np) && Own(m2, s) == Own(m1, s) && Exchange(m, Own(m, was), m2, Own(m2, s))
  {
    OkPages(m, was);
    OkPages(m1, s);
    hide Tree, Leaf, Own, Ok, Keeps;
    Bystander(m1, m2, s);
  }

  lemma TrapStays(m: Mem, was: Space, m1: Mem, s: Space, m2: Mem, trap: nat)
    requires Exchange(m, {}, m1, Own(m1, s)) && Exchange(m1, Own(m, was), m2, {}) && Own(m2, s) == Own(m1, s)
    requires trap in m && m[trap].Data? && trap !in Own(m, was)
    ensures trap in m2 && m2[trap].Data? && trap !in Own(m2, s)
  {
    hide Own;
  }
}
