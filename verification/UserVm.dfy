/**
  Growing, shrinking and copying user memory: uvmalloc, uvmdealloc and uvmcopy
  of kernel/vm.c, and growproc of kernel/proc.c.
 */
module UserVm {

  import opened Riscv
  import opened PageTable
  import opened Kalloc
  import opened Vm
  import opened UserSpace

  /** From `s` to `s'`: pages only changed hands with the free list. */
  ghost predicate Becomes(m: Mem, s: Space, m': Mem, s': Space) {
    && Ok(m', s') && s'.root == s.root && s'.trap == s.trap && s'.tramp == s.tramp
    && Exchange(m, Own(m, s), m', Own(m', s'))
  }

  lemma BecomesJoin(a: Mem, x: Space, b: Mem, y: Space, c: Mem, z: Space)
    requires Becomes(a, x, b, y) && Becomes(b, y, c, z)
    ensures Becomes(a, x, c, z)
  {
    hide Ok, Own;
    ExchangeJoin(a, Own(a, x), b, Own(b, y), c, Own(c, z));
  }

  lemma BecomesSelf(m: Mem, s: Space)
    requires Ok(m, s)
    ensures Becomes(m, s, m, s) && Keeps(m, s, m, s, s.np)
  {
    OkPages(m, s);
    hide Own, Tree, Leaf;
  }

  /** A page was taken, the mapping failed for want of a table, the page went back. */
  ghost predicate Tried(m: Mem, s: Space, p: nat, b: Bytes, m2: Mem, n': Nodes) {
    && p in m && m[p].Free? && Tree(m[p := Data(b)], s.root, s.n) && Tree(m2, s.root, n')
    && Moves(m[p := Data(b)], s.root, s.n, m2, n') && SameLeaves(m[p := Data(b)], s.n, m2, n')
  }

  lemma TriedFrames(m: Mem, s: Space, p: nat, b: Bytes, m2: Mem, n': Nodes, f: Frame)
    requires Tree(m, s.root, s.n) && Tried(m, s, p, b, m2, n') && f.Free?
    ensures m2.Keys == m.Keys && m2[p] == Data(b)
    ensures Exchange(m, Pages(s.n), m2[p := f], Pages(n'))
    ensures forall q :: q in m && m[q].Data? ==> m2[p := f][q] == m[q]
  {
    OffTree(m, s.root, s.n, p, Data(b));
    TreePages(m, s.root, s.n);
    TreePages(m2, s.root, n');
    hide Tree, Leaf, Pages, SameLeaves;
  }

  lemma TriedLeaves(m: Mem, s: Space, p: nat, b: Bytes, m2: Mem, n': Nodes, f: Frame)
    requires Tree(m, s.root, s.n) && Tried(m, s, p, b, m2, n') && f.Free?
    ensures Tree(m2[p := f], s.root, n') && SameLeaves(m, s.n, m2[p := f], n')
  {
    TriedFrames(m, s, p, b, m2, n', f);
    OffTree(m, s.root, s.n, p, Data(b));
    OffTree(m2, s.root, n', p, f);
    hide Tree, Leaf, Pages, Moves, Exchange;
  }

  /** The same leaves and the same data pages are the same space, tables apart. */
  lemma SameOk(m: Mem, s: Space, m': Mem, n': Nodes)
    requires Ok(m, s) && Tree(m', s.root, n') && SameLeaves(m, s.n, m', n') && m'.Keys == m.Keys
    requires forall q :: q in m && m[q].Data? ==> m'[q] == m[q]
    ensures Ok(m', s.(n := n')) && Keeps(m, s, m', s.(n := n'), s.np) && DataOf(m', n', 0, s.np) == DataOf(m, s.n, 0, s.np)
  {
    hide Leaf, Tree, Page, Flags, Valid, Entry;
    assert DataOf(m', n', 0, s.np) == DataOf(m, s.n, 0, s.np);
  }

  lemma FailedOk(m: Mem, s: Space, p: nat, b: Bytes, m2: Mem, n': Nodes, f: Frame)
    requires Ok(m, s) && Tried(m, s, p, b, m2, n') && f.Free?
    ensures Becomes(m, s, m2[p := f], s.(n := n')) && Keeps(m, s, m2[p := f], s.(n := n'), s.np)
    ensures SameLeaves(m, s.n, m2[p := f], n')
  {
    OkPages(m, s);
    TriedFrames(m, s, p, b, m2, n', f);
    TriedLeaves(m, s, p, b, m2, n', f);
    SameOk(m, s, m2[p := f], n');
    hide Ok, Tree, Leaf, Pages, DataOf, Tried, SameLeaves, Keeps;
    ExchangeBeside(m, Pages(s.n), m2[p := f], Pages(n'), DataOf(m, s.n, 0, s.np));
  }

  /** One turn of uvmalloc or uvmcopy: a fresh page with bytes `b` is mapped next. */
  method GrowOne(k: Kmem, root: nat, a: nat, perm: nat, b: Bytes, ghost s: Space) returns (ok: bool, ghost s': Space)
    requires k.Valid() && Ok(k.mem, s) && root == s.root && a == s.np * PGSIZE && perm < 1024 && perm / 2 != 0
    modifies k
    ensures k.Valid() && Ok(k.mem, s') && Becomes(old(k.mem), s, k.mem, s') && Keeps(old(k.mem), s, k.mem, s', s.np)
    ensures s'.np == (if ok then s.np + 1 else s.np)
    ensures ok ==> var e := Leaf(k.mem, s'.n, s.np); Flags(e) == perm / 2 * 2 + 1 && Page(e) in k.mem && k.mem[Page(e)] == Data(b)
    ensures !ok ==> SameLeaves(old(k.mem), s.n, k.mem, s'.n)
    ensures |old(k.list)| <= |k.list| + 3 && (!ok ==> |old(k.list)| <= 2)
  {
    hide Ok, Tree, Leaf, Moves, Becomes, Maps1, SameLeaves, Keeps, DataOf, Pages, Exchange, Maps;
    ghost var first := k.mem;
    RoomBelow(k.mem, k.first, s);
    BecomesSelf(k.mem, s);
    NoLeafAbove(k.mem, s);
    var p := k.Kalloc();
    if p == 0 {
      SameSelf(k.mem, s.n);
      return false, s;
    }
    k.Store(p, Data(b));
    OkPages(first, s);
    assert k.mem == first[p := Data(b)];
    OffTree(first, s.root, s.n, p, Data(b));
    SameAt(first, s.n, k.mem, s.n, s.np);
    ghost var filled := k.mem;
    ghost var n', done;
    ok, n', done := Mappages(k, root, a, PGSIZE, p * PGSIZE, perm, s.n);
    if ok {
      s' := s.(n := n', np := s.np + 1);
      MapsOne(filled, s.n, k.mem, n', s.np, p, perm);
      assert Added(first, s, p, b, k.mem, n', perm);
      GrownOk(first, s, p, b, k.mem, n', perm);
      GrownOwn(first, s, p, b, k.mem, n', perm);
      AddedFrames(first, s, p, b, k.mem, n', perm);
      AtMaps1(filled, s.n, k.mem, n', s.np, Entry(p, perm));
      BecomesGrown(first, s, k.mem, s');
    } else {
      MapsZero(filled, s.n, k.mem, n', s.np, p, perm);
      s' := s.(n := n');
      ghost var mapped := k.mem;
      assert Tried(first, s, p, b, mapped, n');
      TriedFrames(first, s, p, b, mapped, n', Free(0));
      k.Kfree(p);
      FailedOk(first, s, p, b, mapped, n', k.mem[p]);
      BecomesOk(first, s, k.mem, s');
    }
  }

  lemma NoLeafAbove(m: Mem, s: Space)
    requires Ok(m, s) && s.np < TRAPFRAME
    ensures Leaf(m, s.n, s.np) == 0
  {
  }

  lemma SameSelf(m: Mem, n: Nodes)
    ensures SameLeaves(m, n, m, n)
  {
  }

  lemma SameAt(m: Mem, n: Nodes, m': Mem, n': Nodes, v: nat)
    requires SameLeaves(m, n, m', n')
    ensures Leaf(m', n', v) == Leaf(m, n, v)
  {
  }

  lemma AtMaps1(m: Mem, n: Nodes, m': Mem, n': Nodes, v: nat, e: nat)
    requires Maps1(m, n, m', n', v, e)
    ensures Leaf(m', n', v) == e
  {
  }

  lemma MapsOne(m: Mem, n: Nodes, m': Mem, n': Nodes, v: nat, ppn: nat, perm: nat)
    requires perm < 1024 && Maps(m, n, m', n', v, 1, ppn, perm)
    ensures Maps1(m, n, m', n', v, Entry(ppn, perm))
  {
    hide Leaf;
  }

  lemma MapsZero(m: Mem, n: Nodes, m': Mem, n': Nodes, v: nat, ppn: nat, perm: nat)
    requires perm < 1024 && Maps(m, n, m', n', v, 0, ppn, perm)
    ensures SameLeaves(m, n, m', n')
  {
    hide Leaf;
  }

  lemma BecomesGrown(m: Mem, s: Space, m': Mem, s': Space)
    requires Ok(m', s') && s'.root == s.root && s'.trap == s.trap && s'.tramp == s.tramp
    requires Exchange(m, Own(m, s), m', Own(m', s'))
    ensures Becomes(m, s, m', s')
  {
  }

  lemma BecomesOk(m: Mem, s: Space, m': Mem, s': Space)
    requires Becomes(m, s, m', s')
    ensures Ok(m', s')
  {
  }

  // ---- uvmdealloc, uvmalloc, growproc

  lemma PartMapped(m: Mem, s: Space, c: nat)
    requires Ok(m, s) && c <= s.np
    ensures Tree(m, s.root, s.n) && AllMapped(m, s.n, c, s.np - c) && OwnData(m, s.n, c, s.np - c) && s.np <= TRAPFRAME
  {
    hide Tree, Leaf, Page, Flags, Valid;
  }

  /** uvmdealloc: the pages above the new size go back to the free list. */
  method Uvmdealloc(k: Kmem, root: nat, oldsz: nat, newsz: nat, ghost s: Space) returns (r: nat, ghost s': Space)
    requires k.Valid() && Ok(k.mem, s) && root == s.root && s.np == PageUp(oldsz) && newsz < U64
    modifies k
    ensures r == if newsz >= oldsz then oldsz else newsz
    ensures k.Valid() && Ok(k.mem, s') && Becomes(old(k.mem), s, k.mem, s') && s' == s.(np := PageUp(r))
    ensures Keeps(old(k.mem), s, k.mem, s', s'.np)
    ensures |k.list| == |old(k.list)| + (s.np - s'.np)
  {
    hide Ok, Tree, Leaf, Becomes, Keeps, DataOf, Pages, Exchange, Cleared, Own;
    BecomesSelf(k.mem, s);
    PartMapped(k.mem, s, s.np);
    s', r := s, oldsz;
    if newsz >= oldsz {
      return;
    }
    r := newsz;
    s' := s.(np := PageUp(newsz));
    if RoundUp(newsz) < RoundUp(oldsz) {
      var npages := (RoundUp(oldsz) - RoundUp(newsz)) / PGSIZE;
      ghost var first := k.mem;
      PartMapped(k.mem, s, PageUp(newsz));
      assert npages == s.np - PageUp(newsz) && RoundUp(newsz) / PGSIZE == PageUp(newsz);
      Uvmunmap(k, root, RoundUp(newsz), npages, true, s.n);
      assert Removed(first, s, PageUp(newsz), k.mem);
      ShrunkOk(first, s, PageUp(newsz), k.mem);
      ShrunkOwn(first, s, PageUp(newsz), k.mem);
      BecomesGrown(first, s, k.mem, s');
    }
  }

  /** Pages [lo, hi) are zeroed pages with these flags. */
  ghost predicate Fresh(m: Mem, n: Nodes, lo: nat, hi: nat, flags: nat) {
    forall v: nat :: lo <= v < hi ==>
      Flags(Leaf(m, n, v)) == flags && Page(Leaf(m, n, v)) in m && m[Page(Leaf(m, n, v))] == Data(Filled(0))
  }

  lemma FreshNext(m: Mem, s: Space, m': Mem, s': Space, lo: nat, flags: nat)
    requires Fresh(m, s.n, lo, s.np, flags) && Keeps(m, s, m', s', s.np)
    requires var e := Leaf(m', s'.n, s.np); Flags(e) == flags && Page(e) in m' && m'[Page(e)] == Data(Filled(0))
    ensures Fresh(m', s'.n, lo, s.np + 1, flags)
  {
    hide Leaf, Flags, Page;
  }

  /** Two spaces that agree on the user pages agree everywhere. */
  lemma SameSpace(m: Mem, s: Space, m': Mem, s': Space)
    requires Ok(m, s) && Ok(m', s') && s'.np == s.np && s'.trap == s.trap && s'.tramp == s.tramp
    requires Keeps(m, s, m', s', s.np)
    ensures SameLeaves(m, s.n, m', s'.n)
  {
    hide Leaf, Tree, Entry;
  }

  lemma SizeBound(oldsz: nat, np: nat)
    requires np == PageUp(oldsz) && np <= TRAPFRAME
    ensures oldsz + PGSIZE < U64 && RoundUp(oldsz) == np * PGSIZE && PageUp(np * PGSIZE) == np
  {
  }

  /** uvmalloc: grows to any 64-bit size if the memory is there; if not, undoes
      its own work and leaves every mapping and every user page as before. */
  method Uvmalloc(k: Kmem, root: nat, oldsz: nat, newsz: nat, xperm: nat, ghost s: Space)
      returns (r: nat, ghost ok: bool, ghost s': Space)
    requires k.Valid() && Ok(k.mem, s) && root == s.root && s.np == PageUp(oldsz) && newsz < U64
    requires xperm == 0 || xperm == PTE_W || xperm == PTE_X || xperm == PTE_W + PTE_X
    modifies k
    ensures k.Valid() && Ok(k.mem, s') && Becomes(old(k.mem), s, k.mem, s') && Keeps(old(k.mem), s, k.mem, s', s.np)
    ensures newsz < oldsz ==> ok && r == oldsz && k.mem == old(k.mem) && k.list == old(k.list) && s' == s
    ensures newsz >= oldsz && ok ==> r == newsz && s'.np == PageUp(newsz) && |old(k.list)| <= |k.list| + 3 * (s'.np - s.np)
    ensures newsz >= oldsz && ok ==> Fresh(k.mem, s'.n, s.np, s'.np, PTE_R + PTE_U + xperm + 1)
    ensures newsz >= oldsz && !ok ==> r == 0 && s'.np == s.np && SameLeaves(old(k.mem), s.n, k.mem, s'.n)
    ensures newsz >= oldsz && !ok ==> |old(k.list)| < 3 * (PageUp(newsz) - s.np)
  {
    hide Ok, Tree, Leaf, Becomes, Keeps, SameLeaves;
    BecomesSelf(k.mem, s);
    ok, s' := true, s;
    if newsz < oldsz {
      r := oldsz;
      return;
    }
    RoomBelow(k.mem, k.first, s);
    SizeBound(oldsz, s.np);
    ghost var first := k.mem;
    var a := RoundUp(oldsz);
    while a < newsz
      invariant a == s'.np * PGSIZE && s.np <= s'.np <= PageUp(newsz) && s'.root == root
      invariant k.Valid() && Ok(k.mem, s') && Becomes(first, s, k.mem, s') && Keeps(first, s, k.mem, s', s.np)
      invariant s'.trap == s.trap && s'.tramp == s.tramp
      invariant Fresh(k.mem, s'.n, s.np, s'.np, PTE_R + PTE_U + xperm + 1)
      invariant |old(k.list)| <= |k.list| + 3 * (s'.np - s.np)
      decreases PageUp(newsz) - s'.np
    {
      ghost var before, had := k.mem, s';
      var mapped;
      mapped, s' := GrowOne(k, root, a, PTE_R + PTE_U + xperm, Filled(0), s');
      KeepsJoin(first, s, before, had, k.mem, s', s.np, had.np);
      BecomesJoin(first, s, before, had, k.mem, s');
      SameFixed(before, had, k.mem, s');
      if !mapped {
        ghost var tried, half := k.mem, s';
        r, s' := Uvmdealloc(k, root, a, RoundUp(oldsz), s');
        KeepsJoin(first, s, tried, half, k.mem, s', s.np, s'.np);
        BecomesJoin(first, s, tried, half, k.mem, s');
        SameSpace(first, s, k.mem, s');
        return 0, false, s';
      }
      FreshNext(before, had, k.mem, s', s.np, PTE_R + PTE_U + xperm + 1);
      a := a + PGSIZE;
    }
    r := newsz;
  }

  lemma SameFixed(m: Mem, s: Space, m': Mem, s': Space)
    requires Becomes(m, s, m', s')
    ensures s'.root == s.root && s'.trap == s.trap && s'.tramp == s.tramp
  {
  }

  /** growproc, for any int `n`: growing fails without effect or succeeds,
      shrinking always succeeds, and shrinking below zero does nothing. */
  method Growproc(k: Kmem, root: nat, sz: nat, n: int, ghost s: Space) returns (rc: int, sz': nat, ghost s': Space)
    requires k.Valid() && Ok(k.mem, s) && root == s.root && s.np == PageUp(sz)
    requires -0x8000_0000 <= n < 0x8000_0000
    modifies k
    ensures k.Valid() && Ok(k.mem, s') && Becomes(old(k.mem), s, k.mem, s') && s'.np == PageUp(sz')
    ensures Keeps(old(k.mem), s, k.mem, s', if n > 0 then s.np else s'.np)
    ensures rc == 0 ==> sz' == if sz + n >= 0 then sz + n else sz
    ensures rc == 0 && n > 0 ==> Fresh(k.mem, s'.n, s.np, s'.np, PTE_R + PTE_U + PTE_W + 1)
    ensures rc != 0 ==> rc == -1 && n > 0 && sz' == sz && SameLeaves(old(k.mem), s.n, k.mem, s'.n)
    ensures rc != 0 ==> |old(k.list)| < 3 * (PageUp(sz + n) - s.np)
  {
    hide Ok, Tree, Leaf, Becomes, Keeps, SameLeaves, Fresh;
    RoomBelow(k.mem, k.first, s);
    SizeBound(sz, s.np);
    BecomesSelf(k.mem, s);
    rc, sz', s' := 0, sz, s;
    if n > 0 {
      ghost var ok;
      sz', ok, s' := Uvmalloc(k, root, sz, sz + n, PTE_W, s);
      if sz' == 0 {
        rc, sz' := -1, sz;
      }
    } else if n < 0 {
      sz', s' := Uvmdealloc(k, root, sz, (sz + n) % U64, s);
    }
  }

  // ---- uvmcopy

  /** A space that is not touched stays as it is. */
  lemma Bystander(m: Mem, m': Mem, s: Space)
    requires Ok(m, s) && forall q :: q in Own(m, s) ==> q in m' && m'[q] == m[q]
    ensures Ok(m', s) && Keeps(m, s, m', s, s.np) && Own(m', s) == Own(m, s)
  {
    TreeFrame(m, m', s.root, s.n);
    hide Tree, Leaf, Page, Flags, Valid, Entry;
    assert DataOf(m', s.n, 0, s.np) == DataOf(m, s.n, 0, s.np);
  }

  /** The first `c` pages of `q` have the flags and the bytes of those of `p`. */
  ghost predicate Copied(m: Mem, p: Space, q: Space, c: nat) {
    forall v: nat :: v < c ==>
      && Flags(Leaf(m, q.n, v)) == Flags(Leaf(m, p.n, v))
      && Page(Leaf(m, q.n, v)) in m && Page(Leaf(m, p.n, v)) in m
      && m[Page(Leaf(m, q.n, v))] == m[Page(Leaf(m, p.n, v))]
  }

  lemma CopiedNext(m: Mem, p: Space, q: Space, m': Mem, q': Space, c: nat)
    requires Copied(m, p, q, c) && Keeps(m, p, m', p, c + 1) && Keeps(m, q, m', q', c)
    requires var e, f := Leaf(m', q'.n, c), Leaf(m, p.n, c); Flags(e) == Flags(f) && Page(e) in m' && m'[Page(e)] == m[Page(f)]
    ensures Copied(m', p, q', c + 1)
  {
    hide Leaf, Page, Flags;
  }

  lemma PageAt(m: Mem, s: Space, v: nat)
    requires Ok(m, s) && v < s.np
    ensures var e := Leaf(m, s.n, v); Valid(e) && Flags(e) / 2 != 0 && Page(e) in m && m[Page(e)].Data? && Low(v / 512) in s.n
  {
  }

  /** Nothing of `s` is free or of `t`: what becomes of `t` leaves `s` alone. */
  ghost predicate Aside(m: Mem, s: Space, t: Space) {
    Own(m, s) !! Own(m, t)
  }

  lemma BystanderOf(m: Mem, s: Space, t: Space, m': Mem, t': Space)
    requires Ok(m, s) && Ok(m, t) && Aside(m, s, t) && Becomes(m, t, m', t')
    ensures Ok(m', s) && Keeps(m, s, m', s, s.np) && Own(m', s) == Own(m, s) && Aside(m', s, t')
  {
    OkPages(m, s);
    OkPages(m, t);
    hide Tree, Leaf, DataOf, Pages, AllMapped, OwnData, Own;
    Bystander(m, m', s);
  }

  lemma AtTree(m: Mem, s: Space)
    requires Ok(m, s)
    ensures Tree(m, s.root, s.n) && s.np <= TRAPFRAME
  {
  }

  /** uvmcopy: the child gets the parent's pages, flags and bytes, in pages of
      its own; or, if memory runs out, none. The parent is untouched. */
  method Uvmcopy(k: Kmem, from: nat, to: nat, sz: nat, ghost p: Space, ghost c: Space) returns (rc: int, ghost c': Space)
    requires k.Valid() && Ok(k.mem, p) && Ok(k.mem, c) && Aside(k.mem, p, c)
    requires from == p.root && to == c.root && p.np == PageUp(sz) && c.np == 0
    modifies k
    ensures k.Valid() && Ok(k.mem, p) && Keeps(old(k.mem), p, k.mem, p, p.np) && Aside(k.mem, p, c')
    ensures Ok(k.mem, c') && Becomes(old(k.mem), c, k.mem, c')
    ensures rc == 0 ==> c'.np == p.np && Copied(k.mem, p, c', p.np)
    ensures rc != 0 ==> rc == -1 && c'.np == 0 && |old(k.list)| < 3 * p.np
  {
    hide Ok, Tree, Leaf, Becomes, Keeps, SameLeaves, Aside, Copied;
    BecomesSelf(k.mem, c);
    BecomesSelf(k.mem, p);
    CopiedNone(k.mem, p, c);
    ghost var first := k.mem;
    var i := 0;
    c' := c;
    while i < sz
      invariant i == c'.np * PGSIZE && c'.np <= p.np && k.Valid()
      invariant Ok(k.mem, p) && Ok(k.mem, c') && Aside(k.mem, p, c') && Keeps(first, p, k.mem, p, p.np)
      invariant c'.root == c.root && Becomes(first, c, k.mem, c') && Copied(k.mem, p, c', c'.np)
      invariant |old(k.list)| <= |k.list| + 3 * c'.np
      decreases p.np - c'.np
    {
      ghost var before, had := k.mem, c';
      AtTree(k.mem, p);
      PageAt(k.mem, p, had.np);
      var t, _ := Walk(k, from, i, false, p.n);
      AtLow(k.mem, from, p.n, had.np);
      var e := k.mem[t].ptes[i / PGSIZE % 512];
      var ok;
      ok, c' := GrowOne(k, to, i, Flags(e), k.mem[Page(e)].bytes, c');
      BecomesJoin(first, c, before, had, k.mem, c');
      SameFixed(before, had, k.mem, c');
      BystanderOf(before, p, had, k.mem, c');
      KeepsJoin(first, p, before, p, k.mem, p, p.np, p.np);
      if !ok {
        ghost var tried, half := k.mem, c';
        AtTree(tried, half);
        PartMapped(tried, half, 0);
        assert i / PGSIZE == half.np;
        Uvmunmap(k, to, 0, i / PGSIZE, true, c'.n);
        c' := half.(np := 0);
        assert Removed(tried, half, 0, k.mem) by { hide Cleared, DataOf, Pages, Exchange; }
        ShrunkOk(tried, half, 0, k.mem);
        ShrunkOwn(tried, half, 0, k.mem);
        BecomesGrown(tried, half, k.mem, c');
        BecomesJoin(first, c, tried, half, k.mem, c');
        BystanderOf(tried, p, half, k.mem, c');
        KeepsJoin(first, p, tried, p, k.mem, p, p.np, p.np);
        return -1, c';
      }
      KeepsFewer(before, p, k.mem, p, p.np, had.np + 1);
      CopiedNext(before, p, had, k.mem, c', had.np);
      i := i + PGSIZE;
    }
    rc := 0;
  }

  lemma CopiedNone(m: Mem, p: Space, c: Space)
    ensures Copied(m, p, c, 0)
  {
  }

  lemma KeepsFewer(m: Mem, s: Space, m': Mem, s': Space, i: nat, j: nat)
    requires Keeps(m, s, m', s', i) && j <= i
    ensures Keeps(m, s, m', s', j)
  {
    hide Leaf;
  }
}
