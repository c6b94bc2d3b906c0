/**
  A whole user page table from proc_pagetable to proc_freepagetable.
 */
module ProcVm {

  import opened Riscv
  import opened PageTable
  import opened Kalloc
  import opened Vm
  import opened UserSpace
  import opened FreeWalk
  import opened UserVm

  /** A tree that maps `np` pages of its own from 0 and nothing else. */
  ghost predicate Plain(m: Mem, root: nat, n: Nodes, np: nat) {
    && Tree(m, root, n) && AllMapped(m, n, 0, np) && OwnData(m, n, 0, np) && np <= MAXPAGES
    && forall v: nat :: v >= np ==> Leaf(m, n, v) == 0
  }

  lemma PlainFreeable(m: Mem, root: nat, n: Nodes)
    requires Plain(m, root, n, 0)
    ensures Freeable(m, n, Root) && Whole(n, Root) == Pages(n) && n[Root] == root
  {
    forall a | a in n
      ensures Bare(m, n, a)
    {
      forall i: nat | i < 512
        ensures if a.Low? then !Valid(m[n[a]].ptes[i]) else EntryOk(m, n, a, i)
      {
        if a.Low? {
          var v := a.j * 512 + i;
          assert v / 512 == a.j && v % 512 == i;
          assert Leaf(m, n, v) == 0;
        }
      }
    }
  }

  lemma AllBack(m: Mem, root: nat, n: Nodes, m': Mem)
    requires Tree(m, root, n) && Freed(m, m', Pages(n))
    ensures Exchange(m, Pages(n), m', {})
  {
  }

  lemma PlainPart(m: Mem, root: nat, n: Nodes, np: nat)
    requires Plain(m, root, n, np)
    ensures Tree(m, root, n) && AllMapped(m, n, 0, np) && OwnData(m, n, 0, np) && np <= MAXPAGES
    ensures np == 0 ==> DataOf(m, n, 0, np) == {}
  {
  }

  lemma PlainCleared(m: Mem, root: nat, n: Nodes, np: nat, m': Mem)
    requires Plain(m, root, n, np) && Tree(m', root, n) && Cleared(m, m', n, 0, np)
    ensures Plain(m', root, n, 0)
  {
    hide Tree, Leaf;
  }

  /** uvmfree: the user pages and all the tables go back to the free list. */
  method Uvmfree(k: Kmem, root: nat, sz: nat, ghost n: Nodes)
    requires k.Valid() && Plain(k.mem, root, n, PageUp(sz))
    modifies k
    ensures k.Valid() && Exchange(old(k.mem), Pages(n) + old(DataOf(k.mem, n, 0, PageUp(sz))), k.mem, {})
  {
    hide Plain, Tree, Leaf, DataOf, Pages, Exchange, Cleared, Freeable, Whole, Freed;
    ghost var first := k.mem;
    PlainPart(first, root, n, PageUp(sz));
    NoneGiven(first, root, n, 0);
    if sz > 0 {
      assert RoundUp(sz) / PGSIZE == PageUp(sz);
      Uvmunmap(k, root, 0, RoundUp(sz) / PGSIZE, true, n);
      PlainCleared(first, root, n, PageUp(sz), k.mem);
    }
    ghost var bare := k.mem;
    PlainFreeable(bare, root, n);
    Freewalk(k, root, Root, n);
    AllBack(bare, root, n, k.mem);
    ExchangeJoin(first, Pages(n) + DataOf(first, n, 0, PageUp(sz)), bare, Pages(n), k.mem, {});
  }

  // ---- proc_pagetable

  lemma EmptyTree(m: Mem, p: nat)
    requires p in m
    ensures Plain(m[p := Table(NoEntries())], p, map[Root := p], 0) && Pages(map[Root := p]) == {p}
  {
    var m', n := m[p := Table(NoEntries())], map[Root := p];
    assert n[Root] == p;
    forall id: Id, i: nat | id in n && !id.Low? && i < 512
      ensures EntryOk(m', n, id, i)
    {
      assert Child(id, i) !in n;
    }
  }

  /** The empty user space that proc_pagetable makes. */
  lemma NewOk(m: Mem, root: nat, n: Nodes, trap: nat, tramp: nat)
    requires Tree(m, root, n)
    requires forall v: nat :: Leaf(m, n, v) == Above(trap, tramp, v)
    ensures Ok(m, Space(root, n, 0, trap, tramp)) && Own(m, Space(root, n, 0, trap, tramp)) == Pages(n)
  {
    assert DataOf(m, n, 0, 0) == {};
    hide Tree, Leaf;
  }

  lemma MovesOwn(m: Mem, root: nat, n: Nodes, m': Mem, n': Nodes)
    requires Moves(m, root, n, m', n') && Tree(m, root, n)
    ensures Exchange(m, Pages(n), m', Pages(n'))
    ensures Holds(m, m')
  {
    TreePages(m, root, n);
  }

  lemma LeavesNone(m: Mem, root: nat, n: Nodes, np: nat, v: nat)
    requires Plain(m, root, n, np) && v >= np
    ensures Leaf(m, n, v) == 0
  {
  }

  lemma PlainSame(m: Mem, root: nat, n: Nodes, m': Mem, n': Nodes)
    requires Plain(m, root, n, 0) && SameLeaves(m, n, m', n') && Tree(m', root, n')
    ensures Plain(m', root, n', 0)
  {
    hide Tree, Leaf;
  }

  lemma BothMapped(a: Mem, root: nat, x: Nodes, b: Mem, y: Nodes, c: Mem, z: Nodes, trap: nat, tramp: nat)
    requires Plain(a, root, x, 0)
    requires Maps1(a, x, b, y, TRAMPOLINE, Entry(tramp, PTE_R + PTE_X)) && Maps1(b, y, c, z, TRAPFRAME, Entry(trap, PTE_R + PTE_W))
    ensures forall v: nat :: Leaf(c, z, v) == Above(trap, tramp, v)
  {
    hide Tree, Leaf, Entry;
  }

  /** uvmcreate: an empty tree in a page of its own. */
  method Uvmcreate(k: Kmem) returns (root: nat, ghost n: Nodes)
    requires k.Valid()
    modifies k
    ensures k.Valid() && (root == 0 <==> old(k.list) == [])
    ensures root == 0 ==> k.mem == old(k.mem)
    ensures root != 0 ==> n == map[Root := root] && |k.list| == |old(k.list)| - 1 && Plain(k.mem, root, n, 0)
    ensures root != 0 ==> Exchange(old(k.mem), {}, k.mem, Pages(n)) && Holds(old(k.mem), k.mem)
  {
    hide Plain, Tree, Leaf, Pages;
    ghost var first := k.mem;
    root := k.Kalloc();
    n := map[];
    if root != 0 {
      k.Store(root, Table(NoEntries()));
      n := map[Root := root];
      assert k.mem == first[root := Table(NoEntries())];
      EmptyTree(first, root);
    }
  }

  /** Plain pages of bytes are as they were. */
  ghost predicate Holds(m: Mem, m': Mem) {
    forall p :: p in m && m[p].Data? ==> p in m' && m'[p] == m[p]
  }

  /** proc_pagetable: a space with no user pages, or nothing taken at all. The
      second mapping needs no new table, so it cannot fail. */
  method ProcPagetable(k: Kmem, trap: nat, tramp: nat) returns (root: nat, ghost s: Space)
    requires k.Valid() && trap in k.mem && k.mem[trap].Data?
    modifies k
    ensures k.Valid()
    ensures root != 0 ==> Ok(k.mem, s) && s.root == root && s.np == 0 && s.trap == trap && s.tramp == tramp
    ensures root != 0 ==> Exchange(old(k.mem), {}, k.mem, Own(k.mem, s)) && k.mem[trap] == old(k.mem)[trap]
    ensures root == 0 ==> Exchange(old(k.mem), {}, k.mem, {}) && |old(k.list)| < 3
    ensures root != 0 ==> |old(k.list)| <= |k.list| + 3
  {
    hide Plain, Tree, Leaf, DataOf, Pages, Moves, Maps, Maps1, Ok, Own, Exchange, Entry;
    ghost var first, n, n0, done := k.mem, map[], map[], 0;
    s := Space(0, map[], 0, trap, tramp);
    root, n0 := Uvmcreate(k);
    if root == 0 {
      Nothing(first);
      return;
    }
    ghost var made := k.mem;
    PlainPart(made, root, n0, 0);
    LeavesNone(made, root, n0, 0, TRAMPOLINE);
    var ok;
    ok, n, done := Mappages(k, root, TRAMPOLINE * PGSIZE, PGSIZE, tramp * PGSIZE, PTE_R + PTE_X, n0);
    ghost var half, n1 := k.mem, n;
    MovesOwn(made, root, n0, half, n1);
    ExchangeJoin(first, {}, made, Pages(n0), half, Pages(n1));
    if !ok {
      MapsZero(made, n0, half, n1, TRAMPOLINE, tramp, PTE_R + PTE_X);
      PlainSame(made, root, n0, half, n1);
      PlainPart(half, root, n1, 0);
      Uvmfree(k, root, 0, n1);
      assert Pages(n1) + {} == Pages(n1);
      ExchangeJoin(first, {}, half, Pages(n1), k.mem, {});
      return 0, s;
    }
    MapsOne(made, n0, half, n1, TRAMPOLINE, tramp, PTE_R + PTE_X);
    LeavesNone(made, root, n0, 0, TRAPFRAME);
    OthersSame(made, n0, half, n1, TRAMPOLINE, Entry(tramp, PTE_R + PTE_X), TRAPFRAME);
    TableThere(half, n1);
    ok, n, done := Mappages(k, root, TRAPFRAME * PGSIZE, PGSIZE, trap * PGSIZE, PTE_R + PTE_W, n1);
    assert ok;
    MapsOne(half, n1, k.mem, n, TRAPFRAME, trap, PTE_R + PTE_W);
    BothMapped(made, root, n0, half, n1, k.mem, n, trap, tramp);
    MovesOwn(half, root, n1, k.mem, n);
    ExchangeJoin(first, {}, half, Pages(n1), k.mem, Pages(n));
    NewOk(k.mem, root, n, trap, tramp);
    s := Space(root, n, 0, trap, tramp);
  }

  lemma Nothing(m: Mem)
    ensures Exchange(m, {}, m, {})
  {
  }

  lemma OthersSame(m: Mem, n: Nodes, m': Mem, n': Nodes, v: nat, e: nat, w: nat)
    requires Maps1(m, n, m', n', v, e) && w != v
    ensures Leaf(m', n', w) == Leaf(m, n, w) && Leaf(m', n', v) == e
  {
  }

  /** The trampoline and the trapframe have the same last-level table. */
  lemma TableThere(m: Mem, n: Nodes)
    requires Leaf(m, n, TRAMPOLINE) != 0
    ensures Low(TRAPFRAME / 512) in n
  {
  }

  // ---- proc_freepagetable

  lemma TopMapped(m: Mem, s: Space)
    requires Ok(m, s)
    ensures Tree(m, s.root, s.n) && AllMapped(m, s.n, TRAMPOLINE, 1) && AllMapped(m, s.n, TRAPFRAME, 1)
  {
  }

  lemma StillMapped(m: Mem, m': Mem, n: Nodes)
    requires AllMapped(m, n, TRAPFRAME, 1) && Cleared(m, m', n, TRAMPOLINE, 1)
    ensures AllMapped(m', n, TRAPFRAME, 1)
  {
    hide Leaf;
  }

  lemma TopGone(m: Mem, s: Space, a: Mem, b: Mem)
    requires Ok(m, s) && Cleared(m, a, s.n, TRAMPOLINE, 1) && Cleared(a, b, s.n, TRAPFRAME, 1)
    requires Tree(b, s.root, s.n) && Exchange(m, Pages(s.n), b, Pages(s.n))
    ensures Plain(b, s.root, s.n, s.np) && DataOf(b, s.n, 0, s.np) == DataOf(m, s.n, 0, s.np)
  {
    OkPages(m, s);
    hide Tree, Leaf, Pages, Valid, Flags, Page, Entry;
    assert DataOf(b, s.n, 0, s.np) == DataOf(m, s.n, 0, s.np);
  }

  /** proc_freepagetable: every page that is the space's own goes back, and no
      other page is touched, the trapframe's and the trampoline's included. */
  method ProcFreepagetable(k: Kmem, root: nat, sz: nat, ghost s: Space)
    requires k.Valid() && Ok(k.mem, s) && root == s.root && s.np == PageUp(sz)
    modifies k
    ensures k.Valid() && Exchange(old(k.mem), old(Own(k.mem, s)), k.mem, {})
  {
    hide Plain, Tree, Leaf, DataOf, Pages, Exchange, Cleared, AllMapped, OwnData, Ok;
    ghost var first := k.mem;
    TopMapped(first, s);
    Uvmunmap(k, root, TRAMPOLINE * PGSIZE, 1, false, s.n);
    ghost var one := k.mem;
    StillMapped(first, one, s.n);
    Uvmunmap(k, root, TRAPFRAME * PGSIZE, 1, false, s.n);
    ghost var two := k.mem;
    assert Pages(s.n) + {} == Pages(s.n);
    ExchangeJoin(first, Pages(s.n), one, Pages(s.n), two, Pages(s.n));
    TopGone(first, s, one, two);
    Uvmfree(k, root, sz, s.n);
    OkPages(first, s);
    ExchangeBeside(first, Pages(s.n), two, Pages(s.n), DataOf(first, s.n, 0, s.np));
    ExchangeJoin(first, Own(first, s), two, Own(first, s), k.mem, {});
  }

  // ---- allocproc and freeproc

  lemma Taken(m: Mem, p: nat, b: Bytes)
    requires p in m && m[p].Free?
    ensures Exchange(m, {}, m[p := Data(b)], {p})
  {
  }

  lemma Returned(m: Mem, p: nat, f: Frame, own: set<nat>)
    requires p in m && !m[p].Free? && f.Free? && p !in own && forall q :: q in own ==> q in m && !m[q].Free?
    ensures Exchange(m, own + {p}, m[p := f], own)
  {
  }

  lemma Beside(m: Mem, m': Mem, own': set<nat>, p: nat)
    requires Exchange(m, {}, m', own') && p in m && !m[p].Free?
    ensures Exchange(m, {p}, m', own' + {p}) && p !in own' && m'[p] == m[p]
  {
    ExchangeBeside(m, {}, m', own', {p});
  }

  /** The memory side of allocproc: a trapframe page and a page table, or nothing. */
  method Allocproc(k: Kmem, tramp: nat) returns (trap: nat, pt: nat, ghost c: Space)
    requires k.Valid()
    modifies k
    ensures k.Valid()
    ensures pt == 0 ==> Exchange(old(k.mem), {}, k.mem, {}) && |old(k.list)| < 4
    ensures pt != 0 ==> Ok(k.mem, c) && c.root == pt && c.np == 0 && c.trap == trap && c.tramp == tramp
    ensures pt != 0 ==> Exchange(old(k.mem), {}, k.mem, Own(k.mem, c) + {trap}) && trap !in Own(k.mem, c) && trap in k.mem && k.mem[trap].Data?
  {
    hide Ok, Own, Exchange, Leaf;
    ghost var first := k.mem;
    c := Space(0, map[], 0, 0, 0);
    Nothing(first);
    trap := k.Kalloc();
    if trap == 0 {
      return 0, 0, c;
    }
    ghost var m1 := k.mem;
    Taken(first, trap, Filled(5));
    pt, c := ProcPagetable(k, trap, tramp);
    ghost var m2 := k.mem;
    if pt == 0 {
      Beside(m1, m2, {}, trap);
      assert {} + {trap} == {trap};
      k.Kfree(trap);
      Returned(m2, trap, k.mem[trap], {});
      ExchangeJoin(first, {}, m1, {trap}, m2, {trap});
      ExchangeJoin(first, {}, m2, {trap}, k.mem, {});
    } else {
      Beside(m1, m2, Own(m2, c), trap);
      ExchangeJoin(first, {}, m1, {trap}, m2, Own(m2, c) + {trap});
    }
  }

  /** The memory side of freeproc. */
  method Freeproc(k: Kmem, trap: nat, pt: nat, sz: nat, ghost c: Space)
    requires k.Valid() && Ok(k.mem, c) && c.root == pt && c.np == PageUp(sz)
    requires trap in k.mem && k.mem[trap].Data? && trap !in Own(k.mem, c)
    modifies k
    ensures k.Valid() && Exchange(old(k.mem), old(Own(k.mem, c)) + {trap}, k.mem, {})
  {
    hide Ok, Own, Exchange, Leaf, Keeps;
    ghost var m1 := k.mem;
    OkPages(m1, c);
    k.Kfree(trap);
    ghost var m2 := k.mem;
    Returned(m1, trap, m2[trap], Own(m1, c));
    Bystander(m1, m2, c);
    ProcFreepagetable(k, pt, sz, c);
    ExchangeJoin(m1, Own(m1, c) + {trap}, m2, Own(m1, c), k.mem, {});
  }

  lemma NewAside(m: Mem, s: Space, m': Mem, own: set<nat>, c: Space)
    requires Ok(m, s) && Exchange(m, {}, m', own) && Own(m', c) <= own
    ensures Ok(m', s) && Aside(m', s, c)
  {
    OkPages(m, s);
    assert forall q :: q in Own(m, s) ==> q in m' && m'[q] == m[q] by { hide Own, Tree, Leaf; }
    Bystander(m, m', s);
    hide Own, Tree, Leaf;
  }

  lemma Idle(m: Mem, s: Space, m': Mem)
    requires Ok(m, s) && Exchange(m, {}, m', {})
    ensures Becomes(m, s, m', s) && Ok(m', s)
  {
    OkPages(m, s);
    assert forall q :: q in Own(m, s) ==> q in m' && m'[q] == m[q] by { hide Own, Tree, Leaf; }
    Bystander(m, m', s);
    hide Own, Tree, Leaf;
  }

  lemma BecomesOwn(m: Mem, c: Space, m': Mem, c': Space, trap: nat)
    requires Ok(m, c) && Becomes(m, c, m', c') && trap !in Own(m, c) && trap in m && m[trap].Data?
    ensures Exchange(m, Own(m, c) + {trap}, m', Own(m', c') + {trap}) && trap !in Own(m', c') && m'[trap] == m[trap]
  {
    hide Ok, Own;
    ExchangeBeside(m, Own(m, c), m', Own(m', c'), {trap});
  }
}
