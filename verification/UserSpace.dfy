/**
  User address spaces: what the tree of a process maps, and how much of the
  128 MB it can map.
 */
module UserSpace {

  import opened Common
  import opened Riscv
  import opened PageTable
  import opened Kalloc
  import opened Vm

  /** A user tree: `np` pages from address 0, the trapframe page and the trampoline. */
  datatype Space = Space(root: nat, n: Nodes, np: nat, trap: nat, tramp: nat)

  /** The entry of a page at or above the user pages. */
  function Above(trap: nat, tramp: nat, v: nat): nat {
    if v == TRAPFRAME then Entry(trap, PTE_R + PTE_W) else if v == TRAMPOLINE then Entry(tramp, PTE_R + PTE_X) else 0
  }

  /** The leaf mappings are exactly the user pages, the trapframe and the
      trampoline, and the user pages are data pages of their own. */
  ghost predicate Ok(m: Mem, s: Space) {
    && Tree(m, s.root, s.n) && s.np <= TRAPFRAME
    && AllMapped(m, s.n, 0, s.np) && OwnData(m, s.n, 0, s.np)
    && (forall v: nat :: v >= s.np ==> Leaf(m, s.n, v) == Above(s.trap, s.tramp, v))
  }

  /** The pages that are the space's own: its tables and its user pages. */
  ghost function Own(m: Mem, s: Space): set<nat> {
    Pages(s.n) + DataOf(m, s.n, 0, s.np)
  }

  /** The first `c` user pages have the same entries and the same bytes. */
  ghost predicate Keeps(m: Mem, s: Space, m': Mem, s': Space, c: nat) {
    forall v: nat :: v < c ==>
      && Leaf(m', s'.n, v) == Leaf(m, s.n, v)
      && Page(Leaf(m, s.n, v)) in m && Page(Leaf(m, s.n, v)) in m'
      && m'[Page(Leaf(m, s.n, v))] == m[Page(Leaf(m, s.n, v))]
  }

  lemma KeepsJoin(a: Mem, x: Space, b: Mem, y: Space, c: Mem, z: Space, i: nat, j: nat)
    requires Keeps(a, x, b, y, i) && Keeps(b, y, c, z, j) && i <= j
    ensures Keeps(a, x, c, z, i)
  {
    hide Leaf;
  }

  lemma OkPages(m: Mem, s: Space)
    requires Ok(m, s)
    ensures forall p :: p in Own(m, s) ==> p in m && !m[p].Free?
    ensures DataOf(m, s.n, 0, s.np) !! Pages(s.n)
    ensures Tree(m, s.root, s.n) && s.np <= TRAPFRAME
  {
    TreePages(m, s.root, s.n);
  }

  // ---- the bound that RAM puts on a space

  ghost function RamUpTo(first: nat, x: nat): set<nat> {
    set p: nat | first <= p < x && InRam(first, p)
  }

  lemma {:induction false} RamCount(first: nat, x: nat)
    requires first <= x <= PHYSTOP
    ensures |RamUpTo(first, x)| == x - first
  {
    if x == first {
      assert RamUpTo(first, x) == {};
    } else {
      RamCount(first, x - 1);
      assert InRam(first, x - 1);
      assert RamUpTo(first, x) == RamUpTo(first, x - 1) + {x - 1};
    }
  }

  lemma {:induction false} DataCount(m: Mem, n: Nodes, c: nat)
    requires OwnData(m, n, 0, c)
    ensures |DataOf(m, n, 0, c)| == c
  {
    if c == 0 {
      assert DataOf(m, n, 0, 0) == {};
    } else {
      DataCount(m, n, c - 1);
      DataNext(m, n, 0, c - 1);
      hide Leaf;
      assert Page(Leaf(m, n, c - 1)) !in DataOf(m, n, 0, c - 1);
    }
  }

  /** Each user page has a page of RAM to itself, so a space never comes near
      the trapframe, and there is room for one more wherever a page is free. */
  lemma RoomBelow(m: Mem, first: nat, s: Space)
    requires Ok(m, s) && AllOf(m, first) && KERNBASE < first <= PHYSTOP
    ensures s.np < PHYSTOP - KERNBASE < TRAPFRAME
  {
    DataCount(m, s.n, s.np);
    RamCount(first, PHYSTOP);
    forall p | p in DataOf(m, s.n, 0, s.np)
      ensures p in RamUpTo(first, PHYSTOP)
    {
      assert p in m && InRam(first, p);
    }
    Fewer(DataOf(m, s.n, 0, s.np), RamUpTo(first, PHYSTOP));
  }

  // ---- one page more

  /** Page `p` was free, was filled, and page `s.np` now maps to it. */
  ghost predicate Added(m: Mem, s: Space, p: nat, b: Bytes, m': Mem, n': Nodes, perm: nat) {
    && p in m && m[p].Free? && perm < 1024 && perm / 2 != 0 && Tree(m[p := Data(b)], s.root, s.n)
    && Moves(m[p := Data(b)], s.root, s.n, m', n') && Maps1(m[p := Data(b)], s.n, m', n', s.np, Entry(p, perm))
  }

  lemma AddedLeaves(m: Mem, s: Space, p: nat, b: Bytes, m': Mem, n': Nodes, perm: nat)
    requires Tree(m, s.root, s.n) && Added(m, s, p, b, m', n', perm)
    ensures Maps1(m, s.n, m', n', s.np, Entry(p, perm))
  {
    OffTree(m, s.root, s.n, p, Data(b));
    hide Leaf, Tree, Moves;
  }

  lemma AddedFrames(m: Mem, s: Space, p: nat, b: Bytes, m': Mem, n': Nodes, perm: nat)
    requires Tree(m, s.root, s.n) && Added(m, s, p, b, m', n', perm)
    ensures Tree(m', s.root, n') && m'.Keys == m.Keys && m'[p] == Data(b)
    ensures forall q :: q in m && m[q].Data? ==> m'[q] == m[q]
    ensures Exchange(m, Pages(s.n), m', Pages(n') + {p})
  {
    hide Leaf, Tree, Maps1, Pages, Entry;
    OffTree(m, s.root, s.n, p, Data(b));
    TreePages(m, s.root, s.n);
    TreePages(m', s.root, n');
  }

  lemma LeafFlags(p: nat, perm: nat)
    requires perm < 1024 && perm / 2 != 0
    ensures Flags(Entry(p, perm)) != 1
  {
  }

  lemma GrownOk(m: Mem, s: Space, p: nat, b: Bytes, m': Mem, n': Nodes, perm: nat)
    requires Ok(m, s) && s.np < TRAPFRAME && Added(m, s, p, b, m', n', perm)
    ensures Ok(m', s.(n := n', np := s.np + 1))
    ensures Keeps(m, s, m', s.(n := n', np := s.np + 1), s.np)
    ensures DataOf(m', n', 0, s.np + 1) == DataOf(m, s.n, 0, s.np) + {p}
  {
    LeafFlags(p, perm);
    hide Leaf, Tree, Pages, Page, Flags, Valid, Entry, IsLeaf;
    AddedLeaves(m, s, p, b, m', n', perm);
    AddedFrames(m, s, p, b, m', n', perm);
    hide Added;
    DataNext(m', n', 0, s.np);
    assert DataOf(m', n', 0, s.np) == DataOf(m, s.n, 0, s.np);
  }

  lemma GrownOwn(m: Mem, s: Space, p: nat, b: Bytes, m': Mem, n': Nodes, perm: nat)
    requires Ok(m, s) && s.np < TRAPFRAME && Added(m, s, p, b, m', n', perm)
    ensures Exchange(m, Own(m, s), m', Own(m', s.(n := n', np := s.np + 1)))
  {
    GrownOk(m, s, p, b, m', n', perm);
    AddedFrames(m, s, p, b, m', n', perm);
    OkPages(m, s);
    hide Ok, Keeps, DataOf, Pages, Added;
    ExchangeBeside(m, Pages(s.n), m', Pages(n') + {p}, DataOf(m, s.n, 0, s.np));
    assert Pages(n') + {p} + DataOf(m, s.n, 0, s.np) == Own(m', s.(n := n', np := s.np + 1));
  }

  // ---- pages fewer

  /** The pages from `c` up were unmapped and given back. */
  ghost predicate Removed(m: Mem, s: Space, c: nat, m': Mem) {
    && c <= s.np && Tree(m', s.root, s.n) && Cleared(m, m', s.n, c, s.np - c)
    && Exchange(m, Pages(s.n) + DataOf(m, s.n, c, s.np - c), m', Pages(s.n))
  }

  lemma DataSplit(m: Mem, n: Nodes, c: nat, np: nat)
    requires c <= np
    ensures DataOf(m, n, 0, np) == DataOf(m, n, 0, c) + DataOf(m, n, c, np - c)
  {
    hide Leaf;
    forall p | p in DataOf(m, n, 0, np)
      ensures p in DataOf(m, n, 0, c) + DataOf(m, n, c, np - c)
    {
      var v: nat :| v < np && p == Page(Leaf(m, n, v));
      if v < c {
        assert p in DataOf(m, n, 0, c);
      }
    }
  }

  lemma ShrunkOk(m: Mem, s: Space, c: nat, m': Mem)
    requires Ok(m, s) && Removed(m, s, c, m')
    ensures Ok(m', s.(np := c)) && Keeps(m, s, m', s.(np := c), c)
    ensures DataOf(m', s.n, 0, c) == DataOf(m, s.n, 0, c)
  {
    OkPages(m, s);
    DataSplit(m, s.n, c, s.np);
    hide Leaf, Tree, Pages, Page, Flags, Valid, Entry;
    assert DataOf(m', s.n, 0, c) == DataOf(m, s.n, 0, c);
  }

  lemma ShrunkOwn(m: Mem, s: Space, c: nat, m': Mem)
    requires Ok(m, s) && Removed(m, s, c, m')
    ensures Exchange(m, Own(m, s), m', Own(m', s.(np := c)))
  {
    ShrunkOk(m, s, c, m');
    OkPages(m, s);
    DataSplit(m, s.n, c, s.np);
    var low, high := DataOf(m, s.n, 0, c), DataOf(m, s.n, c, s.np - c);
    assert low !! high by {
      hide Leaf;
    }
    hide Ok, Keeps, DataOf, Pages;
    ExchangeBeside(m, Pages(s.n) + high, m', Pages(s.n), low);
    assert Pages(s.n) + high + low == Own(m, s);
  }
}
