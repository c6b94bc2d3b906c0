/**
  Page-table operations of kernel/vm.c: walk, mappages and uvmunmap, on the tree
  at `root` whose tables are `n`.
 */
module Vm {

  import opened Riscv
  import opened PageTable
  import opened Kalloc

  ghost predicate Within(n: Nodes, n': Nodes) {
    forall id :: id in n ==> id in n' && n'[id] == n[id]
  }

  ghost predicate SameLeaves(m: Mem, n: Nodes, m': Mem, n': Nodes) {
    forall v: nat :: Leaf(m', n', v) == Leaf(m, n, v)
  }

  /** Tables may have been added to the tree, and no page outside it changed. */
  ghost predicate Moves(m: Mem, root: nat, n: Nodes, m': Mem, n': Nodes) {
    Tree(m', root, n') && Within(n, n') && Exchange(m, Pages(n), m', Pages(n'))
  }

  /** And no translation changed. */
  ghost predicate Extends(m: Mem, root: nat, n: Nodes, m': Mem, n': Nodes) {
    Moves(m, root, n, m', n') && SameLeaves(m, n, m', n')
  }

  lemma Unchanged(m: Mem, root: nat, n: Nodes)
    requires Tree(m, root, n)
    ensures Extends(m, root, n, m, n)
  {
  }

  lemma ExtendsJoin(a: Mem, x: Nodes, b: Mem, y: Nodes, c: Mem, z: Nodes, root: nat)
    requires Extends(a, root, x, b, y) && Extends(b, root, y, c, z)
    ensures Extends(a, root, x, c, z)
  {
    hide Tree, Leaf;
  }

  lemma AtRoot(m: Mem, root: nat, n: Nodes)
    requires Tree(m, root, n)
    ensures Root in n && n[Root] == root && root in m
  {
  }

  lemma AtEntry(m: Mem, root: nat, n: Nodes, id: Id, i: nat)
    requires Tree(m, root, n) && id in n && !id.Low? && i < 512
    ensures IsTable(m, n, id) && EntryOk(m, n, id, i) && (Child(id, i) in n ==> n[Child(id, i)] in m)
  {
    assert EntryOk(m, n, id, i);
  }

  lemma PagesAdd(n: Nodes, c: Id, p: nat)
    requires c !in n
    ensures Pages(n[c := p]) == Pages(n) + {p}
  {
    var n' := n[c := p];
    assert c in n' && n'[c] == p;
    forall q | q in Pages(n)
      ensures q in Pages(n')
    {
      var id :| id in n && n[id] == q;
      assert id in n' && n'[id] == q;
    }
  }

  lemma GrownExtends(m: Mem, root: nat, n: Nodes, id: Id, i: nat, p: nat)
    requires Tree(m, root, n) && id in n && !id.Low? && i < 512 && Child(id, i) !in n && p in m && m[p].Free?
    ensures Extends(m, root, n, Grown(m, n, id, i, p), n[Child(id, i) := p])
    ensures Tree(Grown(m, n, id, i, p), root, n[Child(id, i) := p])
  {
    TreeGrown(m, root, n, id, i, p);
    LeavesGrown(m, root, n, id, i, p);
    PagesAdd(n, Child(id, i), p);
    assert n[id] in Pages(n);
    var m', n' := Grown(m, n, id, i, p), n[Child(id, i) := p];
    forall q | q in Pages(n')
      ensures q in m' && !m'[q].Free?
    {
      var a :| a in n' && n'[a] == q;
      assert IsTable(m', n', a);
    }
    hide Tree, Leaf;
  }

  /** One turn of walk: from the table of level `level` to the next below. */
  method Down(k: Kmem, root: nat, t: nat, level: nat, v: nat, alloc: bool, ghost n: Nodes) returns (c: nat, ghost n': Nodes)
    requires k.Valid() && Tree(k.mem, root, n) && v < MAXPAGES && 0 < level < 3
    requires IdAt(level, v) in n && t == n[IdAt(level, v)]
    modifies k
    ensures k.Valid() && Tree(k.mem, root, n') && Extends(old(k.mem), root, n, k.mem, n')
    ensures if c != 0 then IdAt(level - 1, v) in n' && c == n'[IdAt(level - 1, v)] else IdAt(level - 1, v) !in n'
    ensures !alloc || IdAt(level - 1, v) in n ==> k.mem == old(k.mem) && n' == n && k.list == old(k.list)
    ensures |old(k.list)| <= |k.list| + 1 && (alloc && c == 0 ==> old(k.list) == k.list == [])
  {
    hide Tree, Extends;
    ghost var id, child := IdAt(level, v), IdAt(level - 1, v);
    IdDown(level, v);
    Unchanged(k.mem, root, n);
    n' := n;
    var i := Px(level, v);
    AtEntry(k.mem, root, n, id, i);
    var e := k.mem[t].ptes[i];
    if Valid(e) {
      c := Page(e);
    } else if !alloc {
      c := 0;
    } else {
      c := k.Kalloc();
      if c != 0 {
        GrownExtends(old(k.mem), root, n, id, i, c);
        k.Store(c, Table(NoEntries()));
        k.Store(t, Table(k.mem[t].ptes[i := Entry(c, 0)]));
        n' := n[child := c];
        assert k.mem == Grown(old(k.mem), n, id, i, c);
      }
    }
  }

  /** walk: the table page holding the last-level entry of `va`, or null. */
  method Walk(k: Kmem, root: nat, va: nat, alloc: bool, ghost n: Nodes) returns (t: nat, ghost n': Nodes)
    requires k.Valid() && Tree(k.mem, root, n) && va < MAXVA
    modifies k
    ensures k.Valid() && Tree(k.mem, root, n') && Extends(old(k.mem), root, n, k.mem, n')
    ensures if t != 0 then Low(va / PGSIZE / 512) in n' && t == n'[Low(va / PGSIZE / 512)] else Low(va / PGSIZE / 512) !in n'
    ensures !alloc || Low(va / PGSIZE / 512) in n ==> k.mem == old(k.mem) && n' == n && k.list == old(k.list)
    ensures |old(k.list)| <= |k.list| + 2 && (alloc && t == 0 ==> k.list == [] && |old(k.list)| <= 1)
  {
    hide Tree, Extends;
    t, n' := root, n;
    var v, level := va / PGSIZE, 2;
    AtRoot(k.mem, root, n);
    Unchanged(k.mem, root, n);
    while level > 0
      invariant level <= 2 && k.Valid() && Extends(old(k.mem), root, n, k.mem, n') && Tree(k.mem, root, n')
      invariant t != 0 && IdAt(level, v) in n' && t == n'[IdAt(level, v)]
      invariant !alloc || Low(v / 512) in n ==> k.mem == old(k.mem) && n' == n && k.list == old(k.list)
      invariant |old(k.list)| <= |k.list| + 2 - level
    {
      ghost var before, had := k.mem, n';
      if IdAt(level - 1, v) !in n' {
        NoneBelow(k.mem, root, n', level - 1, v);
      }
      t, n' := Down(k, root, t, level, v, alloc, n');
      ExtendsJoin(old(k.mem), n, before, had, k.mem, n', root);
      if t == 0 {
        NoneBelow(k.mem, root, n', level - 1, v);
        return;
      }
      level := level - 1;
    }
  }

  // ---- mappages

  lemma MovesJoin(a: Mem, x: Nodes, b: Mem, y: Nodes, c: Mem, z: Nodes, root: nat)
    requires Moves(a, root, x, b, y) && Moves(b, root, y, c, z)
    ensures Moves(a, root, x, c, z)
  {
    hide Tree, Leaf;
  }

  /** Pages [lo, lo + count) map to consecutive physical pages from `ppn`; the rest is as before. */
  ghost predicate Maps(m: Mem, n: Nodes, m': Mem, n': Nodes, lo: nat, count: nat, ppn: nat, perm: nat)
    requires perm < 1024
  {
    forall v: nat :: Leaf(m', n', v) == if lo <= v < lo + count then Entry(ppn + (v - lo), perm) else Leaf(m, n, v)
  }

  lemma SetMoves(m: Mem, root: nat, n: Nodes, v: nat, e: nat)
    requires Tree(m, root, n) && Low(v / 512) in n
    ensures Moves(m, root, n, SetEntry(m, n[Low(v / 512)], v % 512, e), n)
  {
    LeafSet(m, root, n, v, e);
    assert n[Low(v / 512)] in Pages(n);
  }

  lemma AtLow(m: Mem, root: nat, n: Nodes, v: nat)
    requires Tree(m, root, n) && Low(v / 512) in n
    ensures IsTable(m, n, Low(v / 512)) && Leaf(m, n, v) == m[n[Low(v / 512)]].ptes[v % 512]
  {
  }

  /** Page `v` has entry `e` and the rest is as before. */
  ghost predicate Maps1(m: Mem, n: Nodes, m': Mem, n': Nodes, v: nat, e: nat) {
    Leaf(m', n', v) == e && forall w: nat :: w != v ==> Leaf(m', n', w) == Leaf(m, n, w)
  }

  lemma SameMaps1(a: Mem, x: Nodes, b: Mem, y: Nodes, c: Mem, v: nat, e: nat)
    requires SameLeaves(a, x, b, y) && Maps1(b, y, c, y, v, e)
    ensures Maps1(a, x, c, y, v, e)
  {
    hide Leaf;
  }

  /** One turn of mappages. */
  method MapOne(k: Kmem, root: nat, a: nat, e: nat, ghost n: Nodes) returns (ok: bool, ghost n': Nodes)
    requires k.Valid() && Tree(k.mem, root, n) && a < MAXVA
    requires !Valid(Leaf(k.mem, n, a / PGSIZE))
    modifies k
    ensures k.Valid() && Tree(k.mem, root, n') && Moves(old(k.mem), root, n, k.mem, n')
    ensures ok ==> Maps1(old(k.mem), n, k.mem, n', a / PGSIZE, e)
    ensures !ok ==> SameLeaves(old(k.mem), n, k.mem, n') && k.list == [] && |old(k.list)| <= 1
    ensures |old(k.list)| <= |k.list| + 2
    ensures Low(a / PGSIZE / 512) in n ==> ok && n' == n && k.list == old(k.list)
  {
    hide Tree, Leaf, Moves, Maps1;
    var t;
    t, n' := Walk(k, root, a, true, n);
    ok := t != 0;
    if ok {
      ghost var v, walked := a / PGSIZE, k.mem;
      AtLow(walked, root, n', v);
      assert !Valid(walked[t].ptes[v % 512]);
      k.Store(t, Table(k.mem[t].ptes[a / PGSIZE % 512 := e]));
      LeafSets(walked, root, n', v, e);
      SetMoves(walked, root, n', v, e);
      SameMaps1(old(k.mem), n, walked, n', k.mem, v, e);
      MovesJoin(old(k.mem), n, walked, n', k.mem, n', root);
    }
  }

  lemma LeafSets(m: Mem, root: nat, n: Nodes, v: nat, e: nat)
    requires Tree(m, root, n) && Low(v / 512) in n
    ensures Maps1(m, n, SetEntry(m, n[Low(v / 512)], v % 512, e), n, v, e)
    ensures Tree(SetEntry(m, n[Low(v / 512)], v % 512, e), root, n)
  {
    LeafSet(m, root, n, v, e);
    hide Leaf;
  }

  lemma MapsNext(a: Mem, x: Nodes, b: Mem, y: Nodes, c: Mem, z: Nodes, lo: nat, count: nat, ppn: nat, perm: nat)
    requires perm < 1024 && Maps(a, x, b, y, lo, count, ppn, perm)
    requires Maps1(b, y, c, z, lo + count, Entry(ppn + count, perm))
    ensures Maps(a, x, c, z, lo, count + 1, ppn, perm)
  {
    hide Leaf;
  }

  lemma MapsSame(a: Mem, x: Nodes, b: Mem, y: Nodes, c: Mem, z: Nodes, lo: nat, count: nat, ppn: nat, perm: nat)
    requires perm < 1024 && Maps(a, x, b, y, lo, count, ppn, perm) && SameLeaves(b, y, c, z)
    ensures Maps(a, x, c, z, lo, count, ppn, perm)
  {
    hide Leaf;
  }

  lemma MapsNone(m: Mem, root: nat, n: Nodes, lo: nat, ppn: nat, perm: nat)
    requires Tree(m, root, n) && perm < 1024
    ensures Maps(m, n, m, n, lo, 0, ppn, perm) && Moves(m, root, n, m, n)
  {
  }

  /** mappages: on success the whole range is mapped, on failure (no page left
      for a table) the first `done` pages of it; nothing else is. */
  method Mappages(k: Kmem, root: nat, va: nat, size: nat, pa: nat, perm: nat, ghost n: Nodes)
      returns (ok: bool, ghost n': Nodes, ghost done: nat)
    requires k.Valid() && Tree(k.mem, root, n) && perm < 1024
    requires 0 < size && va + size <= MAXVA
    requires forall v: nat :: va / PGSIZE <= v <= (va + size - 1) / PGSIZE ==> !Valid(Leaf(k.mem, n, v))
    modifies k
    ensures k.Valid() && Tree(k.mem, root, n') && Moves(old(k.mem), root, n, k.mem, n')
    ensures Maps(old(k.mem), n, k.mem, n', va / PGSIZE, done, pa / PGSIZE, perm)
    ensures ok ==> done == (va + size - 1) / PGSIZE - va / PGSIZE + 1
    ensures !ok ==> done <= (va + size - 1) / PGSIZE - va / PGSIZE && k.list == [] && |old(k.list)| <= 2 * done + 1
    ensures ok ==> |old(k.list)| <= |k.list| + 2 * done
    ensures va / PGSIZE == (va + size - 1) / PGSIZE && Low(va / PGSIZE / 512) in n ==> ok && n' == n && k.list == old(k.list)
  {
    hide Tree, Leaf, Moves, Entry;
    ghost var lo, first := va / PGSIZE, k.mem;
    var a, last, p := va / PGSIZE * PGSIZE, (va + size - 1) / PGSIZE * PGSIZE, pa;
    n', done := n, 0;
    MapsNone(k.mem, root, n, lo, pa / PGSIZE, perm);
    while true
      invariant k.Valid() && Tree(k.mem, root, n') && Moves(first, root, n, k.mem, n')
      invariant Maps(first, n, k.mem, n', lo, done, pa / PGSIZE, perm)
      invariant a == (lo + done) * PGSIZE <= last && p == pa + done * PGSIZE
      invariant |old(k.list)| <= |k.list| + 2 * done && (done == 0 ==> n' == n && k.list == old(k.list))
      decreases last - a
    {
      ghost var before, had := k.mem, n';
      assert a / PGSIZE == lo + done && p / PGSIZE == pa / PGSIZE + done;
      assert Leaf(k.mem, n', lo + done) == Leaf(first, n, lo + done);
      ok, n' := MapOne(k, root, a, Entry(p / PGSIZE, perm), n');
      MovesJoin(first, n, before, had, k.mem, n', root);
      if !ok {
        MapsSame(first, n, before, had, k.mem, n', lo, done, pa / PGSIZE, perm);
        return;
      }
      MapsNext(first, n, before, had, k.mem, n', lo, done, pa / PGSIZE, perm);
      done := done + 1;
      if a == last {
        return;
      }
      a, p := a + PGSIZE, p + PGSIZE;
    }
  }

  // ---- uvmunmap

  /** The physical pages that `count` pages from `lo` map to. */
  ghost function DataOf(m: Mem, n: Nodes, lo: nat, count: nat): set<nat> {
    set v: nat | lo <= v < lo + count :: Page(Leaf(m, n, v))
  }

  /** Pages [lo, lo + count) have no entry; the rest is as before. */
  ghost predicate Cleared(m: Mem, m': Mem, n: Nodes, lo: nat, count: nat) {
    forall v: nat :: Leaf(m', n, v) == if lo <= v < lo + count then 0 else Leaf(m, n, v)
  }

  /** Every page of the range is mapped, by an entry that is not a pointer to a table. */
  ghost predicate AllMapped(m: Mem, n: Nodes, lo: nat, count: nat) {
    forall v: nat :: lo <= v < lo + count ==> Valid(Leaf(m, n, v)) && Flags(Leaf(m, n, v)) != 1
  }

  /** The range maps to data pages, all different. */
  ghost predicate OwnData(m: Mem, n: Nodes, lo: nat, count: nat) {
    && (forall v: nat :: lo <= v < lo + count ==> Page(Leaf(m, n, v)) in m && m[Page(Leaf(m, n, v))].Data?)
    && (forall v: nat, w: nat :: lo <= v < w < lo + count ==> Page(Leaf(m, n, v)) != Page(Leaf(m, n, w)))
  }

  /** A page that is no table can change without the tree noticing. */
  lemma OffTree(m: Mem, root: nat, n: Nodes, p: nat, f: Frame)
    requires Tree(m, root, n) && p in m && !m[p].Table?
    ensures Tree(m[p := f], root, n) && SameLeaves(m, n, m[p := f], n) && p !in Pages(n)
  {
    forall q | q in Pages(n)
      ensures q != p
    {
      var id :| id in n && n[id] == q;
      assert IsTable(m, n, id);
    }
    TreeFrame(m, m[p := f], root, n);
  }

  lemma TreePages(m: Mem, root: nat, n: Nodes)
    requires Tree(m, root, n)
    ensures forall p :: p in Pages(n) ==> p in m && m[p].Table?
  {
    forall p | p in Pages(n)
      ensures p in m && m[p].Table?
    {
      var id :| id in n && n[id] == p;
      assert IsTable(m, n, id);
    }
  }

  /** One turn of uvmunmap. */
  method UnmapOne(k: Kmem, root: nat, a: nat, free: bool, ghost n: Nodes)
    requires k.Valid() && Tree(k.mem, root, n) && a < MAXVA
    requires Valid(Leaf(k.mem, n, a / PGSIZE)) && Flags(Leaf(k.mem, n, a / PGSIZE)) != 1
    requires free ==> Page(Leaf(k.mem, n, a / PGSIZE)) in k.mem && k.mem[Page(Leaf(k.mem, n, a / PGSIZE))].Data?
    modifies k
    ensures k.Valid() && Tree(k.mem, root, n) && Maps1(old(k.mem), n, k.mem, n, a / PGSIZE, 0)
    ensures Exchange(old(k.mem), Pages(n) + (if free then {Page(old(Leaf(k.mem, n, a / PGSIZE)))} else {}), k.mem, Pages(n))
    ensures |k.list| == |old(k.list)| + if free then 1 else 0
  {
    hide Tree, Leaf, Moves, Maps1, Pages;
    ghost var v, first := a / PGSIZE, k.mem;
    assert Low(v / 512) in n by {
      NoLeaf(k.mem, n, v);
    }
    var t, _ := Walk(k, root, a, false, n);
    AtLow(first, root, n, v);
    TreePages(first, root, n);
    var e := k.mem[t].ptes[a / PGSIZE % 512];
    if free {
      OffTree(first, root, n, Page(e), Free(k.head));
      k.Kfree(Page(e));
      OffTree(first, root, n, Page(e), k.mem[Page(e)]);
    }
    ghost var freed := k.mem;
    AtLow(freed, root, n, v);
    k.Store(t, Table(k.mem[t].ptes[a / PGSIZE % 512 := 0]));
    LeafSets(freed, root, n, v, 0);
    SameMaps1(first, n, freed, n, k.mem, v, 0);
    SlotPage(n, v);
    TreePages(k.mem, root, n);
  }

  lemma NoLeaf(m: Mem, n: Nodes, v: nat)
    ensures Low(v / 512) !in n ==> Leaf(m, n, v) == 0
  {
  }

  lemma SlotPage(n: Nodes, v: nat)
    requires Low(v / 512) in n
    ensures n[Low(v / 512)] in Pages(n)
  {
  }

  lemma DataNext(m: Mem, n: Nodes, lo: nat, i: nat)
    ensures DataOf(m, n, lo, i + 1) == DataOf(m, n, lo, i) + {Page(Leaf(m, n, lo + i))}
  {
  }

  lemma ClearedNext(a: Mem, b: Mem, c: Mem, n: Nodes, lo: nat, i: nat)
    requires Cleared(a, b, n, lo, i) && Maps1(b, n, c, n, lo + i, 0)
    ensures Cleared(a, c, n, lo, i + 1)
  {
    hide Leaf;
  }

  /** The page about to be freed is still as it was at the start. */
  lemma StillData(m: Mem, m': Mem, root: nat, n: Nodes, lo: nat, i: nat, count: nat)
    requires Tree(m, root, n) && i < count && OwnData(m, n, lo, count)
    requires Exchange(m, Pages(n) + DataOf(m, n, lo, i), m', Pages(n))
    ensures var p := Page(Leaf(m, n, lo + i)); p in m' && m'[p] == m[p] && p !in Pages(n) + DataOf(m, n, lo, i)
  {
    TreePages(m, root, n);
    hide Tree, Leaf, Pages;
  }

  /** Pages given up one after the other are given up. */
  lemma GiveMore(a: Mem, b: Mem, c: Mem, own: set<nat>, d: set<nat>, e: set<nat>)
    requires Exchange(a, own + d, b, own) && Exchange(b, own + e, c, own)
    requires forall p :: p in e ==> p in a && p in b && b[p] == a[p] && p !in own + d
    ensures Exchange(a, own + (d + e), c, own)
  {
  }

  /** uvmunmap: removes exactly its range, and frees exactly the pages it mapped to. */
  method Uvmunmap(k: Kmem, root: nat, va: nat, npages: nat, free: bool, ghost n: Nodes)
    requires k.Valid() && Tree(k.mem, root, n) && va % PGSIZE == 0 && va + npages * PGSIZE <= MAXVA
    requires AllMapped(k.mem, n, va / PGSIZE, npages) && (free ==> OwnData(k.mem, n, va / PGSIZE, npages))
    modifies k
    ensures k.Valid() && Tree(k.mem, root, n) && Cleared(old(k.mem), k.mem, n, va / PGSIZE, npages)
    ensures Exchange(old(k.mem), Pages(n) + (if free then old(DataOf(k.mem, n, va / PGSIZE, npages)) else {}), k.mem, Pages(n))
    ensures |k.list| == |old(k.list)| + if free then npages else 0
  {
    hide Tree, Leaf, Pages, DataOf, Exchange;
    ghost var lo, i, first := va / PGSIZE, 0, k.mem;
    ghost var given: set<nat> := {};
    NoneGiven(k.mem, root, n, lo);
    var a := va;
    while a < va + npages * PGSIZE
      invariant a == va + i * PGSIZE && i <= npages && k.Valid() && Tree(k.mem, root, n)
      invariant Cleared(first, k.mem, n, lo, i)
      invariant given == (if free then DataOf(first, n, lo, i) else {})
      invariant |k.list| == |old(k.list)| + if free then i else 0
      invariant Exchange(first, Pages(n) + given, k.mem, Pages(n))
    {
      ghost var before, p := k.mem, Page(Leaf(first, n, lo + i));
      assert a / PGSIZE == lo + i;
      assert Leaf(before, n, lo + i) == Leaf(first, n, lo + i);
      if free {
        StillData(first, before, root, n, lo, i, npages);
      }
      UnmapOne(k, root, a, free, n);
      GiveMore(first, before, k.mem, Pages(n), given, if free then {p} else {});
      ClearedNext(first, before, k.mem, n, lo, i);
      DataNext(first, n, lo, i);
      given := given + if free then {p} else {};
      a, i := a + PGSIZE, i + 1;
    }
  }

  lemma NoneGiven(m: Mem, root: nat, n: Nodes, lo: nat)
    requires Tree(m, root, n)
    ensures Exchange(m, Pages(n) + {}, m, Pages(n)) && DataOf(m, n, lo, 0) == {}
  {
    TreePages(m, root, n);
  }
}
