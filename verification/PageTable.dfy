/**
  Physical pages and the three-level page tables built in them, as values.
 */
module PageTable {

  import opened Common
  import opened Riscv

  function Filled(x: byte): (b: seq<byte>)
    ensures |b| == PGSIZE && forall k :: 0 <= k < PGSIZE ==> b[k] == x
  {
    seq(PGSIZE, _ => x)
  }

  function NoEntries(): (t: seq<nat>)
    ensures |t| == 512 && forall i :: 0 <= i < 512 ==> t[i] == 0
  {
    seq(512, _ => 0)
  }

  type Bytes = b: seq<byte> | |b| == PGSIZE witness Filled(0)
  type Entries = t: seq<nat> | |t| == 512 witness NoEntries()

  /** What a physical page is used for: a link of the free list, a page-table
      page, or plain bytes. */
  datatype Frame = Free(next: nat) | Table(ptes: Entries) | Data(bytes: Bytes)

  type Mem = map<nat, Frame>

  // ---- trees

  /** The tables of a tree, by what they translate: `Mid(i)` the i-th gigabyte,
      `Low(j)` the j-th two megabytes. */
  datatype Id = Root | Mid(i: nat) | Low(j: nat)

  /** The page each table of a tree lives in. */
  type Nodes = map<Id, nat>

  function Child(id: Id, k: nat): Id
    requires !id.Low? && k < 512
  {
    if id.Root? then Mid(k) else Low(id.i * 512 + k)
  }

  function Parent(id: Id): Id
    requires !id.Root?
  {
    if id.Mid? then Root else Mid(id.j / 512)
  }

  function Slot(id: Id): nat
    requires !id.Root?
  {
    if id.Mid? then id.i else id.j % 512
  }

  predicate Bounded(id: Id) {
    match id
    case Root => true
    case Mid(i) => i < 512
    case Low(j) => j < 512 * 512
  }

  lemma ChildParent(id: Id, k: nat)
    requires !id.Low? && Bounded(id) && k < 512
    ensures var c := Child(id, k); Bounded(c) && !c.Root? && Parent(c) == id && Slot(c) == k
  {
  }

  /** The pages of a tree. */
  ghost function Pages(n: Nodes): set<nat> {
    set id | id in n :: n[id]
  }

  predicate IsTable(m: Mem, n: Nodes, id: Id) {
    id in n && n[id] in m && m[n[id]].Table?
  }

  /** An entry above the last level points to the child table, or is zero. */
  predicate EntryOk(m: Mem, n: Nodes, id: Id, k: nat)
    requires IsTable(m, n, id) && !id.Low? && k < 512
  {
    m[n[id]].ptes[k] == if Child(id, k) in n then Entry(n[Child(id, k)], 0) else 0
  }

  ghost predicate Nodal(m: Mem, n: Nodes) {
    && (forall id :: id in n ==> IsTable(m, n, id) && Bounded(id) && (id.Root? || Parent(id) in n))
    && (forall a, b :: a in n && b in n && n[a] == n[b] ==> a == b)
  }

  /** A well-formed tree at page `root`. */
  ghost predicate Tree(m: Mem, root: nat, n: Nodes) {
    && Root in n && n[Root] == root
    && Nodal(m, n)
    && (forall id: Id, k: nat {:trigger EntryOk(m, n, id, k)} :: id in n && !id.Low? && k < 512 ==> EntryOk(m, n, id, k))
  }

  /** The last-level entry of page `v`, zero where there is no table for it. */
  ghost function Leaf(m: Mem, n: Nodes, v: nat): nat {
    if IsTable(m, n, Low(v / 512)) then m[n[Low(v / 512)]].ptes[v % 512] else 0
  }

  /** The tree on the way down to page `v`. */
  function IdAt(level: nat, v: nat): Id
    requires level < 3
  {
    if level == 2 then Root else if level == 1 then Mid(v / 512 / 512) else Low(v / 512)
  }

  lemma IdDown(level: nat, v: nat)
    requires 0 < level < 3 && v < MAXPAGES
    ensures var id := IdAt(level, v); !id.Low? && Bounded(id) && Child(id, Px(level, v)) == IdAt(level - 1, v)
  {
  }

  // ---- following the entries

  /** The last-level table that the entries alone lead to for page `v`, from table
      `t` of level `level`; zero where an entry is not valid. */
  function Descend(m: Mem, t: nat, level: nat, v: nat): nat
    requires level < 3
    decreases level
  {
    if level == 0 then t
    else if t !in m || !m[t].Table? || !Valid(m[t].ptes[Px(level, v)]) then 0
    else Descend(m, Page(m[t].ptes[Px(level, v)]), level - 1, v)
  }

  /** Without a table on the way down there is none at the bottom. */
  lemma NoneBelow(m: Mem, root: nat, n: Nodes, level: nat, v: nat)
    requires Tree(m, root, n) && level < 3 && IdAt(level, v) !in n
    ensures Low(v / 512) !in n
  {
  }

  lemma {:induction false} DescendFinds(m: Mem, root: nat, n: Nodes, level: nat, v: nat)
    requires Tree(m, root, n) && v < MAXPAGES && level < 3 && IdAt(level, v) in n
    ensures Descend(m, n[IdAt(level, v)], level, v) == if Low(v / 512) in n then n[Low(v / 512)] else 0
    decreases level
  {
    if level > 0 {
      var id, below := IdAt(level, v), IdAt(level - 1, v);
      IdDown(level, v);
      assert EntryOk(m, n, id, Px(level, v));
      if below in n {
        DescendFinds(m, root, n, level - 1, v);
      } else {
        NoneBelow(m, root, n, level - 1, v);
      }
    }
  }

  /** The entries of a well-formed tree lead two different pages to two different
      slots, and what they find there is the map's entry. */
  lemma DistinctSlots(m: Mem, root: nat, n: Nodes, v: nat, w: nat)
    requires Tree(m, root, n) && v < MAXPAGES && w < MAXPAGES && v != w
    requires Descend(m, root, 2, v) != 0 && Descend(m, root, 2, w) != 0
    ensures Descend(m, root, 2, v) != Descend(m, root, 2, w) || Px(0, v) != Px(0, w)
    ensures var t := Descend(m, root, 2, v); t in m && m[t].Table? && m[t].ptes[Px(0, v)] == Leaf(m, n, v)
  {
    DescendFinds(m, root, n, 2, v);
    DescendFinds(m, root, n, 2, w);
  }

  // ---- one entry of the last level

  function SetEntry(m: Mem, t: nat, k: nat, e: nat): Mem
    requires t in m && m[t].Table? && k < 512
  {
    m[t := Table(m[t].ptes[k := e])]
  }

  /** Writing the leaf slot of `v` changes the entry of `v` and of no other page. */
  lemma LeafSet(m: Mem, root: nat, n: Nodes, v: nat, e: nat)
    requires Tree(m, root, n) && Low(v / 512) in n
    ensures var m' := SetEntry(m, n[Low(v / 512)], v % 512, e);
            && Tree(m', root, n)
            && Leaf(m', n, v) == e
            && forall w: nat :: w != v ==> Leaf(m', n, w) == Leaf(m, n, w)
  {
    var t := n[Low(v / 512)];
    var m' := SetEntry(m, t, v % 512, e);
    forall id: Id, k: nat | id in n && !id.Low? && k < 512
      ensures IsTable(m', n, id) && EntryOk(m', n, id, k)
    {
      assert EntryOk(m, n, id, k);
    }
    forall w: nat | w != v
      ensures Leaf(m', n, w) == Leaf(m, n, w)
    {
      if w / 512 == v / 512 {
        assert w % 512 != v % 512;
      }
    }
  }

  // ---- a new table

  /** Page `p` becomes an empty table, and slot `k` of table `id` points to it. */
  function Grown(m: Mem, n: Nodes, id: Id, k: nat, p: nat): Mem
    requires IsTable(m, n, id) && k < 512
  {
    m[p := Table(NoEntries())][n[id] := Table(m[n[id]].ptes[k := Entry(p, 0)])]
  }

  lemma TreeGrown(m: Mem, root: nat, n: Nodes, id: Id, k: nat, p: nat)
    requires Tree(m, root, n) && id in n && !id.Low? && k < 512 && Child(id, k) !in n
    requires p in m && !m[p].Table?
    ensures Tree(Grown(m, n, id, k, p), root, n[Child(id, k) := p])
  {
    var c := Child(id, k);
    var m', n' := Grown(m, n, id, k, p), n[c := p];
    ChildParent(id, k);
    assert Nodal(m', n');
    forall a: Id, i: nat | a in n' && !a.Low? && i < 512
      ensures EntryOk(m', n', a, i)
    {
      if a == c {
        ChildParent(a, i);
        assert Child(a, i) !in n';
      } else {
        assert EntryOk(m, n, a, i);
        ChildParent(a, i);
      }
    }
  }

  lemma LeavesGrown(m: Mem, root: nat, n: Nodes, id: Id, k: nat, p: nat)
    requires Tree(m, root, n) && id in n && !id.Low? && k < 512 && Child(id, k) !in n
    requires p in m && !m[p].Table?
    ensures forall v: nat :: Leaf(Grown(m, n, id, k, p), n[Child(id, k) := p], v) == Leaf(m, n, v)
  {
    var c := Child(id, k);
    forall v: nat
      ensures Leaf(Grown(m, n, id, k, p), n[c := p], v) == Leaf(m, n, v)
    {
      if Low(v / 512) in n {
        assert n[Low(v / 512)] != n[id];
      }
    }
  }

  // ---- frames

  /** Two memories agree on the pages of a tree: the same tree, the same leaves. */
  lemma TreeFrame(m: Mem, m': Mem, root: nat, n: Nodes)
    requires Tree(m, root, n) && (forall p :: p in Pages(n) ==> p in m' && m'[p] == m[p])
    ensures Tree(m', root, n) && forall v: nat :: Leaf(m', n, v) == Leaf(m, n, v)
  {
    forall id | id in n
      ensures IsTable(m', n, id) && m'[n[id]] == m[n[id]]
    {
      assert n[id] in Pages(n);
    }
    forall id: Id, k: nat | id in n && !id.Low? && k < 512
      ensures EntryOk(m', n, id, k)
    {
      assert EntryOk(m, n, id, k);
    }
  }

  /** From `m` to `m'` the holder of `own` comes to hold `own'`: pages moved only
      between it and the free ones, and no other page was touched. */
  ghost predicate Exchange(m: Mem, own: set<nat>, m': Mem, own': set<nat>) {
    && m'.Keys == m.Keys
    && (forall p :: p in own' ==> p in m' && !m'[p].Free?)
    && (forall p :: p in m && (p in own || m[p].Free?) ==> p in own' || m'[p].Free?)
    && (forall p :: p in m && p !in own && !m[p].Free? ==> p !in own' && m'[p] == m[p])
  }

  lemma ExchangeJoin(a: Mem, x: set<nat>, b: Mem, y: set<nat>, c: Mem, z: set<nat>)
    requires Exchange(a, x, b, y) && Exchange(b, y, c, z)
    ensures Exchange(a, x, c, z)
  {
  }

  /** What else the holder has, or another holder has, can be set beside both ends. */
  lemma ExchangeBeside(m: Mem, own: set<nat>, m': Mem, own': set<nat>, r: set<nat>)
    requires Exchange(m, own, m', own') && (forall p :: p in r ==> p in m && !m[p].Free? && p !in own)
    ensures Exchange(m, own + r, m', own' + r)
    ensures forall p :: p in r ==> p in m' && m'[p] == m[p] && p !in own'
  {
  }
}
