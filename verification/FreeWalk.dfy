/**
  freewalk of kernel/vm.c: the tables of a tree are given back, bottom up.
 */
module FreeWalk {

  import opened Riscv
  import opened PageTable
  import opened Kalloc
  import opened Vm

  /** Table `a` is `id` or below it. */
  predicate Under(a: Id, id: Id) {
    match id
    case Root => true
    case Mid(i) => a == id || (a.Low? && a.j / 512 == i)
    case Low(j) => a == id
  }

  /** Which entry of `id` leads to `a`. */
  function Branch(a: Id, id: Id): nat {
    if a.Low? then (if id.Root? then a.j / 512 else a.j % 512) else if a.Mid? then a.i else 0
  }

  /** The pages of the tables strictly below `id` that its first `i` entries lead to. */
  ghost function Below(n: Nodes, id: Id, i: nat): set<nat> {
    set a | a in n && Under(a, id) && a != id && Branch(a, id) < i :: n[a]
  }

  /** The pages of `id` and all below it. */
  ghost function Whole(n: Nodes, id: Id): set<nat> {
    set a | a in n && Under(a, id) :: n[a]
  }

  ghost predicate Placed(n: Nodes) {
    && (forall a :: a in n ==> Bounded(a) && (a.Root? || Parent(a) in n))
    && (forall a, b :: a in n && b in n && n[a] == n[b] ==> a == b)
  }

  /** What freewalk asks of table `a`: no valid entry but pointers to tables. */
  ghost predicate Bare(m: Mem, n: Nodes, a: Id) {
    && IsTable(m, n, a)
    && forall k: nat {:trigger m[n[a]].ptes[k]} :: k < 512 ==> if a.Low? then !Valid(m[n[a]].ptes[k]) else EntryOk(m, n, a, k)
  }

  ghost predicate Freeable(m: Mem, n: Nodes, id: Id) {
    Placed(n) && id in n && forall a :: a in n && Under(a, id) ==> Bare(m, n, a)
  }

  /** Exactly the pages `gone` became free. */
  ghost predicate Freed(m: Mem, m': Mem, gone: set<nat>) {
    m'.Keys == m.Keys && forall p :: p in m ==> if p in gone then m'[p].Free? else m'[p] == m[p]
  }

  function Level(id: Id): nat {
    match id case Root => 2 case Mid(_) => 1 case Low(_) => 0
  }

  lemma BelowNext(n: Nodes, id: Id, i: nat)
    requires Placed(n) && id in n && !id.Low? && i < 512
    ensures Below(n, id, i + 1) == Below(n, id, i) + (if Child(id, i) in n then Whole(n, Child(id, i)) else {})
    ensures Child(id, i) in n ==> Whole(n, Child(id, i)) !! Below(n, id, i) + {n[id]}
  {
    var c := Child(id, i);
    ChildParent(id, i);
    forall a | a in n
      ensures Under(a, id) && a != id && Branch(a, id) == i <==> c in n && Under(a, c)
    {
      if !a.Root? && c !in n {
        assert Parent(a) in n;
      }
    }
  }

  lemma AllBelow(n: Nodes, id: Id)
    requires Placed(n) && id in n
    ensures Below(n, id, 0) == {} && Whole(n, id) == Below(n, id, 512) + {n[id]} && n[id] !in Below(n, id, 512)
    ensures id.Low? ==> forall i :: Below(n, id, i) == {}
  {
  }

  /** Tables outside the freed pages are as they were. */
  lemma StillFreeable(m: Mem, m': Mem, n: Nodes, id: Id, i: nat)
    requires Freeable(m, n, id) && !id.Low? && i < 512 && Child(id, i) in n
    requires forall p :: p in Whole(n, Child(id, i)) ==> p in m' && m'[p] == m[p]
    ensures Freeable(m', n, Child(id, i))
  {
    var c := Child(id, i);
    ChildParent(id, i);
    forall a | a in n && Under(a, c)
      ensures Bare(m', n, a)
    {
      assert Under(a, id) && Bare(m, n, a);
      assert n[a] in Whole(n, c);
      forall k: nat | k < 512
        ensures if a.Low? then !Valid(m'[n[a]].ptes[k]) else EntryOk(m', n, a, k)
      {
        assert m'[n[a]].ptes[k] == m[n[a]].ptes[k];
      }
    }
  }

  /** Part-way: the first `i` branches are free, and the table itself keeps its later entries. */
  ghost predicate PartFreed(m: Mem, m': Mem, n: Nodes, id: Id, i: nat)
    requires IsTable(m, n, id)
  {
    && m'.Keys == m.Keys
    && m'[n[id]].Table? && (forall k :: i <= k < 512 ==> m'[n[id]].ptes[k] == m[n[id]].ptes[k])
    && forall p :: p in m && p != n[id] ==> if p in Below(n, id, i) then m'[p].Free? else m'[p] == m[p]
  }

  lemma BranchFreed(m: Mem, a: Mem, b: Mem, n: Nodes, id: Id, i: nat)
    requires Freeable(m, n, id) && !id.Low? && i < 512 && Child(id, i) in n && IsTable(m, n, id)
    requires PartFreed(m, a, n, id, i) && Freed(a, b, Whole(n, Child(id, i)))
    ensures b[n[id]].Table? && PartFreed(m, b[n[id] := Table(b[n[id]].ptes[i := 0])], n, id, i + 1)
  {
    BelowNext(n, id, i);
    hide Freeable, Whole, Below;
  }

  lemma NoBranch(m: Mem, a: Mem, n: Nodes, id: Id, i: nat)
    requires Freeable(m, n, id) && i < 512 && IsTable(m, n, id) && PartFreed(m, a, n, id, i)
    requires !id.Low? ==> Child(id, i) !in n
    ensures PartFreed(m, a, n, id, i + 1)
  {
    if id.Low? {
      AllBelow(n, id);
    } else {
      BelowNext(n, id, i);
    }
    hide Freeable, Whole, Below;
  }

  lemma AtBare(m: Mem, n: Nodes, id: Id, i: nat)
    requires Freeable(m, n, id) && i < 512
    ensures IsTable(m, n, id) && (if id.Low? then !Valid(m[n[id]].ptes[i]) else EntryOk(m, n, id, i))
    ensures Valid(m[n[id]].ptes[i]) ==> !IsLeaf(m[n[id]].ptes[i])
  {
    assert Under(id, id) && Bare(m, n, id);
    var e := m[n[id]].ptes[i];
    EntryFlags(Page(e), 0);
  }

  /** The pages of a branch not yet reached are untouched. */
  lemma NotYet(m: Mem, a: Mem, n: Nodes, id: Id, i: nat)
    requires Freeable(m, n, id) && !id.Low? && i < 512 && Child(id, i) in n && IsTable(m, n, id) && PartFreed(m, a, n, id, i)
    ensures Freeable(a, n, Child(id, i))
  {
    BelowNext(n, id, i);
    forall p | p in Whole(n, Child(id, i))
      ensures p in a && a[p] == m[p]
    {
      var x :| x in n && Under(x, Child(id, i)) && n[x] == p;
      assert Under(x, id) && Bare(m, n, x);
    }
    StillFreeable(m, a, n, id, i);
  }

  /** freewalk: every table from `id` down becomes free, and nothing else changes. */
  method Freewalk(k: Kmem, t: nat, ghost id: Id, ghost n: Nodes)
    requires k.Valid() && Freeable(k.mem, n, id) && t == n[id]
    modifies k
    ensures k.Valid() && Freed(old(k.mem), k.mem, Whole(n, id))
    decreases Level(id)
  {
    hide Freeable, Freed, Whole, Below;
    ghost var first := k.mem;
    AtBare(first, n, id, 0);
    Untouched(first, n, id);
    var i := 0;
    while i < 512
      invariant i <= 512 && k.Valid() && PartFreed(first, k.mem, n, id, i)
    {
      ghost var before := k.mem;
      AtBare(first, n, id, i);
      var e := k.mem[t].ptes[i];
      if Valid(e) && !IsLeaf(e) {
        NotYet(first, before, n, id, i);
        Freewalk(k, Page(e), Child(id, i), n);
        BranchFreed(first, before, k.mem, n, id, i);
        k.Store(t, Table(k.mem[t].ptes[i := 0]));
      } else {
        NoBranch(first, before, n, id, i);
      }
      i := i + 1;
    }
    k.Kfree(t);
    AllFreed(first, k.mem, n, id);
  }

  lemma Untouched(m: Mem, n: Nodes, id: Id)
    requires Freeable(m, n, id) && IsTable(m, n, id)
    ensures PartFreed(m, m, n, id, 0)
  {
    AllBelow(n, id);
  }

  lemma AllFreed(m: Mem, m': Mem, n: Nodes, id: Id)
    requires Freeable(m, n, id) && IsTable(m, n, id) && m'.Keys == m.Keys && m'[n[id]].Free?
    requires forall p :: p in m && p != n[id] ==> if p in Below(n, id, 512) then m'[p].Free? else m'[p] == m[p]
    ensures Freed(m, m', Whole(n, id))
  {
    AllBelow(n, id);
  }
}
