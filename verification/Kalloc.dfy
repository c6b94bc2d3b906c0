/**
  The physical page allocator: kernel/kalloc.c. The free list runs through the
  free pages themselves.
 */
module Kalloc {

  import opened Riscv
  import opened PageTable

  const KERNBASE: nat := 0x8_0000    // page numbers of the 128 MB of RAM
  const PHYSTOP: nat := 0x8_8000

  function NextIn(fl: seq<nat>, i: nat): nat
    requires i < |fl|
  {
    if i + 1 < |fl| then fl[i + 1] else 0
  }

  /** The list from `head` runs through exactly `fl`, ending in the null pointer. */
  ghost predicate Chain(m: Mem, head: nat, fl: seq<nat>) {
    && head == (if fl == [] then 0 else fl[0])
    && (forall p :: p in fl ==> p in m && m[p].Free?)
    && (forall i: nat {:trigger NextIn(fl, i)} :: i < |fl| ==> m[fl[i]].next == NextIn(fl, i))
    && (forall i, j :: 0 <= i < j < |fl| ==> fl[i] != fl[j])
  }

  /** No page is on the list twice, and the pages on it are exactly the free ones. */
  ghost predicate Listed(m: Mem, head: nat, fl: seq<nat>) {
    Chain(m, head, fl) && forall p :: p in m && m[p].Free? ==> p in fl
  }

  predicate InRam(first: nat, p: nat) {
    first <= p < PHYSTOP
  }

  ghost predicate AllOf(m: Mem, first: nat) {
    forall p: nat :: p in m <==> InRam(first, p)
  }

  function Ram(first: nat): (m: Mem)
    ensures AllOf(m, first) && forall p :: p in m ==> m[p] == Data(Filled(0))
  {
    map p: nat | first <= p < PHYSTOP && InRam(first, p) :: Data(Filled(0))
  }

  lemma TailHas(fl: seq<nat>, p: nat)
    requires p in fl && p != fl[0]
    ensures p in fl[1..]
  {
    var i :| 0 <= i < |fl| && fl[i] == p;
    assert fl[1..][i - 1] == p;
  }

  lemma PoppedAt(m: Mem, head: nat, fl: seq<nat>, i: nat)
    requires Listed(m, head, fl) && i + 1 < |fl|
    ensures fl[1..][i] == fl[i + 1] && fl[i + 1] in m && fl[i + 1] != head && m[fl[i + 1]] == Free(NextIn(fl[1..], i))
  {
    assert fl[i + 1] in fl;
    assert NextIn(fl, i + 1) == NextIn(fl[1..], i);
  }

  lemma Popped(m: Mem, head: nat, fl: seq<nat>, b: Bytes)
    requires Listed(m, head, fl) && fl != []
    ensures head in m && m[head].Free? && Listed(m[head := Data(b)], m[head].next, fl[1..])
  {
    var m', tl := m[head := Data(b)], fl[1..];
    assert NextIn(fl, 0) == if tl == [] then 0 else tl[0];
    forall i: nat | i < |tl|
      ensures tl[i] in m && tl[i] != head && m'[tl[i]] == m[tl[i]] == Free(NextIn(tl, i))
    {
      PoppedAt(m, head, fl, i);
    }
    forall p | p in m' && m'[p].Free?
      ensures p in tl
    {
      assert p in fl && p != fl[0];
      TailHas(fl, p);
    }
  }

  lemma Pushed(m: Mem, head: nat, fl: seq<nat>, p: nat)
    requires Listed(m, head, fl) && p in m && !m[p].Free? && p != 0 && 0 !in m
    ensures Listed(m[p := Free(head)], p, [p] + fl)
  {
    var m', l := m[p := Free(head)], [p] + fl;
    assert l[1..] == fl;
    forall i: nat | i < |l|
      ensures m'[l[i]] == Free(NextIn(l, i))
    {
      if i > 0 {
        assert l[i] == fl[i - 1] && l[i] in fl;
        assert NextIn(fl, i - 1) == NextIn(l, i);
      }
    }
    forall q | q in m' && m'[q].Free?
      ensures q in l
    {
      if q != p {
        assert q in fl;
      }
    }
  }

  class Kmem {
    const first: nat            // PGROUNDUP(end) / PGSIZE
    var mem: Mem
    var head: nat               // kmem.freelist, 0 for null
    ghost var list: seq<nat>

    ghost predicate Valid()
      reads this
    {
      KERNBASE < first <= PHYSTOP && AllOf(mem, first) && Listed(mem, head, list)
    }

    /** kinit: every page from the end of the kernel to PHYSTOP becomes free. */
    constructor (end: nat)
      requires KERNBASE * PGSIZE < end <= PHYSTOP * PGSIZE
      ensures Valid() && first == PageUp(end)
      ensures forall p :: p in mem ==> mem[p].Free?
    {
      first := PageUp(end);
      mem := Ram(PageUp(end));
      head := 0;
      list := [];
      new;
      var p := first;
      while p < PHYSTOP
        invariant first <= p <= PHYSTOP && Valid()
        invariant forall q :: q in mem ==> mem[q].Free? == (q < p)
      {
        Kfree(p);
        p := p + 1;
      }
    }

    method Kfree(p: nat)
      requires Valid() && p in mem && !mem[p].Free?
      modifies this
      ensures Valid() && mem == old(mem)[p := mem[p]] && mem[p].Free? && |list| == |old(list)| + 1
    {
      Pushed(mem, head, list, p);
      mem := mem[p := Free(head)];
      head := p;
      list := [p] + list;
    }

    /** A page filled with junk, or the null pointer exactly when none is free. */
    method Kalloc() returns (p: nat)
      requires Valid()
      modifies this
      ensures Valid()
      ensures p == 0 <==> old(list) == []
      ensures p == 0 ==> mem == old(mem) && list == old(list)
      ensures p != 0 ==> |list| == |old(list)| - 1 && p in old(mem) && old(mem)[p].Free? && mem == old(mem)[p := Data(Filled(5))]
    {
      p := head;
      assert list != [] ==> list[0] in list && list[0] in mem;
      if p != 0 {
        Popped(mem, head, list, Filled(5));
        head := mem[p].next;
        mem := mem[p := Data(Filled(5))];
        list := list[1..];
      }
    }

    /** Stores through a kernel pointer into a page that is in use. */
    method Store(p: nat, f: Frame)
      requires Valid() && p in mem && !mem[p].Free? && !f.Free?
      modifies this`mem
      ensures Valid() && mem == old(mem)[p := f]
    {
      mem := mem[p := f];
    }
  }
}
