/**
  walkaddr, copyin, copyout and copyinstr of kernel/vm.c against translation
  byte by byte. Addresses and lengths are any 64-bit numbers.
 */
module UserCopy {

  import opened Common
  import opened Riscv
  import opened PageTable
  import opened Kalloc
  import opened Vm
  import opened UserSpace
  import opened UserVm

  /** User page `v` of the space is accessible from user mode. */
  ghost predicate Accessible(m: Mem, n: Nodes, v: nat) {
    v < MAXPAGES && Valid(Leaf(m, n, v)) && User(Leaf(m, n, v))
  }

  /** Address `va` lies on an accessible page. */
  ghost predicate Mapped(m: Mem, n: Nodes, va: nat) {
    Accessible(m, n, va / PGSIZE)
  }

  ghost predicate InData(m: Mem, n: Nodes, v: nat) {
    Page(Leaf(m, n, v)) in m && m[Page(Leaf(m, n, v))].Data?
  }

  /** The byte at address `va`. */
  ghost function ByteAt(m: Mem, n: Nodes, va: nat): byte {
    if InData(m, n, va / PGSIZE) then m[Page(Leaf(m, n, va / PGSIZE))].bytes[va % PGSIZE] else 0
  }

  lemma AccessibleData(m: Mem, s: Space, v: nat)
    requires Ok(m, s) && Accessible(m, s.n, v)
    ensures v < s.np && InData(m, s.n, v)
  {
    if v >= s.np {
      EntryFlags(s.trap, PTE_R + PTE_W);
      EntryFlags(s.tramp, PTE_R + PTE_X);
    }
  }

  lemma NotAccessible(m: Mem, n: Nodes, v: nat)
    ensures Low(v / 512) !in n ==> !Accessible(m, n, v)
  {
  }

  /** walkaddr: the physical page, or 0 exactly where user mode has no access. */
  method Walkaddr(k: Kmem, root: nat, va: nat, ghost s: Space) returns (p: nat)
    requires k.Valid() && Ok(k.mem, s) && root == s.root
    modifies k
    ensures k.Valid() && k.mem == old(k.mem) && k.list == old(k.list)
    ensures p != 0 <==> Mapped(k.mem, s.n, va)
    ensures p != 0 ==> p == Page(Leaf(k.mem, s.n, va / PGSIZE)) && InData(k.mem, s.n, va / PGSIZE) && va / PGSIZE < s.np
  {
    hide Ok, Tree, Leaf;
    AtTree(k.mem, s);
    if va >= MAXVA {
      return 0;
    }
    var t, _ := Walk(k, root, va, false, s.n);
    NotAccessible(k.mem, s.n, va / PGSIZE);
    if t == 0 {
      return 0;
    }
    AtLow(k.mem, root, s.n, va / PGSIZE);
    var e := k.mem[t].ptes[va / PGSIZE % 512];
    if !Valid(e) || !User(e) {
      return 0;
    }
    AccessibleData(k.mem, s, va / PGSIZE);
    p := Page(e);
  }

  // ---- copyin

  /** All addresses in [lo, hi) are accessible. */
  ghost predicate Reach(m: Mem, n: Nodes, lo: nat, hi: nat) {
    forall va: nat :: lo <= va < hi ==> Mapped(m, n, va)
  }

  /** `bs` are the bytes from `lo` on. */
  ghost predicate Reads(m: Mem, n: Nodes, lo: nat, bs: seq<byte>) {
    forall va: nat :: lo <= va < lo + |bs| ==> bs[va - lo] == ByteAt(m, n, va)
  }

  /** Within one accessible page. */
  lemma PageReads(m: Mem, n: Nodes, va: nat, c: nat)
    requires Mapped(m, n, va) && InData(m, n, va / PGSIZE) && va % PGSIZE + c <= PGSIZE
    ensures Reach(m, n, va, va + c)
    ensures Reads(m, n, va, m[Page(Leaf(m, n, va / PGSIZE))].bytes[va % PGSIZE..va % PGSIZE + c])
  {
    hide Leaf, Valid, User, Page;
    forall w: nat | va <= w < va + c
      ensures w / PGSIZE == va / PGSIZE && w % PGSIZE == va % PGSIZE + (w - va)
    {
    }
  }

  lemma ReadsJoin(m: Mem, n: Nodes, lo: nat, a: seq<byte>, b: seq<byte>)
    requires Reads(m, n, lo, a) && Reads(m, n, lo + |a|, b)
    ensures Reads(m, n, lo, a + b)
  {
    hide ByteAt;
  }

  lemma ReachJoin(m: Mem, n: Nodes, lo: nat, mid: nat, hi: nat)
    requires lo <= mid <= hi && Reach(m, n, lo, mid) && Reach(m, n, mid, hi)
    ensures Reach(m, n, lo, hi)
  {
    hide Mapped;
  }

  /** One page more of what was read so far. */
  lemma ReadsMore(m: Mem, n: Nodes, lo: nat, bs: seq<byte>, va: nat, c: nat)
    requires Reads(m, n, lo, bs) && Reach(m, n, lo, va) && va == lo + |bs|
    requires Mapped(m, n, va) && InData(m, n, va / PGSIZE) && va % PGSIZE + c <= PGSIZE
    ensures var p := Page(Leaf(m, n, va / PGSIZE));
            p in m && m[p].Data? && Reads(m, n, lo, bs + m[p].bytes[va % PGSIZE..va % PGSIZE + c])
    ensures Reach(m, n, lo, va + c)
  {
    PageReads(m, n, va, c);
    hide Reads, Reach, Mapped;
    ReadsJoin(m, n, lo, bs, m[Page(Leaf(m, n, va / PGSIZE))].bytes[va % PGSIZE..va % PGSIZE + c]);
    ReachJoin(m, n, lo, va, va + c);
  }

  /** copyin: succeeds exactly when every byte is accessible, and then has moved
      exactly those bytes; else it stops at the first page that is not. */
  method Copyin(k: Kmem, root: nat, srcva: nat, len: nat, ghost s: Space) returns (rc: int, dst: seq<byte>)
    requires k.Valid() && Ok(k.mem, s) && root == s.root && srcva < U64 && len < U64
    modifies k
    ensures k.Valid() && k.mem == old(k.mem) && (rc == 0 || rc == -1)
    ensures rc == 0 <==> Reach(k.mem, s.n, srcva, srcva + len)
    ensures Reads(k.mem, s.n, srcva, dst)
    ensures if rc == 0 then |dst| == len else |dst| < len && !Mapped(k.mem, s.n, srcva + |dst|)
  {
    hide Ok, Leaf, InData, ByteAt, Accessible, Reads, Page;
    var va, left: nat := srcva, len;
    dst := [];
    AtTree(k.mem, s);
    NoBytes(k.mem, s.n, srcva);
    while left > 0
      invariant |dst| + left == len && (left > 0 ==> va == srcva + |dst|) && va <= U64
      invariant k.Valid() && k.mem == old(k.mem)
      invariant Reads(k.mem, s.n, srcva, dst) && Reach(k.mem, s.n, srcva, srcva + |dst|)
    {
      var va0 := va / PGSIZE * PGSIZE;
      var p := Walkaddr(k, root, va0, s);
      assert va0 / PGSIZE == va / PGSIZE && va - va0 == va % PGSIZE;
      if p == 0 {
        assert !Mapped(k.mem, s.n, srcva + |dst|);
        return -1, dst;
      }
      var n := PGSIZE - (va - va0);
      if n > left {
        n := left;
      }
      ReadsMore(k.mem, s.n, srcva, dst, va, n);
      dst := dst + k.mem[p].bytes[va - va0..va - va0 + n];
      left := left - n;
      va := va0 + PGSIZE;
    }
    rc := 0;
  }

  lemma NoBytes(m: Mem, n: Nodes, va: nat)
    ensures Reads(m, n, va, [])
  {
  }

  lemma AtPage(m: Mem, n: Nodes, va: nat)
    requires InData(m, n, va / PGSIZE)
    ensures Page(Leaf(m, n, va / PGSIZE)) in m && m[Page(Leaf(m, n, va / PGSIZE))].Data?
  {
  }

  // ---- copyout

  /** The addresses [lo, lo + |bs|) hold `bs`; every other accessible address holds what it held. */
  ghost predicate Wrote(m: Mem, m': Mem, n: Nodes, lo: nat, bs: seq<byte>) {
    forall va: nat :: Mapped(m, n, va) ==>
      ByteAt(m', n, va) == if lo <= va < lo + |bs| then bs[va - lo] else ByteAt(m, n, va)
  }

  /** A store into data pages of the space: the space is the same but for its bytes. */
  ghost predicate SameButBytes(m: Mem, m': Mem, s: Space) {
    && Ok(m', s) && SameLeaves(m, s.n, m', s.n) && Becomes(m, s, m', s) && Own(m', s) == Own(m, s)
  }

  lemma StoredOk(m: Mem, s: Space, v: nat, b: Bytes)
    requires Ok(m, s) && v < s.np
    ensures SameButBytes(m, m[Page(Leaf(m, s.n, v)) := Data(b)], s)
  {
    var p := Page(Leaf(m, s.n, v));
    PageAt(m, s, v);
    OffTree(m, s.root, s.n, p, Data(b));
    OkPages(m, s);
    hide Tree, Leaf, Page, Valid, Flags, Entry, Pages;
    var m' := m[p := Data(b)];
    assert DataOf(m', s.n, 0, s.np) == DataOf(m, s.n, 0, s.np);
    assert p in DataOf(m, s.n, 0, s.np);
  }

  lemma SameAccess(m: Mem, m': Mem, n: Nodes)
    requires SameLeaves(m, n, m', n)
    ensures forall va: nat :: Mapped(m', n, va) == Mapped(m, n, va)
  {
    hide Leaf, Valid, User;
  }

  /** One memmove of copyout. */
  lemma PageWrote(m: Mem, s: Space, va: nat, bs: seq<byte>)
    requires Ok(m, s) && Mapped(m, s.n, va) && va / PGSIZE < s.np && InData(m, s.n, va / PGSIZE) && va % PGSIZE + |bs| <= PGSIZE
    ensures var p, o := Page(Leaf(m, s.n, va / PGSIZE)), va % PGSIZE;
            p in m && m[p].Data? && Wrote(m, m[p := Data(m[p].bytes[..o] + bs + m[p].bytes[o + |bs|..])], s.n, va, bs)
  {
    var p, o := Page(Leaf(m, s.n, va / PGSIZE)), va % PGSIZE;
    var b := m[p].bytes[..o] + bs + m[p].bytes[o + |bs|..];
    var m' := m[p := Data(b)];
    hide Ok, Leaf, Page, InData, ByteAt, Accessible;
    forall w: nat | Mapped(m, s.n, w)
      ensures ByteAt(m', s.n, w) == if va <= w < va + |bs| then bs[w - va] else ByteAt(m, s.n, w)
    {
      AccessibleData(m, s, w / PGSIZE);
      ByteStored(m, s, va, w, bs);
    }
  }

  lemma ByteStored(m: Mem, s: Space, va: nat, w: nat, bs: seq<byte>)
    requires Ok(m, s) && va / PGSIZE < s.np && w / PGSIZE < s.np && va % PGSIZE + |bs| <= PGSIZE
    requires InData(m, s.n, va / PGSIZE) && InData(m, s.n, w / PGSIZE)
    ensures var p, o := Page(Leaf(m, s.n, va / PGSIZE)), va % PGSIZE;
            var m' := m[p := Data(m[p].bytes[..o] + bs + m[p].bytes[o + |bs|..])];
            ByteAt(m', s.n, w) == if va <= w < va + |bs| then bs[w - va] else ByteAt(m, s.n, w)
  {
    var p, o := Page(Leaf(m, s.n, va / PGSIZE)), va % PGSIZE;
    var b := m[p].bytes[..o] + bs + m[p].bytes[o + |bs|..];
    StoredOk(m, s, va / PGSIZE, b);
    hide Tree, Leaf, Page, Valid, User, Flags, Pages, DataOf, AllMapped;
    if w / PGSIZE == va / PGSIZE {
      assert w - va == w % PGSIZE - o;
    } else {
      assert !(va <= w < va + |bs|);
    }
  }

  lemma WroteJoin(a: Mem, b: Mem, c: Mem, n: Nodes, lo: nat, x: seq<byte>, y: seq<byte>)
    requires Wrote(a, b, n, lo, x) && Wrote(b, c, n, lo + |x|, y) && SameLeaves(a, n, b, n)
    ensures Wrote(a, c, n, lo, x + y)
  {
    SameAccess(a, b, n);
    hide ByteAt, Mapped;
  }

  lemma SameButJoin(a: Mem, b: Mem, c: Mem, s: Space)
    requires SameButBytes(a, b, s) && SameButBytes(b, c, s)
    ensures SameButBytes(a, c, s)
  {
    BecomesJoin(a, s, b, s, c, s);
    hide Ok, Leaf, Becomes, Own;
  }

  lemma SameButSelf(m: Mem, s: Space)
    requires Ok(m, s)
    ensures SameButBytes(m, m, s) && forall va: nat :: Wrote(m, m, s.n, va, [])
  {
    BecomesSelf(m, s);
  }

  lemma SameButOk(m: Mem, m': Mem, s: Space)
    requires SameButBytes(m, m', s)
    ensures Ok(m', s) && SameLeaves(m, s.n, m', s.n)
  {
  }

  method PutBytes(k: Kmem, p: nat, o: nat, ghost va: nat, bs: seq<byte>, ghost s: Space)
    requires k.Valid() && Ok(k.mem, s) && Mapped(k.mem, s.n, va) && va / PGSIZE < s.np && InData(k.mem, s.n, va / PGSIZE)
    requires p == Page(Leaf(k.mem, s.n, va / PGSIZE)) && o == va % PGSIZE && o + |bs| <= PGSIZE
    modifies k
    ensures k.Valid() && SameButBytes(old(k.mem), k.mem, s) && Wrote(old(k.mem), k.mem, s.n, va, bs) && k.list == old(k.list)
  {
    hide Ok, Leaf, ByteAt, Mapped, SameButBytes, Wrote;
    var b := k.mem[p].bytes;
    PageWrote(k.mem, s, va, bs);
    StoredOk(k.mem, s, va / PGSIZE, b[..o] + bs + b[o + |bs|..]);
    k.Store(p, Data(b[..o] + bs + b[o + |bs|..]));
  }

  /** copyout: succeeds exactly when every byte is accessible; it has then
      written those bytes, and on failure those up to the first page that is not. */
  method Copyout(k: Kmem, root: nat, dstva: nat, src: seq<byte>, ghost s: Space) returns (rc: int, ghost done: nat)
    requires k.Valid() && Ok(k.mem, s) && root == s.root && dstva < U64 && |src| < U64
    modifies k
    ensures k.Valid() && Ok(k.mem, s) && SameButBytes(old(k.mem), k.mem, s) && k.list == old(k.list) && (rc == 0 || rc == -1)
    ensures rc == 0 <==> old(Reach(k.mem, s.n, dstva, dstva + |src|))
    ensures if rc == 0 then done == |src| else done < |src| && !old(Mapped(k.mem, s.n, dstva + done))
    ensures Wrote(old(k.mem), k.mem, s.n, dstva, src[..done])
  {
    hide Ok, Leaf, InData, ByteAt, Accessible, Page, SameButBytes, Wrote, SameLeaves;
    ghost var first := k.mem;
    var va, left: nat := dstva, |src|;
    done := 0;
    AtTree(k.mem, s);
    SameButSelf(k.mem, s);
    assert src[..0] == [];
    while left > 0
      invariant done + left == |src| && (left > 0 ==> va == dstva + done) && va <= U64
      invariant k.Valid() && Ok(k.mem, s) && SameButBytes(first, k.mem, s) && k.list == old(k.list)
      invariant Reach(first, s.n, dstva, dstva + done) && Wrote(first, k.mem, s.n, dstva, src[..done])
    {
      ghost var before := k.mem;
      var va0 := va / PGSIZE * PGSIZE;
      var p := Walkaddr(k, root, va0, s);
      assert va0 / PGSIZE == va / PGSIZE && va - va0 == va % PGSIZE;
      SameButOk(first, before, s);
      SameAccess(first, before, s.n);
      assert Mapped(first, s.n, va) == Mapped(before, s.n, va);
      if p == 0 {
        assert !Mapped(first, s.n, dstva + done);
        return -1, done;
      }
      var n := PGSIZE - (va - va0);
      if n > left {
        n := left;
      }
      var bs := src[|src| - left..|src| - left + n];
      PageReads(before, s.n, va, n);
      AtPage(before, s.n, va);
      assert Reach(first, s.n, va, va + n);
      ReachJoin(first, s.n, dstva, va, va + n);
      PutBytes(k, p, va - va0, va, bs, s);
      WroteJoin(first, before, k.mem, s.n, dstva, src[..done], bs);
      SameButJoin(first, before, k.mem, s);
      SameButOk(first, k.mem, s);
      assert src[..done + n] == src[..done] + bs;
      done := done + n;
      left := left - n;
      va := va0 + PGSIZE;
    }
    rc := 0;
  }

  // ---- copyinstr

  predicate NoNul(bs: seq<byte>) {
    forall i :: 0 <= i < |bs| ==> bs[i] != 0
  }

  /** The inner loop: bytes up to the first NUL, or `n` of them. */
  method Scan(b: Bytes, o: nat, n: nat) returns (got: bool, c: nat)
    requires o + n <= PGSIZE
    ensures c <= n && NoNul(b[o..o + c])
    ensures if got then c < n && b[o + c] == 0 else c == n
  {
    got, c := false, 0;
    while c < n
      invariant c <= n && forall i :: o <= i < o + c ==> b[i] != 0
    {
      if b[o + c] == 0 {
        return true, c;
      }
      c := c + 1;
    }
  }

  /** A NUL occurs within `max` bytes from `va`, all accessible up to it. */
  ghost predicate StringAt(m: Mem, n: Nodes, va: nat, max: nat) {
    exists w: nat {:trigger ByteAt(m, n, w)} :: va <= w < va + max && Reach(m, n, va, w + 1) && ByteAt(m, n, w) == 0
  }

  lemma NoString(m: Mem, n: Nodes, va: nat, max: nat, bs: seq<byte>)
    requires Reads(m, n, va, bs) && NoNul(bs) && (|bs| >= max || !Mapped(m, n, va + |bs|))
    ensures !StringAt(m, n, va, max)
  {
    hide ByteAt, Mapped;
  }

  lemma HasString(m: Mem, n: Nodes, va: nat, max: nat, bs: seq<byte>)
    requires Reads(m, n, va, bs + [0]) && |bs| < max && Reach(m, n, va, va + |bs| + 1)
    ensures StringAt(m, n, va, max)
  {
    hide Mapped;
    assert (bs + [0])[|bs|] == 0;
    assert ByteAt(m, n, va + |bs|) == 0;
  }

  lemma NoNulJoin(a: seq<byte>, b: seq<byte>)
    requires NoNul(a) && NoNul(b)
    ensures NoNul(a + b)
  {
  }

  /** What copyinstr has taken in so far. */
  ghost predicate Taken(m: Mem, n: Nodes, va: nat, bs: seq<byte>) {
    Reads(m, n, va, bs) && Reach(m, n, va, va + |bs|) && NoNul(bs)
  }

  /** One turn of the outer loop, on the page `p` of `va`. */
  method TakePage(k: Kmem, p: nat, va: nat, left: nat, ghost srcva: nat, dst: seq<byte>, ghost s: Space)
      returns (got: bool, dst': seq<byte>)
    requires k.Valid() && Taken(k.mem, s.n, srcva, dst) && va == srcva + |dst| && left > 0
    requires Mapped(k.mem, s.n, va) && InData(k.mem, s.n, va / PGSIZE) && p == Page(Leaf(k.mem, s.n, va / PGSIZE))
    ensures Taken(k.mem, s.n, srcva, dst')
    ensures got ==> |dst| <= |dst'| < |dst| + left && StringAt(k.mem, s.n, srcva, |dst| + left) && Reads(k.mem, s.n, srcva, dst' + [0])
    ensures !got ==> |dst'| == |dst| + if PGSIZE - va % PGSIZE > left then left else PGSIZE - va % PGSIZE
  {
    hide Leaf, ByteAt, Mapped, Reads, Reach, StringAt, NoNul;
    var o := va % PGSIZE;
    var n := PGSIZE - o;
    if n > left {
      n := left;
    }
    var b := k.mem[p].bytes;
    var c;
    got, c := Scan(b, o, n);
    NoNulJoin(dst, b[o..o + c]);
    ReadsMore(k.mem, s.n, srcva, dst, va, c);
    dst' := dst + b[o..o + c];
    if got {
      ReadsMore(k.mem, s.n, srcva, dst, va, c + 1);
      assert b[o..o + c + 1] == b[o..o + c] + [b[o + c]];
      assert dst + b[o..o + c + 1] == dst' + [0];
      HasString(k.mem, s.n, srcva, |dst| + left, dst');
    }
  }

  lemma TakenNone(m: Mem, n: Nodes, va: nat)
    ensures Taken(m, n, va, [])
  {
  }

  /** copyinstr: succeeds exactly when there is a NUL within `max` bytes, and
      then yields the bytes up to it and no more. */
  method Copyinstr(k: Kmem, root: nat, srcva: nat, max: nat, ghost s: Space) returns (rc: int, dst: seq<byte>)
    requires k.Valid() && Ok(k.mem, s) && root == s.root && srcva < U64 && max < U64
    modifies k
    ensures k.Valid() && k.mem == old(k.mem) && (rc == 0 || rc == -1)
    ensures rc == 0 <==> StringAt(k.mem, s.n, srcva, max)
    ensures Reads(k.mem, s.n, srcva, dst) && |dst| <= max
    ensures if rc == 0 then dst != [] && dst[|dst| - 1] == 0 && NoNul(dst[..|dst| - 1]) else NoNul(dst)
  {
    hide Ok, Leaf, InData, ByteAt, Accessible, Reads, Page, Reach, StringAt, NoNul;
    var va, left: nat := srcva, max;
    dst := [];
    AtTree(k.mem, s);
    TakenNone(k.mem, s.n, srcva);
    while left > 0
      invariant |dst| + left == max && (left > 0 ==> va == srcva + |dst|) && va <= U64
      invariant k.Valid() && k.mem == old(k.mem) && Taken(k.mem, s.n, srcva, dst)
    {
      var va0 := va / PGSIZE * PGSIZE;
      var p := Walkaddr(k, root, va0, s);
      assert va0 / PGSIZE == va / PGSIZE && va - va0 == va % PGSIZE;
      if p == 0 {
        NoString(k.mem, s.n, srcva, max, dst);
        return -1, dst;
      }
      ghost var at := |dst|;
      var got;
      got, dst := TakePage(k, p, va, left, srcva, dst, s);
      if got {
        assert (dst + [0])[..|dst|] == dst;
        return 0, dst + [0];
      }
      left := max - |dst|;
      va := va0 + PGSIZE;
    }
    NoString(k.mem, s.n, srcva, max, dst);
    rc := -1;
  }
}
