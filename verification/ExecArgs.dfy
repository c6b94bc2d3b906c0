/**
  The argument strings and the argv array that exec puts on the new stack.
 */
module ExecArgs {

  import opened Common
  import opened Riscv
  import opened PageTable
  import opened Kalloc
  import opened Vm
  import opened UserSpace
  import opened UserVm
  import opened UserCopy
  import FsLayout

  const MAXARG: nat := 32

  function Up16(x: nat): (r: nat)
    ensures x <= r < x + 16 && r % 16 == 0
  {
    (x + 15) / 16 * 16
  }

  /** Bytes of stack taken by the first `i` strings. */
  function Depth(argv: seq<seq<byte>>, i: nat): (d: nat)
    requires i <= |argv|
    ensures d % 16 == 0
  {
    if i == 0 then 0 else Up16(Depth(argv, i - 1) + |argv[i - 1]| + 1)
  }

  /** Bytes of stack taken by the strings and the array of pointers. */
  function Total(argv: seq<seq<byte>>): nat {
    Up16(Depth(argv, |argv|) + 8 * (|argv| + 1))
  }

  lemma {:induction false} DepthGrows(argv: seq<seq<byte>>, i: nat, j: nat)
    requires i <= j <= |argv|
    ensures Depth(argv, i) <= Depth(argv, j)
  {
    if i < j {
      DepthGrows(argv, i, j - 1);
    }
  }

  lemma DepthNext(argv: seq<seq<byte>>, i: nat)
    requires i < |argv|
    ensures Depth(argv, i) + |argv[i]| + 1 <= Depth(argv, i + 1)
  {
  }

  /** A 64-bit number, low byte first. */
  function Word(v: nat, k: nat): (b: seq<byte>)
    ensures |b| == k
  {
    if k == 0 then [] else [FsLayout.ToByte(v % 256)] + Word(v / 256, k - 1)
  }

  function Number(b: seq<byte>): nat {
    if b == [] then 0 else FsLayout.OfByte(b[0]) + 256 * Number(b[1..])
  }

  function Pow256(k: nat): nat {
    if k == 0 then 1 else 256 * Pow256(k - 1)
  }

  lemma {:induction false} WordNumber(v: nat, k: nat)
    requires v < Pow256(k)
    ensures Number(Word(v, k)) == v
  {
    if k > 0 {
      WordNumber(v / 256, k - 1);
      assert Word(v, k)[1..] == Word(v / 256, k - 1);
    }
  }

  /** An array of 64-bit numbers in memory. */
  function Words(us: seq<nat>): (b: seq<byte>)
    ensures |b| == 8 * |us|
  {
    if us == [] then [] else Words(us[..|us| - 1]) + Word(us[|us| - 1], 8)
  }

  // ---- writes below what is already there

  /** Accessible addresses below `at` hold what they held. */
  ghost predicate KeptBelow(m: Mem, m': Mem, n: Nodes, at: nat) {
    forall va: nat :: Mapped(m, n, va) && va < at ==> ByteAt(m', n, va) == ByteAt(m, n, va)
  }

  lemma KeptJoin(a: Mem, b: Mem, c: Mem, n: Nodes, hi: nat, lo: nat, bs: seq<byte>)
    requires KeptBelow(a, b, n, hi) && Wrote(b, c, n, lo, bs) && lo <= hi && SameLeaves(a, n, b, n)
    ensures KeptBelow(a, c, n, lo)
  {
    SameAccess(a, b, n);
    hide ByteAt, Mapped;
  }

  /** What lies above a write is still read the same. */
  lemma ReadsKept(m: Mem, m': Mem, n: Nodes, at: nat, w: seq<byte>, lo: nat, bs: seq<byte>)
    requires Wrote(m, m', n, at, w) && at + |w| <= lo && Reads(m, n, lo, bs) && Reach(m, n, lo, lo + |bs|)
    ensures Reads(m', n, lo, bs)
  {
    hide ByteAt, Mapped;
    forall va: nat | lo <= va < lo + |bs|
      ensures bs[va - lo] == ByteAt(m', n, va)
    {
      assert Mapped(m, n, va);
      assert bs[va - lo] == ByteAt(m, n, va);
    }
  }

  lemma WroteReads(m: Mem, m': Mem, n: Nodes, at: nat, w: seq<byte>)
    requires Wrote(m, m', n, at, w) && Reach(m, n, at, at + |w|)
    ensures Reads(m', n, at, w)
  {
    hide ByteAt, Mapped;
    forall va: nat | at <= va < at + |w|
      ensures w[va - at] == ByteAt(m', n, va)
    {
      assert Mapped(m, n, va);
    }
  }

  /** The stack page is accessible. */
  lemma InStack(m: Mem, n: Nodes, np: nat, lo: nat, hi: nat)
    requires np > 0 && Accessible(m, n, np - 1) && (np - 1) * PGSIZE <= lo && hi <= np * PGSIZE
    ensures Reach(m, n, lo, hi)
  {
    forall va: nat | lo <= va < hi
      ensures Mapped(m, n, va)
    {
      assert va / PGSIZE == np - 1;
    }
  }

  function Str(arg: seq<byte>): seq<byte> {
    arg + [0]
  }

  /** String `j` lies at its place, and the pointer to it is right. */
  ghost predicate StrAt(m: Mem, n: Nodes, top: nat, argv: seq<seq<byte>>, us: seq<nat>, j: nat)
    requires j < |us| <= |argv|
  {
    && Depth(argv, j + 1) <= PGSIZE <= top && us[j] == top - Depth(argv, j + 1)
    && Reads(m, n, us[j], Str(argv[j]))
  }

  lemma StrKept(m: Mem, m': Mem, n: Nodes, np: nat, argv: seq<seq<byte>>, us: seq<nat>, j: nat, at: nat, w: seq<byte>)
    requires j < |us| <= |argv| && np > 0 && StrAt(m, n, np * PGSIZE, argv, us, j) && Accessible(m, n, np - 1)
    requires Wrote(m, m', n, at, w) && at + |w| <= np * PGSIZE - Depth(argv, |us|)
    ensures StrAt(m', n, np * PGSIZE, argv, us, j)
  {
    var top := np * PGSIZE;
    DepthGrows(argv, j + 1, |us|);
    assert us[j] + |Str(argv[j])| <= top - Depth(argv, j);
    InStack(m, n, np, us[j], us[j] + |Str(argv[j])|);
    ReadsKept(m, m', n, at, w, us[j], Str(argv[j]));
  }

  lemma Aligned(np: nat, d: nat, x: nat)
    requires d % 16 == 0 && d + x <= np * PGSIZE
    ensures var sp := np * PGSIZE - d - x; sp - sp % 16 == np * PGSIZE - Up16(d + x) && (sp - sp % 16) % 16 == 0
  {
    var y, sp := d + x, np * PGSIZE - (d + x);
    var c := (y + 15) / 16;
    Sixteens(y + 15, c);
    Sixteens(sp, 256 * np - c);
  }

  lemma Sixteens(a: nat, b: int)
    ensures 16 * b <= a < 16 * b + 16 <==> a / 16 == b
  {
  }

  /** copyout into the stack page cannot fail. */
  method PutStack(k: Kmem, root: nat, sp: nat, bs: seq<byte>, ghost s: Space)
    requires k.Valid() && Ok(k.mem, s) && root == s.root && s.np > 0 && Accessible(k.mem, s.n, s.np - 1)
    requires (s.np - 1) * PGSIZE <= sp && sp + |bs| <= s.np * PGSIZE
    modifies k
    ensures k.Valid() && Ok(k.mem, s) && SameButBytes(old(k.mem), k.mem, s) && k.list == old(k.list)
    ensures Wrote(old(k.mem), k.mem, s.n, sp, bs) && Reads(k.mem, s.n, sp, bs) && Accessible(k.mem, s.n, s.np - 1)
  {
    hide Ok, Leaf, SameButBytes, Wrote, Reads, Reach, Accessible;
    ghost var before := k.mem;
    RoomBelow(before, k.first, s);
    InStack(before, s.n, s.np, sp, sp + |bs|);
    var rc, _ := Copyout(k, root, sp, bs, s);
    assert rc == 0 && bs[..|bs|] == bs;
    WroteReads(before, k.mem, s.n, sp, bs);
    SameButOk(before, k.mem, s);
    StillAccessible(before, k.mem, s.n, s.np - 1);
  }

  lemma StillAccessible(m: Mem, m': Mem, n: Nodes, v: nat)
    requires SameLeaves(m, n, m', n) && Accessible(m, n, v)
    ensures Accessible(m', n, v)
  {
    SameAt(m, n, m', n, v);
  }

  /** The strings pushed so far, nothing below `sp` having changed. */
  ghost predicate Pushed(m0: Mem, m: Mem, s: Space, argv: seq<seq<byte>>, us: seq<nat>, sp: nat) {
    && |us| <= |argv| && s.np > 0 && Ok(m, s) && SameButBytes(m0, m, s) && Accessible(m, s.n, s.np - 1)
    && Depth(argv, |us|) <= PGSIZE && sp <= s.np * PGSIZE - Depth(argv, |us|) && KeptBelow(m0, m, s.n, sp)
    && forall j: nat {:trigger StrAt(m, s.n, s.np * PGSIZE, argv, us, j)} :: j < |us| ==> StrAt(m, s.n, s.np * PGSIZE, argv, us, j)
  }

  lemma PushedNone(m: Mem, s: Space, argv: seq<seq<byte>>)
    requires Ok(m, s) && s.np > 0 && Accessible(m, s.n, s.np - 1)
    ensures Pushed(m, m, s, argv, [], s.np * PGSIZE)
  {
    SameButSelf(m, s);
  }

  lemma PushedMore(m0: Mem, a: Mem, b: Mem, s: Space, argv: seq<seq<byte>>, us: seq<nat>, sp: nat)
    requires |us| < |argv| && Depth(argv, |us|) <= s.np * PGSIZE && Pushed(m0, a, s, argv, us, s.np * PGSIZE - Depth(argv, |us|))
    requires Depth(argv, |us| + 1) <= PGSIZE && sp == s.np * PGSIZE - Depth(argv, |us| + 1)
    requires Ok(b, s) && SameButBytes(a, b, s) && Accessible(b, s.n, s.np - 1)
    requires Wrote(a, b, s.n, sp, Str(argv[|us|])) && Reads(b, s.n, sp, Str(argv[|us|]))
    ensures Pushed(m0, b, s, argv, us + [sp], sp)
  {
    hide Ok, Leaf, SameButBytes, Wrote, Reads, Accessible, KeptBelow, SameLeaves, Depth;
    var us', top := us + [sp], s.np * PGSIZE;
    DepthNext(argv, |us|);
    SameButJoin(m0, a, b, s);
    SameButOk(m0, a, s);
    KeptJoin(m0, a, b, s.n, top - Depth(argv, |us|), sp, Str(argv[|us|]));
    forall j: nat | j < |us'|
      ensures StrAt(b, s.n, top, argv, us', j)
    {
      if j < |us| {
        assert StrAt(a, s.n, top, argv, us, j);
        StrKept(a, b, s.n, s.np, argv, us, j, sp, Str(argv[|us|]));
      }
    }
  }

  /** What user code finds on its stack: the argv array at `sp`, null-terminated,
      each pointer at its string, and nothing below the stack changed. */
  ghost predicate Stacked(m0: Mem, m: Mem, s: Space, argv: seq<seq<byte>>, us: seq<nat>, sp: nat) {
    && Pushed(m0, m, s, argv, us, sp) && |us| == |argv|
    && Total(argv) <= PGSIZE && sp == s.np * PGSIZE - Total(argv) && sp % 16 == 0
    && Reads(m, s.n, sp, Words(us + [0]))
  }

  lemma PushedFacts(m0: Mem, m: Mem, s: Space, argv: seq<seq<byte>>, us: seq<nat>, sp: nat)
    requires Pushed(m0, m, s, argv, us, sp)
    ensures |us| <= |argv| && s.np > 0 && Ok(m, s) && SameButBytes(m0, m, s) && Accessible(m, s.n, s.np - 1)
    ensures Depth(argv, |us|) <= PGSIZE
  {
  }

  /** The argv array goes below the strings. */
  lemma ArrayPushed(m0: Mem, a: Mem, b: Mem, s: Space, argv: seq<seq<byte>>, us: seq<nat>, sp: nat)
    requires |us| == |argv| && Depth(argv, |us|) <= s.np * PGSIZE && Pushed(m0, a, s, argv, us, s.np * PGSIZE - Depth(argv, |us|))
    requires Total(argv) <= PGSIZE && sp == s.np * PGSIZE - Total(argv) && sp % 16 == 0
    requires Ok(b, s) && SameButBytes(a, b, s) && Accessible(b, s.n, s.np - 1)
    requires Wrote(a, b, s.n, sp, Words(us + [0])) && Reads(b, s.n, sp, Words(us + [0]))
    ensures Stacked(m0, b, s, argv, us, sp)
  {
    hide Ok, Leaf, SameButBytes, Wrote, Reads, Accessible, KeptBelow, SameLeaves, Depth, Words, StrAt;
    SameButJoin(m0, a, b, s);
    SameButOk(m0, a, s);
    KeptJoin(m0, a, b, s.n, s.np * PGSIZE - Depth(argv, |us|), sp, Words(us + [0]));
    forall j: nat | j < |us|
      ensures StrAt(b, s.n, s.np * PGSIZE, argv, us, j)
    {
      StrKept(a, b, s.n, s.np, argv, us, j, sp, Words(us + [0]));
    }
  }

  /** exec's argument loop. */
  method PushStrings(k: Kmem, root: nat, sz: nat, argv: seq<seq<byte>>, ghost s: Space) returns (ok: bool, sp: nat, us: seq<nat>)
    requires k.Valid() && Ok(k.mem, s) && root == s.root && s.np >= 2 && sz == s.np * PGSIZE && Accessible(k.mem, s.n, s.np - 1)
    requires |argv| != MAXARG && forall i :: 0 <= i < |argv| ==> |argv[i]| < PGSIZE
    modifies k
    ensures k.Valid() && Ok(k.mem, s) && SameButBytes(old(k.mem), k.mem, s) && k.list == old(k.list)
    ensures ok <==> |argv| < MAXARG && Depth(argv, |argv|) <= PGSIZE
    ensures ok ==> |us| == |argv| && sp == sz - Depth(argv, |argv|) && Pushed(old(k.mem), k.mem, s, argv, us, sp)
  {
    hide Ok, Leaf, SameButBytes, Wrote, Reads, Accessible, Pushed, Depth, Up16;
    ghost var first := k.mem;
    sp, us := sz, [];
    PushedNone(first, s, argv);
    SameButSelf(first, s);
    DepthNone(argv);
    while |us| < |argv|
      invariant k.Valid() && |us| <= |argv| && |us| <= MAXARG && k.list == old(k.list)
      invariant Depth(argv, |us|) <= PGSIZE && sp == sz - Depth(argv, |us|) && Pushed(first, k.mem, s, argv, us, sp)
      decreases |argv| - |us|
    {
      ghost var before := k.mem;
      PushedFacts(first, before, s, argv, us, sp);
      DepthGrows(argv, |us| + 1, |argv|);
      if |us| >= MAXARG {
        return false, sp, us;
      }
      Aligned(s.np, Depth(argv, |us|), |argv[|us|]| + 1);
      DepthStep(argv, |us|);
      sp := sp - (|argv[|us|]| + 1);
      sp := sp - sp % 16;
      if sp < sz - PGSIZE {
        return false, sp, us;
      }
      PutStack(k, root, sp, Str(argv[|us|]), s);
      PushedMore(first, before, k.mem, s, argv, us, sp);
      us := us + [sp];
    }
    PushedFacts(first, k.mem, s, argv, us, sp);
    ok := true;
  }

  /** The argument strings and the array of pointers to them. They fit exactly
      when there are fewer than MAXARG and their total does. */
  method PushArgs(k: Kmem, root: nat, sz: nat, argv: seq<seq<byte>>, ghost s: Space) returns (ok: bool, sp: nat, us: seq<nat>)
    requires k.Valid() && Ok(k.mem, s) && root == s.root && s.np >= 2 && sz == s.np * PGSIZE && Accessible(k.mem, s.n, s.np - 1)
    requires |argv| != MAXARG && forall i :: 0 <= i < |argv| ==> |argv[i]| < PGSIZE
    modifies k
    ensures k.Valid() && Ok(k.mem, s) && SameButBytes(old(k.mem), k.mem, s) && k.list == old(k.list)
    ensures ok <==> |argv| < MAXARG && Total(argv) <= PGSIZE
    ensures ok ==> Stacked(old(k.mem), k.mem, s, argv, us, sp)
  {
    hide Ok, Leaf, SameButBytes, Wrote, Reads, Accessible, Pushed, Stacked, Depth, Up16, Words;
    ghost var first := k.mem;
    ok, sp, us := PushStrings(k, root, sz, argv, s);
    if !ok {
      return;
    }
    ghost var before := k.mem;
    PushedFacts(first, before, s, argv, us, sp);
    Aligned(s.np, Depth(argv, |us|), 8 * (|us| + 1));
    sp := sp - 8 * (|us| + 1);
    sp := sp - sp % 16;
    if sp < sz - PGSIZE {
      return false, sp, us;
    }
    PutStack(k, root, sp, Words(us + [0]), s);
    ArrayPushed(first, before, k.mem, s, argv, us, sp);
    SameButJoin(first, before, k.mem, s);
  }

  lemma DepthNone(argv: seq<seq<byte>>)
    ensures Depth(argv, 0) == 0
  {
  }

  lemma DepthStep(argv: seq<seq<byte>>, i: nat)
    requires i < |argv|
    ensures Depth(argv, i + 1) == Up16(Depth(argv, i) + |argv[i]| + 1)
  {
  }
}
