/**
  What exec puts into memory, told by the ELF headers, the bytes of the file and the
  arguments alone.
 */
module ExecImage {

  import opened Common
  import opened Riscv
  import opened PageTable
  import opened Kalloc
  import opened Vm
  import opened UserSpace
  import opened UserVm
  import opened UserCopy
  import opened ExecArgs
  import opened Exec

  // ---- the segments

  /** The file has a byte of the segment for address `va`. */
  predicate Covers(ph: ProgHdr, va: nat) {
    ph.vaddr <= va < ph.vaddr + ph.filesz
  }

  /** Segment `j` is the last with a byte for `va`. */
  predicate LastOver(segs: seq<ProgHdr>, j: nat, va: nat) {
    j < |segs| && Covers(segs[j], va) && forall i :: j < i < |segs| ==> !Covers(segs[i], va)
  }

  lemma {:induction false} ImageByte(segs: seq<ProgHdr>, file: seq<byte>, j: nat, va: nat)
    requires LastOver(segs, j, va) && segs[j].off % U32 + segs[j].filesz <= |file|
    ensures Image(segs, file, va) == file[segs[j].off % U32 + (va - segs[j].vaddr)]
    decreases |segs|
  {
    var last := |segs| - 1;
    if j < last {
      assert !Covers(segs[last], va);
      assert segs[..last][j] == segs[j];
      ImageByte(segs[..last], file, j, va);
    }
  }

  lemma {:induction false} ImageZero(segs: seq<ProgHdr>, file: seq<byte>, va: nat)
    requires forall j :: 0 <= j < |segs| ==> !Covers(segs[j], va)
    ensures Image(segs, file, va) == 0
    decreases |segs|
  {
    if segs != [] {
      var last := |segs| - 1;
      assert !Covers(segs[last], va);
      ImageZero(segs[..last], file, va);
    }
  }

  /** The image ends where the segment that reaches highest does. */
  lemma {:induction false} SizeMeans(segs: seq<ProgHdr>)
    ensures forall j :: 0 <= j < |segs| ==> segs[j].vaddr + segs[j].memsz <= Size(segs)
    ensures Size(segs) == 0 || exists j :: 0 <= j < |segs| && segs[j].vaddr + segs[j].memsz == Size(segs)
    decreases |segs|
  {
    if segs != [] {
      var last := |segs| - 1;
      SizeMeans(segs[..last]);
      forall j | 0 <= j < |segs|
        ensures segs[j].vaddr + segs[j].memsz <= Size(segs)
      {
        if j < last { assert segs[..last][j] == segs[j]; }
      }
      if Size(segs) != 0 {
        if segs[last].vaddr + segs[last].memsz < Size(segs[..last]) {
          var j :| 0 <= j < last && segs[..last][j].vaddr + segs[..last][j].memsz == Size(segs[..last]);
          assert segs[j].vaddr + segs[j].memsz == Size(segs);
        } else {
          assert segs[last].vaddr + segs[last].memsz == Size(segs);
        }
      }
    }
  }

  /** The segment reaches into page `v`. */
  predicate Reaches(ph: ProgHdr, v: nat) {
    v * PGSIZE < ph.vaddr + ph.memsz
  }

  predicate FirstIn(segs: seq<ProgHdr>, j: nat, v: nat) {
    j < |segs| && Reaches(segs[j], v) && forall i :: 0 <= i < j ==> !Reaches(segs[i], v)
  }

  /** The flags of a user page for these ELF flags: valid, readable and the user's, bit by
      bit; writable and executable as bits 1 and 0 of the ELF flags say. */
  predicate FlagsFor(f: nat, flags: nat) {
    && f % 2 == 1 && f / 2 % 2 == 1 && f / 16 % 2 == 1 && f < 32
    && f / 4 % 2 == flags / 2 % 2 && f / 8 % 2 == flags % 2
  }

  lemma PermBits(flags: nat)
    ensures FlagsFor(PTE_R + PTE_U + Flags2perm(flags) + 1, flags)
  {
  }

  lemma Below(sz: nat, v: nat)
    ensures v < PageUp(sz) <==> v * PGSIZE < sz
  {
  }

  lemma {:induction false} PermMeans(segs: seq<ProgHdr>, j: nat, v: nat)
    requires FirstIn(segs, j, v)
    ensures FlagsFor(PagePerm(segs, v), segs[j].flags)
    decreases |segs|
  {
    var last := |segs| - 1;
    var before := segs[..last];
    SizeMeans(before);
    Below(Size(before), v);
    if j < last {
      assert before[j] == segs[j];
      PermMeans(before, j, v);
    } else {
      forall i | 0 <= i < last
        ensures before[i].vaddr + before[i].memsz <= v * PGSIZE
      {
        assert before[i] == segs[i] && !Reaches(segs[i], v);
      }
      PermBits(segs[j].flags);
    }
    hide Flags2perm, FlagsFor, PageUp, Size;
  }

  // ---- the headers

  predicate Loads(h: HdrRead) {
    h.Got? && h.ph.load
  }

  /** The segments are those of the headers to be loaded, in their order. */
  lemma {:induction false} SegsJoin(a: seq<HdrRead>, b: seq<HdrRead>)
    ensures Segs(a + b) == Segs(a) + Segs(b)
    decreases |b|
  {
    if b == [] {
      assert a + b == a;
    } else {
      var last := |b| - 1;
      assert (a + b)[..|a| + last] == a + b[..last] && (a + b)[|a| + last] == b[last];
      SegsJoin(a, b[..last]);
    }
  }

  lemma SegsOne(h: HdrRead)
    ensures Segs([h]) == if Loads(h) then [h.ph] else []
  {
    assert [h][..0] == [];
  }

  /** A header that exec accepts: to be skipped, or a segment that does not wrap around,
      starts on a page, is no longer in the file than in memory, and is in the file. */
  predicate Acceptable(h: HdrRead, file: seq<byte>) {
    && h.Got?
    && (h.ph.load ==>
          && h.ph.filesz <= h.ph.memsz && h.ph.vaddr + h.ph.memsz < U64 && h.ph.vaddr % 4096 == 0
          && (h.ph.filesz == 0 || h.ph.off % U32 + h.ph.filesz <= |file|))
  }

  /** Some segment up to header `i` ends above address zero. Where none does, uvmalloc's
      answer reads as failure. */
  predicate GrowsAt(hdrs: seq<HdrRead>, i: nat) {
    exists j :: 0 <= j <= i < |hdrs| && Above(hdrs[j])
  }

  predicate Above(h: HdrRead) {
    Loads(h) && h.ph.vaddr + h.ph.memsz > 0
  }

  lemma GrowsLast(hdrs: seq<HdrRead>, last: nat)
    requires |hdrs| == last + 1
    ensures GrowsAt(hdrs, last) <==> Above(hdrs[last]) || (last > 0 && GrowsAt(hdrs[..last], last - 1))
  {
    var p := hdrs[..last];
    assert forall j :: 0 <= j < last ==> p[j] == hdrs[j];
    if j :| 0 <= j <= last && Above(hdrs[j]) {
      if j < last { assert Above(p[j]); }
    }
    if last > 0 && GrowsAt(p, last - 1) {
      var j :| 0 <= j <= last - 1 && Above(p[j]);
      assert Above(hdrs[j]);
    }
  }

  lemma SizeLast(hdrs: seq<HdrRead>, last: nat)
    requires |hdrs| == last + 1
    ensures Size(Segs(hdrs)) != 0 <==> Above(hdrs[last]) || Size(Segs(hdrs[..last])) != 0
  {
    var p, h := Segs(hdrs[..last]), hdrs[last];
    if Loads(h) { SizeNext(p, h.ph); } else { assert Segs(hdrs) == p; }
    hide Size;
  }

  lemma {:induction false} SizePositive(hdrs: seq<HdrRead>)
    requires hdrs != []
    ensures Size(Segs(hdrs)) != 0 <==> GrowsAt(hdrs, |hdrs| - 1)
    decreases |hdrs|
  {
    hide Size, Segs, GrowsAt;
    var last := |hdrs| - 1;
    GrowsLast(hdrs, last);
    SizeLast(hdrs, last);
    if last == 0 { NoSegs(); assert hdrs[..0] == []; } else { SizePositive(hdrs[..last]); }
  }

  lemma NoSegs()
    ensures Size(Segs([])) == 0
  {
  }

  predicate FineAt(hdrs: seq<HdrRead>, file: seq<byte>, i: nat) {
    i < |hdrs| && Acceptable(hdrs[i], file) && (Loads(hdrs[i]) ==> GrowsAt(hdrs, i))
  }

  lemma AcceptSeg(h: HdrRead, file: seq<byte>)
    ensures Acceptable(h, file) <==> h.Got? && (h.ph.load ==> GoodSeg(h.ph, file))
  {
  }

  lemma GoodLast(hdrs: seq<HdrRead>, file: seq<byte>, last: nat)
    requires |hdrs| == last + 1
    ensures GoodHdrs(hdrs, file) <==> GoodHdrs(hdrs[..last], file) && FineAt(hdrs, file, last)
  {
    AcceptSeg(hdrs[last], file);
    SizePositive(hdrs);
    hide Size, Segs, GrowsAt, Acceptable, GoodSeg;
  }

  /** exec accepts exactly these headers. */
  lemma {:induction false} GoodMeans(hdrs: seq<HdrRead>, file: seq<byte>)
    ensures GoodHdrs(hdrs, file) <==> forall i: nat :: i < |hdrs| ==> FineAt(hdrs, file, i)
    decreases |hdrs|
  {
    if hdrs != [] {
      hide GoodHdrs, FineAt;
      var last: nat := |hdrs| - 1;
      GoodMeans(hdrs[..last], file);
      GoodLast(hdrs, file, last);
      forall i: nat | i < last
        ensures FineAt(hdrs, file, i) == FineAt(hdrs[..last], file, i)
      {
        PrefixFine(hdrs, file, last, i);
      }
    }
  }

  lemma PrefixFine(hdrs: seq<HdrRead>, file: seq<byte>, n: nat, i: nat)
    requires i < n <= |hdrs|
    ensures FineAt(hdrs, file, i) == FineAt(hdrs[..n], file, i)
  {
    var p := hdrs[..n];
    assert forall j :: 0 <= j <= i ==> p[j] == hdrs[j];
  }

  lemma {:induction false} SegsGood(hdrs: seq<HdrRead>, file: seq<byte>, j: nat)
    requires GoodHdrs(hdrs, file) && j < |Segs(hdrs)|
    ensures GoodSeg(Segs(hdrs)[j], file)
    decreases |hdrs|
  {
    if hdrs != [] {
      var p := hdrs[..|hdrs| - 1];
      if j < |Segs(p)| { SegsGood(p, file, j); }
    }
  }

  // ---- in memory

  /** Every byte of the program is where the headers say: from the file, of the last segment
      that covers it, and zero where none does. */
  lemma ProgramInMemory(m: Mem, s: Space, hdrs: seq<HdrRead>, file: seq<byte>, argv: seq<seq<byte>>, us: seq<nat>, sp: nat, va: nat)
    requires GoodHdrs(hdrs, file) && Ready(m, s, Segs(hdrs), file, argv, us, sp)
    ensures forall j: nat :: LastOver(Segs(hdrs), j, va) ==>
              var ph := Segs(hdrs)[j];
              && ph.off % U32 + (va - ph.vaddr) < |file| && va < (s.np - 2) * PGSIZE
              && ByteAt(m, s.n, va) == file[ph.off % U32 + (va - ph.vaddr)]
    ensures (forall j :: 0 <= j < |Segs(hdrs)| ==> !Covers(Segs(hdrs)[j], va)) && va < (s.np - 2) * PGSIZE ==> ByteAt(m, s.n, va) == 0
  {
    var segs := Segs(hdrs);
    SizeMeans(segs);
    hide Ok, Leaf, ByteAt, AllUser, HasPerms, StrAt, Reads, Words, Total, Size, Segs, GoodHdrs, Valid, User, Flags;
    forall j: nat | LastOver(segs, j, va)
      ensures segs[j].off % U32 + (va - segs[j].vaddr) < |file| && va < (s.np - 2) * PGSIZE
      ensures ByteAt(m, s.n, va) == file[segs[j].off % U32 + (va - segs[j].vaddr)]
    {
      SegsGood(hdrs, file, j);
      ImageByte(segs, file, j, va);
      assert va < segs[j].vaddr + segs[j].memsz <= Size(segs) <= PageUp(Size(segs)) * PGSIZE;
    }
    if forall j :: 0 <= j < |segs| ==> !Covers(segs[j], va) { ImageZero(segs, file, va); }
  }

  /** Every page of it has the permissions of the segment it was allocated for. */
  lemma PermsInMemory(m: Mem, s: Space, segs: seq<ProgHdr>, file: seq<byte>, argv: seq<seq<byte>>, us: seq<nat>, sp: nat, j: nat, v: nat)
    requires Ready(m, s, segs, file, argv, us, sp) && FirstIn(segs, j, v)
    ensures v < s.np - 2 && FlagsFor(Flags(Leaf(m, s.n, v)), segs[j].flags)
  {
    SizeMeans(segs);
    Below(Size(segs), v);
    PermMeans(segs, j, v);
    hide Ok, Leaf, ByteAt, AllUser, HasImage, StrAt, Reads, Words, Total, Size, Image, FlagsFor, Flags, PagePerm, Valid, User;
  }

  // ---- the stack

  /** The first multiple of 16 from `x` on. */
  predicate Least16(x: nat, r: nat) {
    r % 16 == 0 && x <= r < x + 16
  }

  lemma OneLeast(x: nat, a: nat, b: nat)
    requires Least16(x, a) && Least16(x, b)
    ensures a == b
  {
  }

  lemma {:induction false} DepthMeans(argv: seq<seq<byte>>, ds: seq<nat>, i: nat)
    requires |ds| == |argv| + 1 && ds[0] == 0 && i <= |argv|
    requires forall j :: 0 <= j < |argv| ==> Least16(ds[j] + |argv[j]| + 1, ds[j + 1])
    ensures Depth(argv, i) == ds[i]
  {
    if i > 0 {
      DepthMeans(argv, ds, i - 1);
      OneLeast(ds[i - 1] + |argv[i - 1]| + 1, Depth(argv, i), ds[i]);
    }
  }

  /** The stack that the arguments take: each string with its NUL down to the next multiple of
      16, then a pointer to each and a null, again rounded. */
  lemma TotalMeans(argv: seq<seq<byte>>, ds: seq<nat>)
    requires |ds| == |argv| + 1 && ds[0] == 0
    requires forall j :: 0 <= j < |argv| ==> Least16(ds[j] + |argv[j]| + 1, ds[j + 1])
    ensures Least16(ds[|argv|] + 8 * (|argv| + 1), Total(argv))
  {
    DepthMeans(argv, ds, |argv|);
    hide Depth;
  }

  lemma {:induction false} WordsAt(us: seq<nat>, j: nat)
    requires j < |us|
    ensures Words(us)[8 * j..8 * j + 8] == Word(us[j], 8)
    decreases |us|
  {
    var last := |us| - 1;
    if j < last {
      WordsAt(us[..last], j);
      assert us[..last][j] == us[j];
      assert Words(us)[8 * j..8 * j + 8] == Words(us[..last])[8 * j..8 * j + 8];
    }
    hide Word;
  }

  lemma EightBytes()
    ensures Pow256(8) == U64
  {
    assert Pow256(2) == 65536;
    assert Pow256(4) == 65536 * 65536;
    assert Pow256(6) == 65536 * 65536 * 65536;
  }

  lemma WordBack(v: nat)
    requires v < U64
    ensures Number(Word(v, 8)) == v
  {
    EightBytes();
    hide Word, Number, Pow256;
    WordNumber(v, 8);
  }

  lemma NumberInWords(us: seq<nat>, j: nat, k: nat)
    requires j < |us| && us[j] < U64 && k == 8 * j
    ensures k + 8 <= |Words(us)| && Number(Words(us)[k..k + 8]) == us[j]
  {
    WordsAt(us, j);
    WordBack(us[j]);
  }

  ghost function Eight(m: Mem, n: Nodes, va: nat): seq<byte> {
    seq(8, i requires 0 <= i < 8 => ByteAt(m, n, va + i))
  }

  /** The 64-bit number in memory at `va`. */
  ghost function NumberAt(m: Mem, n: Nodes, va: nat): nat {
    Number(Eight(m, n, va))
  }

  lemma BytesAt(m: Mem, n: Nodes, sp: nat, w: seq<byte>, k: nat)
    requires Reads(m, n, sp, w) && k + 8 <= |w|
    ensures Eight(m, n, sp + k) == w[k..k + 8]
  {
    hide ByteAt;
    var bs := Eight(m, n, sp + k);
    forall i | 0 <= i < 8
      ensures bs[i] == w[k..k + 8][i]
    {
      var va: nat := sp + k + i;
      assert w[va - sp] == ByteAt(m, n, va);
    }
  }

  lemma PointerAt(m: Mem, n: Nodes, sp: nat, us: seq<nat>, j: nat, k: nat)
    requires Reads(m, n, sp, Words(us)) && j < |us| && us[j] < U64 && k == 8 * j
    ensures NumberAt(m, n, sp + k) == us[j]
  {
    hide *;
    NumberInWords(us, j, k);
    SameNumber(m, n, sp, Words(us), k, us[j]);
  }

  lemma SameNumber(m: Mem, n: Nodes, sp: nat, w: seq<byte>, k: nat, v: nat)
    requires Reads(m, n, sp, w) && k + 8 <= |w| && Number(w[k..k + 8]) == v
    ensures NumberAt(m, n, sp + k) == v
  {
    hide Reads, Number, Eight;
    BytesAt(m, n, sp, w, k);
  }

  /** String `j` is packed below the one before it, or the top. */
  predicate Packed(top: nat, argv: seq<seq<byte>>, us: seq<nat>, j: nat)
    requires |us| == |argv|
  {
    j < |us| ==>
      && us[j] % 16 == 0
      && us[j] + |argv[j]| + 1 <= (if j == 0 then top else us[j - 1]) < us[j] + |argv[j]| + 1 + 16
  }

  lemma StringAt(m: Mem, n: Nodes, top: nat, argv: seq<seq<byte>>, us: seq<nat>, j: nat)
    requires j < |us| == |argv| && StrAt(m, n, top, argv, us, j) && (j > 0 ==> StrAt(m, n, top, argv, us, j - 1)) && top % 16 == 0
    ensures Packed(top, argv, us, j)
    ensures forall i :: 0 <= i < |argv[j]| ==> ByteAt(m, n, us[j] + i) == argv[j][i]
    ensures ByteAt(m, n, us[j] + |argv[j]|) == 0
  {
    var str := Str(argv[j]);
    hide ByteAt;
    forall i | 0 <= i <= |argv[j]|
      ensures str[i] == ByteAt(m, n, us[j] + i)
    {
      assert str[us[j] + i - us[j]] == ByteAt(m, n, us[j] + i);
    }
    DepthStep(argv, j);
    if j == 0 { DepthNone(argv); }
    hide Depth, Up16;
    Down16(top, Depth(argv, j + 1));
  }

  lemma Down16(top: nat, d: nat)
    requires top % 16 == 0 && d % 16 == 0 && d <= top
    ensures (top - d) % 16 == 0
  {
  }

  lemma AtReady(m: Mem, s: Space, segs: seq<ProgHdr>, file: seq<byte>, argv: seq<seq<byte>>, us: seq<nat>, sp: nat)
    requires Ready(m, s, segs, file, argv, us, sp)
    ensures |us| == |argv| && s.np * PGSIZE < U64 && Reads(m, s.n, sp, Words(us + [0]))
    ensures forall j: nat :: j < |us| ==> StrAt(m, s.n, s.np * PGSIZE, argv, us, j) && us[j] < U64
    ensures Total(argv) <= s.np * PGSIZE && sp == s.np * PGSIZE - Total(argv) && sp % 16 == 0
  {
    AtStaged(m, s, segs, file);
    assert s.np * PGSIZE < U64;
    hide Staged, Reads, Words, Total, Depth, Ok;
  }

  /** What a program finds on its stack. Argument `j`: the string, ended by a NUL, packed below
      the one before it at a multiple of 16, and its address in the array at sp. */
  lemma ArgInMemory(m: Mem, s: Space, segs: seq<ProgHdr>, file: seq<byte>, argv: seq<seq<byte>>, us: seq<nat>, sp: nat, j: nat)
    requires Ready(m, s, segs, file, argv, us, sp) && j < |argv|
    ensures |us| == |argv| && Packed(s.np * PGSIZE, argv, us, j)
    ensures forall i :: 0 <= i < |argv[j]| ==> ByteAt(m, s.n, us[j] + i) == argv[j][i]
    ensures ByteAt(m, s.n, us[j] + |argv[j]|) == 0
    ensures NumberAt(m, s.n, sp + 8 * j) == us[j]
  {
    hide Ready, ByteAt, Reads, Words, NumberAt, StrAt, Depth, Up16, Total, Packed;
    AtReady(m, s, segs, file, argv, us, sp);
    Pages16(s.np);
    if j > 0 { assert StrAt(m, s.n, s.np * PGSIZE, argv, us, j - 1); }
    StringAt(m, s.n, s.np * PGSIZE, argv, us, j);
    assert (us + [0])[j] == us[j];
    PointerAt(m, s.n, sp, us + [0], j, 8 * j);
  }

  /** The array is ended by a null, and packed below the last string. */
  lemma ArrayInMemory(m: Mem, s: Space, segs: seq<ProgHdr>, file: seq<byte>, argv: seq<seq<byte>>, us: seq<nat>, sp: nat)
    requires Ready(m, s, segs, file, argv, us, sp)
    ensures |us| == |argv| && NumberAt(m, s.n, sp + 8 * |argv|) == 0
    ensures var low := if argv == [] then s.np * PGSIZE else us[|argv| - 1];
            sp % 16 == 0 && sp + 8 * (|argv| + 1) <= low < sp + 8 * (|argv| + 1) + 16
  {
    hide Ready, ByteAt, Reads, Words, NumberAt, StrAt, Depth, Up16;
    AtReady(m, s, segs, file, argv, us, sp);
    assert (us + [0])[|argv|] == 0;
    PointerAt(m, s.n, sp, us + [0], |argv|, 8 * |argv|);
    if argv == [] {
      DepthNone(argv);
    } else {
      AtDepth(m, s.n, s.np * PGSIZE, argv, us, |argv| - 1);
    }
  }

  lemma Pages16(np: nat)
    ensures np * PGSIZE % 16 == 0
  {
    Sixteens(np * PGSIZE, 256 * np);
  }

  lemma AtDepth(m: Mem, n: Nodes, top: nat, argv: seq<seq<byte>>, us: seq<nat>, j: nat)
    requires j < |us| == |argv| && StrAt(m, n, top, argv, us, j)
    ensures us[j] == top - Depth(argv, j + 1)
  {
  }
}
