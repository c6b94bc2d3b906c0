/**
  Page and page-table-entry arithmetic of Sv39 (section 4.4 of the RISC-V
  Privileged Architecture, version 20211203), as kernel/riscv.h has it.
  Addresses and entries are numbers; a page is named by its address / 4096.
 */
module Riscv {

  const PGSIZE: nat := 4096
  const MAXVA: nat := 0x40_0000_0000
  const U64: nat := 0x1_0000_0000_0000_0000
  const MAXPAGES: nat := 0x400_0000       // pages below MAXVA
  const TRAMPOLINE: nat := MAXPAGES - 1   // page numbers
  const TRAPFRAME: nat := MAXPAGES - 2

  const PTE_R: nat := 2
  const PTE_W: nat := 4
  const PTE_X: nat := 8
  const PTE_U: nat := 16

  function PageUp(sz: nat): (r: nat)
    ensures sz <= r * PGSIZE < sz + PGSIZE
  {
    (sz + PGSIZE - 1) / PGSIZE
  }

  /** PGROUNDUP on 64 bits. */
  function RoundUp(sz: nat): (r: nat)
    requires sz < U64
    ensures sz + PGSIZE <= U64 ==> r == PageUp(sz) * PGSIZE
  {
    (sz + PGSIZE - 1) % U64 / PGSIZE * PGSIZE
  }

  // ---- entries

  /** PA2PTE(pa) | perm | PTE_V, for the page `ppn`. */
  function Entry(ppn: nat, perm: nat): (e: nat)
    requires perm < 1024
    ensures Valid(e) && Page(e) == ppn && Flags(e) == perm / 2 * 2 + 1
    ensures e / 1024 == ppn && e % 1024 / 2 == perm / 2 && e % 2 == 1
  {
    EntryParts(ppn, perm / 2 * 2 + 1);
    ppn * 1024 + perm / 2 * 2 + 1
  }

  lemma EntryParts(ppn: nat, f: nat)
    requires f < 1024 && f % 2 == 1
    ensures (ppn * 1024 + f) / 1024 == ppn && (ppn * 1024 + f) % 1024 == f && (ppn * 1024 + f) % 2 == 1
  {
    assert (ppn * 1024 + f) % 2 == f % 2;
  }

  predicate Valid(e: nat) {
    e % 2 == 1
  }

  /** PTE2PA, as a page number. */
  function Page(e: nat): nat {
    e / 1024
  }

  function Flags(e: nat): nat {
    e % 1024
  }

  predicate LeafBits(f: nat) {
    f / 2 % 8 != 0
  }

  predicate UserBit(f: nat) {
    f / 16 % 2 == 1
  }

  /** Some of R, W, X: the entry maps a page instead of pointing to a table. */
  predicate IsLeaf(e: nat) {
    LeafBits(Flags(e))
  }

  predicate User(e: nat) {
    UserBit(Flags(e))
  }

  lemma ByFlags(e: nat)
    ensures Valid(e) <==> Flags(e) % 2 == 1
  {
    var q, f := e / 1024, e % 1024;
    assert e == 2 * (512 * q) + f;
    Parity(512 * q, f);
  }

  lemma Parity(x: nat, f: nat)
    ensures (2 * x + f) % 2 == f % 2
  {
  }

  lemma DropUser(e: nat)
    requires User(e)
    ensures e >= 16 && Page(e - 16) == Page(e) && Flags(e - 16) == Flags(e) - 16
    ensures var f := Flags(e); (f - 16) % 2 == f % 2 && (f - 16) / 2 % 8 == f / 2 % 8 && (f - 16) / 16 % 2 == 0
  {
    var f := Flags(e);
    assert f >= 16;
    assert (f - 16) / 16 == f / 16 - 1 && (f - 16) / 2 == f / 2 - 8;
  }

  /** *pte &= ~PTE_U */
  function NoUser(e: nat): (r: nat)
    ensures !User(r) && Valid(r) == Valid(e) && IsLeaf(r) == IsLeaf(e) && Page(r) == Page(e)
    ensures Flags(r) == if User(e) then Flags(e) - 16 else Flags(e)
  {
    if User(e) then DropUser(e); e - 16 else e
  }

  lemma SameSixteenth(f: nat, g: nat)
    requires f / 2 == g / 2
    ensures f / 16 == g / 16
  {
    assert f / 16 == f / 2 / 8 && g / 16 == g / 2 / 8;
  }

  lemma ValidBit(perm: nat)
    ensures var f := perm / 2 * 2 + 1; LeafBits(f) == LeafBits(perm) && UserBit(f) == UserBit(perm)
  {
    var f := perm / 2 * 2 + 1;
    assert f / 2 == perm / 2;
    SameSixteenth(f, perm);
  }

  lemma EntryFlags(ppn: nat, perm: nat)
    requires perm < 1024
    ensures IsLeaf(Entry(ppn, perm)) == LeafBits(perm) && User(Entry(ppn, perm)) == UserBit(perm)
  {
    ValidBit(perm);
    hide Entry, Flags, LeafBits, UserBit;
  }

  /** Packing at the level of bits: address and flags both come back. */
  lemma PackBits(pa: bv64, perm: bv64)
    requires perm & 0x3FF == perm
    ensures var e := ((pa >> 12) << 10) | perm | 1;
            && (e >> 10) << 12 == pa & !0xFFF
            && e & 0x3FF == perm | 1
  {
  }

  // ---- indices

  /** PX(level, va) of a page number: nine bits per level. */
  function Px(level: nat, v: nat): (i: nat)
    requires level < 3
    ensures i < 512
  {
    if level == 0 then v % 512 else if level == 1 then v / 512 % 512 else v / 512 / 512 % 512
  }

  /** The indices are the digits of the page number in base 512, the highest level first. */
  lemma PxDigits(v: nat)
    requires v < 512 * 512 * 512
    ensures v == Px(2, v) * 262144 + Px(1, v) * 512 + Px(0, v)
  {
    var q, r := v / 512, v % 512;
    assert v == 512 * q + r;
    assert q == 512 * (q / 512) + q % 512 && q / 512 < 512;
  }

  /** Below MAXVA the three indices determine the page. */
  lemma PxInjective(v: nat, w: nat)
    requires v < MAXPAGES && w < MAXPAGES
    requires forall level :: 0 <= level < 3 ==> Px(level, v) == Px(level, w)
    ensures v == w
  {
    assert Px(0, v) == Px(0, w) && Px(1, v) == Px(1, w) && Px(2, v) == Px(2, w);
  }
}
