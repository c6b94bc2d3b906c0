/**
  What morecore's call of sbrk does: the byte count, a 64-bit product, arrives as an
  `int`. Up to MOSTBYTES the call grants what is asked or is refused. Above, it is
  never refused for its size, and what morecore puts on the free list is not there.
 */
module HeapGrant {
  import opened Common
  import opened Riscv
  import opened PageTable
  import opened Kalloc
  import opened UserSpace
  import opened UserVm
  import opened Heap

  /** The low 32 bits, signed. */
  function AsInt(x: nat): (r: int)
    ensures -0x8000_0000 <= r < 0x8000_0000
  {
    if x % U32 < 0x8000_0000 then x % U32 else x % U32 - U32
  }

  /** The bytes morecore asks for when malloc finds no block for `nbytes`. */
  function Asked(nbytes: nat): nat {
    16 * Core(UnitsFor(nbytes))
  }

  /** The count arrives as it is exactly up to MOSTBYTES; above, as a header's size at most. */
  lemma AskedExactly(nbytes: nat)
    requires nbytes < U32
    ensures AsInt(Asked(nbytes)) == Asked(nbytes) <==> nbytes <= MOSTBYTES
    ensures nbytes > MOSTBYTES ==> Asked(nbytes) >= 0x8000_0000 && AsInt(Asked(nbytes)) <= 16
  {
  }

  /** sys_sbrk as morecore calls it: the old end of memory, or -1. The bytes asked for lie
      inside the new size exactly when the request is MOSTBYTES or less. */
  method Sbrk(k: Kmem, root: nat, sz: nat, nbytes: nat, ghost s: Space) returns (addr: int, sz': nat, ghost s': Space)
    requires k.Valid() && Ok(k.mem, s) && root == s.root && s.np == PageUp(sz) && nbytes < U32
    modifies k
    ensures k.Valid() && Ok(k.mem, s') && s'.np == PageUp(sz')
    ensures addr == -1 || addr == sz
    ensures addr == sz ==> (sz + Asked(nbytes) <= sz' <==> nbytes <= MOSTBYTES)
    ensures addr == sz && nbytes <= MOSTBYTES ==> sz' == sz + Asked(nbytes)
    ensures addr == sz && nbytes > MOSTBYTES ==> sz' <= sz + 16
    ensures addr == -1 ==> AsInt(Asked(nbytes)) > 0 && sz' == sz
  {
    hide Ok, Becomes, Keeps, Fresh;
    AskedExactly(nbytes);
    var rc;
    rc, sz', s' := Growproc(k, root, sz, AsInt(Asked(nbytes)), s);
    addr := if rc == 0 then sz else -1;
  }
}
