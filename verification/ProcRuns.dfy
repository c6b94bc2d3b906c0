/**
  The memory of all processes together: any interleaving of fork, exit, growing,
  shrinking and exec of any number of processes.
 */
module ProcRuns {

  import opened Common
  import opened Riscv
  import opened PageTable
  import opened Kalloc
  import opened Vm
  import opened UserSpace
  import opened UserVm
  import opened ProcVm
  import opened ExecArgs
  import opened Exec

  // ---- what processes hold

  /** A process as far as pages go: its address space and its trapframe page. */
  datatype Hold = Hold(space: Space, trap: nat)

  ghost function Claim(m: Mem, h: Hold): set<nat> {
    Own(m, h.space) + {h.trap}
  }

  ghost predicate Lives(m: Mem, h: Hold) {
    Ok(m, h.space) && h.trap in m && m[h.trap].Data? && h.trap !in Own(m, h.space)
  }

  /** Live processes, no page in the hands of two of them. */
  ghost predicate AllLive(m: Mem, hs: seq<Hold>) {
    && (forall i :: 0 <= i < |hs| ==> Lives(m, hs[i]))
    && (forall i, j :: 0 <= i < j < |hs| ==> Claim(m, hs[i]) !! Claim(m, hs[j]))
  }

  ghost function Claims(m: Mem, hs: seq<Hold>): set<nat> {
    if hs == [] then {} else Claim(m, hs[0]) + Claims(m, hs[1..])
  }

  lemma {:induction false} ClaimsAt(m: Mem, hs: seq<Hold>, p: nat)
    ensures p in Claims(m, hs) <==> exists i :: 0 <= i < |hs| && p in Claim(m, hs[i])
    decreases |hs|
  {
    hide Claim;
    if hs != [] {
      ClaimsAt(m, hs[1..], p);
      if p in Claims(m, hs[1..]) {
        var i :| 0 <= i < |hs[1..]| && p in Claim(m, hs[1..][i]);
        assert p in Claim(m, hs[i + 1]);
      }
      if i :| 0 <= i < |hs| && p in Claim(m, hs[i]) {
        assert i > 0 ==> p in Claim(m, hs[1..][i - 1]);
      }
    }
  }

  lemma LivePages(m: Mem, h: Hold)
    requires Lives(m, h)
    ensures forall p :: p in Claim(m, h) ==> p in m && !m[p].Free?
  {
    OkPages(m, h.space);
    hide Ok, Own;
  }

  /** A process whose pages are not touched. */
  lemma Untouched(m: Mem, h: Hold, m': Mem, x: set<nat>, y: set<nat>)
    requires Lives(m, h) && Exchange(m, x, m', y) && Claim(m, h) !! x
    ensures Lives(m', h) && Claim(m', h) == Claim(m, h) && Claim(m', h) !! y
  {
    LivePages(m, h);
    assert forall q :: q in Claim(m, h) ==> q in m' && m'[q] == m[q] && q !in y by { hide Own, Ok; }
    Bystander(m, m', h.space);
    hide Own, Ok, Keeps;
  }

  // ---- one process does something

  /** Process `i` gives pages back or takes free ones: the others do not notice. */
  lemma OneMoves(m: Mem, hs: seq<Hold>, i: nat, m': Mem, h: Hold)
    requires AllLive(m, hs) && i < |hs| && Lives(m', h) && Exchange(m, Claim(m, hs[i]), m', Claim(m', h))
    ensures AllLive(m', hs[i := h])
  {
    hide Lives, Exchange;
    forall j: nat | j < |hs| && j != i
      ensures Lives(m', hs[j]) && Claim(m', hs[j]) == Claim(m, hs[j]) && Claim(m', hs[j]) !! Claim(m', h)
    {
      ApartAt(m, hs, i, j);
      Untouched(m, hs[j], m', Claim(m, hs[i]), Claim(m', h));
    }
    hide Claim;
  }

  lemma ApartAt(m: Mem, hs: seq<Hold>, i: nat, j: nat)
    requires AllLive(m, hs) && i < |hs| && j < |hs| && i != j
    ensures Claim(m, hs[j]) !! Claim(m, hs[i]) && Lives(m, hs[j])
  {
    hide Claim, Lives;
  }

  /** A process is born. */
  lemma OneMore(m: Mem, hs: seq<Hold>, m': Mem, h: Hold)
    requires AllLive(m, hs) && Lives(m', h) && Exchange(m, {}, m', Claim(m', h))
    ensures AllLive(m', hs + [h])
  {
    hide Lives, Exchange;
    forall j: nat | j < |hs|
      ensures Lives(m', hs[j]) && Claim(m', hs[j]) == Claim(m, hs[j]) && Claim(m', hs[j]) !! Claim(m', h)
    {
      assert Lives(m, hs[j]);
      Untouched(m, hs[j], m', {}, Claim(m', h));
    }
    hide Claim;
  }

  /** A process is gone. */
  lemma OneLess(m: Mem, hs: seq<Hold>, i: nat, m': Mem)
    requires AllLive(m, hs) && i < |hs| && Exchange(m, Claim(m, hs[i]), m', {})
    ensures AllLive(m', hs[..i] + hs[i + 1..])
  {
    hide Lives, Exchange;
    forall j: nat | j < |hs| && j != i
      ensures Lives(m', hs[j]) && Claim(m', hs[j]) == Claim(m, hs[j])
    {
      ApartAt(m, hs, i, j);
      Untouched(m, hs[j], m', Claim(m, hs[i]), {});
    }
    hide Claim;
  }

  // ---- conservation

  /** Between `first` and `m` pages went only from the free ones to the processes and back. */
  ghost predicate Accounted(first: Mem, m: Mem, hs: seq<Hold>) {
    AllLive(m, hs) && Exchange(first, {}, m, Claims(m, hs))
  }

  lemma Parts(first: Mem, m: Mem, hs: seq<Hold>)
    requires Accounted(first, m, hs)
    ensures AllLive(m, hs) && Exchange(first, {}, m, Claims(m, hs))
  {
  }

  /** The pages of all processes but the i-th. */
  ghost function Rest(m: Mem, hs: seq<Hold>, i: nat): set<nat>
    requires i < |hs|
  {
    Claims(m, hs) - Claim(m, hs[i])
  }

  lemma RestAt(m: Mem, hs: seq<Hold>, i: nat, p: nat)
    requires AllLive(m, hs) && i < |hs|
    ensures p in Rest(m, hs, i) <==> exists j :: 0 <= j < |hs| && j != i && p in Claim(m, hs[j])
    ensures p in Claims(m, hs) <==> p in Claim(m, hs[i]) || p in Rest(m, hs, i)
    ensures p in Rest(m, hs, i) ==> p in m && !m[p].Free? && p !in Claim(m, hs[i])
  {
    ClaimsAt(m, hs, p);
    hide Lives;
    if j :| 0 <= j < |hs| && p in Claim(m, hs[j]) {
      if j != i { ApartAt(m, hs, i, j); }
      assert Lives(m, hs[j]);
      LivePages(m, hs[j]);
    }
    forall j | 0 <= j < |hs| && j != i && p in Claim(m, hs[j])
      ensures p in Rest(m, hs, i)
    {
      ApartAt(m, hs, i, j);
    }
  }

  lemma RestBeside(m: Mem, hs: seq<Hold>, i: nat, m': Mem, own: set<nat>)
    requires AllLive(m, hs) && i < |hs| && Exchange(m, Claim(m, hs[i]), m', own)
    ensures Exchange(m, Claims(m, hs), m', own + Rest(m, hs, i))
  {
    forall p: nat
      ensures p in Rest(m, hs, i) ==> p in m && !m[p].Free? && p !in Claim(m, hs[i])
      ensures p in Claims(m, hs) <==> p in Claim(m, hs[i]) || p in Rest(m, hs, i)
    {
      RestAt(m, hs, i, p);
    }
    hide Claim, AllLive, Rest, Claims;
    assert Claim(m, hs[i]) + Rest(m, hs, i) == Claims(m, hs);
    ExchangeBeside(m, Claim(m, hs[i]), m', own, Rest(m, hs, i));
  }

  lemma MovedRest(m: Mem, hs: seq<Hold>, i: nat, m': Mem, h: Hold)
    requires AllLive(m, hs) && i < |hs| && Lives(m', h) && Exchange(m, Claim(m, hs[i]), m', Claim(m', h))
    ensures Claims(m', hs[i := h]) == Claim(m', h) + Rest(m, hs, i)
  {
    forall p: nat
      ensures p in Claims(m', hs[i := h]) <==> p in Claim(m', h) || p in Rest(m, hs, i)
    {
      ClaimsAt(m', hs[i := h], p);
      RestAt(m, hs, i, p);
      forall j: nat | j < |hs| && j != i
        ensures Claim(m', hs[i := h][j]) == Claim(m, hs[j])
      {
        ApartAt(m, hs, i, j);
        Untouched(m, hs[j], m', Claim(m, hs[i]), Claim(m', h));
      }
      hide Claim, Lives, AllLive, Claims, Rest, Exchange;
      assert hs[i := h][i] == h;
    }
  }

  lemma MovedAccounted(first: Mem, m: Mem, hs: seq<Hold>, i: nat, m': Mem, h: Hold)
    requires Accounted(first, m, hs) && i < |hs| && Lives(m', h) && Exchange(m, Claim(m, hs[i]), m', Claim(m', h))
    ensures Accounted(first, m', hs[i := h])
  {
    Parts(first, m, hs);
    hide Claim, Claims, Rest, AllLive, Lives, Exchange;
    OneMoves(m, hs, i, m', h);
    RestBeside(m, hs, i, m', Claim(m', h));
    MovedRest(m, hs, i, m', h);
    ExchangeJoin(first, {}, m, Claims(m, hs), m', Claims(m', hs[i := h]));
  }

  lemma ClaimsUsed(m: Mem, hs: seq<Hold>)
    requires AllLive(m, hs)
    ensures forall p :: p in Claims(m, hs) ==> p in m && !m[p].Free?
  {
    forall p | p in Claims(m, hs)
      ensures p in m && !m[p].Free?
    {
      ClaimsAt(m, hs, p);
      hide Lives;
      var j :| 0 <= j < |hs| && p in Claim(m, hs[j]);
      assert Lives(m, hs[j]);
      LivePages(m, hs[j]);
    }
  }

  lemma BornRest(m: Mem, hs: seq<Hold>, m': Mem, h: Hold)
    requires AllLive(m, hs) && Lives(m', h) && Exchange(m, {}, m', Claim(m', h))
    ensures Claims(m', hs + [h]) == Claim(m', h) + Claims(m, hs)
  {
    forall p: nat
      ensures p in Claims(m', hs + [h]) <==> p in Claim(m', h) || p in Claims(m, hs)
    {
      ClaimsAt(m', hs + [h], p);
      ClaimsAt(m, hs, p);
      forall j: nat | j < |hs|
        ensures Claim(m', (hs + [h])[j]) == Claim(m, hs[j])
      {
        assert Lives(m, hs[j]);
        Untouched(m, hs[j], m', {}, Claim(m', h));
      }
      hide Claim, Lives, AllLive, Claims, Exchange;
      assert (hs + [h])[|hs|] == h;
      assert forall j: nat :: j < |hs| ==> (hs + [h])[j] == hs[j];
    }
  }

  lemma BornAccounted(first: Mem, m: Mem, hs: seq<Hold>, m': Mem, h: Hold)
    requires Accounted(first, m, hs) && Lives(m', h) && Exchange(m, {}, m', Claim(m', h))
    ensures Accounted(first, m', hs + [h])
  {
    Parts(first, m, hs);
    hide AllLive, Lives, Exchange;
    OneMore(m, hs, m', h);
    BornRest(m, hs, m', h);
    ClaimsUsed(m, hs);
    hide Claim, Claims;
    ExchangeBeside(m, {}, m', Claim(m', h), Claims(m, hs));
    assert {} + Claims(m, hs) == Claims(m, hs);
    ExchangeJoin(first, {}, m, Claims(m, hs), m', Claims(m', hs + [h]));
  }

  lemma GoneClaims(m: Mem, hs: seq<Hold>, i: nat, m': Mem, p: nat)
    requires i < |hs| && forall j :: 0 <= j < |hs| && j != i ==> Claim(m', hs[j]) == Claim(m, hs[j])
    ensures p in Claims(m', hs[..i] + hs[i + 1..]) <==> exists j :: 0 <= j < |hs| && j != i && p in Claim(m, hs[j])
  {
    var hs' := hs[..i] + hs[i + 1..];
    ClaimsAt(m', hs', p);
    hide Claim, Claims;
    if j :| 0 <= j < |hs'| && p in Claim(m', hs'[j]) {
      var l := if j < i then j else j + 1;
      assert hs'[j] == hs[l] && p in Claim(m, hs[l]);
    }
    if j :| 0 <= j < |hs| && j != i && p in Claim(m, hs[j]) {
      var l := if j < i then j else j - 1;
      assert hs'[l] == hs[j];
    }
  }

  lemma GoneRest(m: Mem, hs: seq<Hold>, i: nat, m': Mem)
    requires AllLive(m, hs) && i < |hs| && Exchange(m, Claim(m, hs[i]), m', {})
    ensures Claims(m', hs[..i] + hs[i + 1..]) == Rest(m, hs, i)
  {
    forall j: nat | j < |hs| && j != i
      ensures Claim(m', hs[j]) == Claim(m, hs[j])
    {
      ApartAt(m, hs, i, j);
      Untouched(m, hs[j], m', Claim(m, hs[i]), {});
    }
    hide Claim, Lives, Claims, Rest, Exchange;
    forall p: nat
      ensures p in Claims(m', hs[..i] + hs[i + 1..]) <==> p in Rest(m, hs, i)
    {
      GoneClaims(m, hs, i, m', p);
      RestAt(m, hs, i, p);
    }
  }

  lemma GoneAccounted(first: Mem, m: Mem, hs: seq<Hold>, i: nat, m': Mem)
    requires Accounted(first, m, hs) && i < |hs| && Exchange(m, Claim(m, hs[i]), m', {})
    ensures Accounted(first, m', hs[..i] + hs[i + 1..])
  {
    Parts(first, m, hs);
    hide Claim, Claims, Rest, AllLive, Lives, Exchange;
    OneLess(m, hs, i, m');
    RestBeside(m, hs, i, m', {});
    GoneRest(m, hs, i, m');
    assert {} + Rest(m, hs, i) == Rest(m, hs, i);
    ExchangeJoin(first, {}, m, Claims(m, hs), m', Claims(m', hs[..i] + hs[i + 1..]));
  }

  /** A step that in the end took nothing. */
  lemma IdleAccounted(first: Mem, m: Mem, hs: seq<Hold>, m': Mem)
    requires Accounted(first, m, hs) && Exchange(m, {}, m', {})
    ensures Accounted(first, m', hs)
  {
    forall j: nat | j < |hs|
      ensures Lives(m', hs[j]) && Claim(m', hs[j]) == Claim(m, hs[j])
    {
      assert Lives(m, hs[j]);
      Untouched(m, hs[j], m', {}, {});
    }
    SameClaims(m, m', hs);
    ClaimsUsed(m, hs);
    hide Claim, Claims, Lives;
    ExchangeBeside(m, {}, m', {}, Claims(m, hs));
    assert {} + Claims(m, hs) == Claims(m, hs);
    ExchangeJoin(first, {}, m, Claims(m, hs), m', Claims(m', hs));
  }

  lemma {:induction false} SameClaims(m: Mem, m': Mem, hs: seq<Hold>)
    requires forall j :: 0 <= j < |hs| ==> Claim(m', hs[j]) == Claim(m, hs[j])
    ensures Claims(m', hs) == Claims(m, hs)
    decreases |hs|
  {
    hide Claim;
    if hs != [] {
      SameClaims(m, m', hs[1..]);
    }
  }

  // ---- the calls

  ghost function HoldOf(p: Proc): Hold
    reads p
  {
    Hold(p.space, p.trapframe)
  }

  /** `p` is in order, apart from its pages. */
  ghost predicate Fields(p: Proc)
    reads p
  {
    p.space.root == p.pagetable && p.space.np == PageUp(p.sz)
  }

  /** growproc on process `p`. */
  method Grow(k: Kmem, p: Proc, n: int) returns (rc: int)
    requires k.Valid() && Lives(k.mem, HoldOf(p)) && Fields(p) && -0x8000_0000 <= n < 0x8000_0000
    modifies k, p
    ensures k.Valid() && Lives(k.mem, HoldOf(p)) && Fields(p)
    ensures Exchange(old(k.mem), old(Claim(k.mem, HoldOf(p))), k.mem, Claim(k.mem, HoldOf(p)))
    ensures rc != 0 ==> p.sz == old(p.sz)
    ensures rc == 0 ==> p.sz == if old(p.sz) + n >= 0 then old(p.sz) + n else old(p.sz)
  {
    hide Ok, Own, Exchange, Becomes, Keeps, SameLeaves, Fresh;
    ghost var first, had := k.mem, p.space;
    var sz;
    ghost var s;
    rc, sz, s := Growproc(k, p.pagetable, p.sz, n, p.space);
    SameFixed(first, had, k.mem, s);
    BecomesOwn(first, had, k.mem, s, p.trapframe);
    p.sz, p.space := sz, s;
  }

  /** exec in process `p`. */
  method ExecIn(k: Kmem, p: Proc, tramp: nat, headOk: bool, entry: nat, hdrs: seq<HdrRead>, file: seq<byte>, argv: seq<seq<byte>>)
      returns (rc: int)
    requires k.Valid() && Lives(k.mem, HoldOf(p)) && Fields(p) && |file| <= FILEMAX
    requires forall i :: 0 <= i < |hdrs| && hdrs[i].Got? ==> hdrs[i].ph.Wide()
    requires |argv| != MAXARG && forall i :: 0 <= i < |argv| ==> |argv[i]| < PGSIZE
    modifies k, p
    ensures k.Valid() && Lives(k.mem, HoldOf(p)) && Fields(p)
    ensures Exchange(old(k.mem), old(Claim(k.mem, HoldOf(p))), k.mem, Claim(k.mem, HoldOf(p)))
  {
    hide Ok, Own, Exchange, Ready, GoodHdrs, Size, Total;
    ghost var first, had := k.mem, HoldOf(p);
    ghost var us;
    rc, us := Exec.Exec(k, p, tramp, headOk, entry, hdrs, file, argv);
    if rc == -1 {
      IdleClaim(first, had, k.mem);
    } else {
      ExchangeBeside(first, Own(first, had.space), k.mem, Own(k.mem, p.space), {had.trap});
    }
  }

  lemma IdleClaim(m: Mem, h: Hold, m': Mem)
    requires Lives(m, h) && Exchange(m, {}, m', {})
    ensures Lives(m', h) && Exchange(m, Claim(m, h), m', Claim(m', h))
  {
    LivePages(m, h);
    Untouched(m, h, m', {}, {});
    hide Claim, Lives;
    ExchangeBeside(m, {}, m', {}, Claim(m, h));
    assert {} + Claim(m, h) == Claim(m, h);
  }

  /** allocproc: a process with an empty address space. */
  method Start(k: Kmem, tramp: nat) returns (p: Proc?)
    requires k.Valid()
    modifies k
    ensures k.Valid() && (p == null ==> Exchange(old(k.mem), {}, k.mem, {}))
    ensures p != null ==> fresh(p) && Lives(k.mem, HoldOf(p)) && Fields(p) && p.sz == 0
    ensures p != null ==> Exchange(old(k.mem), {}, k.mem, Claim(k.mem, HoldOf(p)))
  {
    hide Ok, Own, Exchange;
    var trap, pt, c := Allocproc(k, tramp);
    if pt == 0 {
      return null;
    }
    p := new Proc(k, pt, 0, trap, c);
  }

  /** fork: a child with the bytes and flags of the parent's pages in pages of its own. */
  method Fork(k: Kmem, p: Proc, tramp: nat) returns (c: Proc?)
    requires k.Valid() && Lives(k.mem, HoldOf(p)) && Fields(p)
    modifies k
    ensures k.Valid() && (c == null ==> Exchange(old(k.mem), {}, k.mem, {}))
    ensures c != null ==> fresh(c) && Lives(k.mem, HoldOf(c)) && Fields(c) && c.sz == p.sz
    ensures c != null ==> Exchange(old(k.mem), {}, k.mem, Claim(k.mem, HoldOf(c))) && Copied(k.mem, p.space, c.space, p.space.np)
  {
    hide Ok, Own, Exchange, Becomes, Keeps, Aside, Copied;
    ghost var first := k.mem;
    var trap, pt;
    ghost var s;
    trap, pt, s := Allocproc(k, tramp);
    if pt == 0 {
      return null;
    }
    ghost var m1, s1 := k.mem, s;
    NewAside(first, p.space, m1, Own(m1, s) + {trap}, s);
    var rc;
    rc, s := Uvmcopy(k, p.pagetable, pt, p.sz, p.space, s);
    SameFixed(m1, s1, k.mem, s);
    BecomesOwn(m1, s1, k.mem, s, trap);
    ghost var m2 := k.mem;
    ExchangeJoin(first, {}, m1, Own(m1, s1) + {trap}, m2, Own(m2, s) + {trap});
    if rc != 0 {
      Freeproc(k, trap, pt, 0, s);
      ExchangeJoin(first, {}, m2, Own(m2, s) + {trap}, k.mem, {});
      return null;
    }
    c := new Proc(k, pt, p.sz, trap, s);
  }

  // ---- runs

  /** What can happen: a first process, a fork, a change of size, an exec, or a zombie freed. */
  datatype Op =
    | Boot(tramp: nat)
    | ForkOf(i: nat, tramp: nat)
    | Resize(i: nat, n: int)
    | Execs(i: nat, tramp: nat, headOk: bool, entry: nat, hdrs: seq<HdrRead>, file: seq<byte>, argv: seq<seq<byte>>)
    | Exits(i: nat)

  predicate Callable(op: Op) {
    match op
    case Resize(_, n) => -0x8000_0000 <= n < 0x8000_0000
    case Execs(_, _, _, _, hdrs, file, argv) =>
      && |file| <= FILEMAX && |argv| != MAXARG
      && (forall i :: 0 <= i < |hdrs| && hdrs[i].Got? ==> hdrs[i].ph.Wide())
      && (forall i :: 0 <= i < |argv| ==> |argv[i]| < PGSIZE)
    case _ => true
  }

  /** The process table and what its processes hold. */
  ghost predicate Tabled(ps: seq<Proc>, hs: seq<Hold>)
    reads ps
  {
    && |ps| == |hs|
    && (forall i :: 0 <= i < |ps| ==> HoldOf(ps[i]) == hs[i] && Fields(ps[i]))
    && (forall i, j :: 0 <= i < j < |ps| ==> ps[i] != ps[j])
  }

  method ResizeAt(k: Kmem, ps: seq<Proc>, i: nat, n: int, ghost hs: seq<Hold>, ghost first: Mem) returns (ghost hs': seq<Hold>)
    requires k.Valid() && Tabled(ps, hs) && Accounted(first, k.mem, hs) && i < |ps| && Callable(Resize(i, n))
    modifies k, ps
    ensures k.Valid() && Tabled(ps, hs') && Accounted(first, k.mem, hs')
  {
    hide Exchange, Claim, Claims, Lives, Accounted;
    ghost var m := k.mem;
    LiveAt(first, m, hs, i);
    var rc := Grow(k, ps[i], n);
    hs' := hs[i := HoldOf(ps[i])];
    MovedAccounted(first, m, hs, i, k.mem, HoldOf(ps[i]));
  }

  method ExecAt(k: Kmem, ps: seq<Proc>, op: Op, ghost hs: seq<Hold>, ghost first: Mem) returns (ghost hs': seq<Hold>)
    requires k.Valid() && Tabled(ps, hs) && Accounted(first, k.mem, hs) && op.Execs? && op.i < |ps| && Callable(op)
    modifies k, ps
    ensures k.Valid() && Tabled(ps, hs') && Accounted(first, k.mem, hs')
  {
    hide Exchange, Claim, Claims, Lives, Accounted;
    ghost var m := k.mem;
    LiveAt(first, m, hs, op.i);
    var rc := ExecIn(k, ps[op.i], op.tramp, op.headOk, op.entry, op.hdrs, op.file, op.argv);
    hs' := hs[op.i := HoldOf(ps[op.i])];
    MovedAccounted(first, m, hs, op.i, k.mem, HoldOf(ps[op.i]));
  }

  /** One process moves; `first` is the memory the run began with. */
  method Step(k: Kmem, ps: seq<Proc>, op: Op, ghost hs: seq<Hold>, ghost first: Mem) returns (ps': seq<Proc>, ghost hs': seq<Hold>)
    requires k.Valid() && Tabled(ps, hs) && Accounted(first, k.mem, hs) && Callable(op)
    modifies k, ps
    ensures k.Valid() && Tabled(ps', hs') && Accounted(first, k.mem, hs')
    ensures forall i :: 0 <= i < |ps'| ==> ps'[i] in ps || fresh(ps'[i])
  {
    hide Exchange, Claim, Claims, Lives, Accounted;
    ghost var m := k.mem;
    ps', hs' := ps, hs;
    match op {
      case Boot(tramp) =>
        var p := Start(k, tramp);
        ps', hs' := Added(k, ps, p, hs, m, first);
      case ForkOf(i, tramp) =>
        if i < |ps| {
          LiveAt(first, m, hs, i);
          var c := Fork(k, ps[i], tramp);
          ps', hs' := Added(k, ps, c, hs, m, first);
        }
      case Resize(i, n) =>
        if i < |ps| { hs' := ResizeAt(k, ps, i, n, hs, first); }
      case Execs(i, _, _, _, _, _, _) =>
        if i < |ps| { hs' := ExecAt(k, ps, op, hs, first); }
      case Exits(i) =>
        if i < |ps| {
          LiveAt(first, m, hs, i);
          Exit(k, ps[i]);
          GoneAccounted(first, m, hs, i, k.mem);
          ps', hs' := ps[..i] + ps[i + 1..], hs[..i] + hs[i + 1..];
        }
    }
  }

  /** freeproc. */
  method Exit(k: Kmem, p: Proc)
    requires k.Valid() && Lives(k.mem, HoldOf(p)) && Fields(p)
    modifies k
    ensures k.Valid() && Exchange(old(k.mem), old(Claim(k.mem, HoldOf(p))), k.mem, {})
  {
    hide Ok, Own, Exchange;
    Freeproc(k, p.trapframe, p.pagetable, p.sz, p.space);
  }

  /** A new process, if there is one, enters the table. */
  method Added(k: Kmem, ps: seq<Proc>, p: Proc?, ghost hs: seq<Hold>, ghost m: Mem, ghost first: Mem)
      returns (ps': seq<Proc>, ghost hs': seq<Hold>)
    requires Tabled(ps, hs) && Accounted(first, m, hs) && p !in ps
    requires p == null ==> Exchange(m, {}, k.mem, {})
    requires p != null ==> Lives(k.mem, HoldOf(p)) && Fields(p) && Exchange(m, {}, k.mem, Claim(k.mem, HoldOf(p)))
    ensures Tabled(ps', hs') && Accounted(first, k.mem, hs')
    ensures ps' == if p == null then ps else ps + [p]
  {
    hide Exchange, Claim, Claims, Lives, AllLive;
    if p == null {
      IdleAccounted(first, m, hs, k.mem);
      return ps, hs;
    }
    BornAccounted(first, m, hs, k.mem, HoldOf(p));
    return ps + [p], hs + [HoldOf(p)];
  }

  /** Any interleaving of the calls of any number of processes: at its end every page that was
      free is free or in the hands of exactly one process, and every other page is as it was. */
  method Run(k: Kmem, ops: seq<Op>) returns (ps: seq<Proc>, ghost hs: seq<Hold>)
    requires k.Valid() && forall t :: 0 <= t < |ops| ==> Callable(ops[t])
    modifies k
    ensures k.Valid() && Tabled(ps, hs) && Accounted(old(k.mem), k.mem, hs)
    ensures forall i :: 0 <= i < |ps| ==> fresh(ps[i])
  {
    hide Callable;
    ps, hs := [], [];
    Nothing(k.mem);
    for t := 0 to |ops|
      invariant k.Valid() && Tabled(ps, hs) && Accounted(old(k.mem), k.mem, hs)
      invariant forall i :: 0 <= i < |ps| ==> fresh(ps[i])
    {
      hide Accounted, Tabled;
      ps, hs := Step(k, ps, ops[t], hs, old(k.mem));
    }
  }

  /** And once all have exited, the free pages are exactly those free before. */
  method Lifetimes(k: Kmem, ops: seq<Op>)
    requires k.Valid() && forall t :: 0 <= t < |ops| ==> Callable(ops[t])
    modifies k
    ensures k.Valid() && k.mem.Keys == old(k.mem).Keys
    ensures forall p :: p in k.mem ==> if old(k.mem)[p].Free? then k.mem[p].Free? else k.mem[p] == old(k.mem)[p]
  {
    var ps;
    ghost var hs;
    ps, hs := Run(k, ops);
    hide Accounted, Tabled;
    ExitAll(k, ps, hs, old(k.mem));
    AllGone(old(k.mem), k.mem);
  }

  lemma AllGone(first: Mem, m: Mem)
    requires Accounted(first, m, [])
    ensures m.Keys == first.Keys && forall p :: p in m ==> if first[p].Free? then m[p].Free? else m[p] == first[p]
  {
  }

  method ExitAll(k: Kmem, ps: seq<Proc>, ghost hs: seq<Hold>, ghost first: Mem)
    requires k.Valid() && Tabled(ps, hs) && Accounted(first, k.mem, hs)
    modifies k
    ensures k.Valid() && Accounted(first, k.mem, [])
    decreases |ps|
  {
    hide *;
    TabledTail(ps, hs);
    if ps == [] {
      return;
    }
    ghost var m := k.mem;
    LiveAt(first, m, hs, 0);
    Exit(k, ps[0]);
    GoneAccounted(first, m, hs, 0, k.mem);
    assert hs[..0] + hs[1..] == hs[1..];
    ExitAll(k, ps[1..], hs[1..], first);
  }

  lemma TabledTail(ps: seq<Proc>, hs: seq<Hold>)
    requires Tabled(ps, hs)
    ensures |hs| == |ps| && (ps != [] ==> HoldOf(ps[0]) == hs[0] && Fields(ps[0]) && Tabled(ps[1..], hs[1..]))
  {
  }

  lemma LiveAt(first: Mem, m: Mem, hs: seq<Hold>, i: nat)
    requires Accounted(first, m, hs) && i < |hs|
    ensures Lives(m, hs[i])
  {
    hide Exchange, Claim, Lives;
  }
}
