/**
  The file system as its callers see it: files are byte sequences, directories
  finite maps, and what a call may do to them.

  A file is two sequences: what reads see, and what the disk holds. They differ
  only after a write whose source faulted inside a block: its bytes are seen until
  the buffer is recycled, or saved when a later write goes to the same block.
 */
module FsNodes {
  import opened Common
  import opened FsLayout
  import opened FsEffects
  import opened FsSaved
  import opened DirFormat

  datatype Node = File(seen: seq<byte>, saved: seq<byte>) | Dir(names: map<seq<byte>, nat>)

  datatype Op =
    | Read(inum: nat, off: nat, n: nat, room: nat)                // the destination takes `room` bytes
    | Write(inum: nat, off: nat, src: seq<byte>, avail: nat)      // `avail` bytes of the source can be read
    | Truncate(inum: nat)
    | Make(inum: nat, dir: bool)                                  // ialloc finds this inode free; its type is set
    | Drop(inum: nat)                                             // iput of an inode without links: it is free again
    | Lookup(inum: nat, name: seq<byte>)
    | Link(inum: nat, name: seq<byte>, target: nat)
    | Unlink(inum: nat, name: seq<byte>)
    | Recycle(block: nat)                                         // the buffer of a block is taken for another

  /** What a call returns: a number and, for a read, the bytes delivered. `ok` is
      false where the source panics. */
  datatype Outcome = Outcome(ok: bool, r: int, data: seq<byte>)

  /** The types of the inodes: `dirs` are directories, `free` are free, the others files. */
  datatype Types = Types(dirs: set<nat>, free: set<nat>, count: nat)

  /** The calls the system makes: files and directories each get their own, and both can
      be read. ialloc takes the first free inode. */
  predicate Callable(op: Op, ty: Types) {
    match op
    case Read(i, off, n, _) => i < ty.count && i !in ty.free && off < U32 && n < U32
    case Write(i, off, src, avail) => IsFile(ty, i) && off < U32 && |src| < U32 && avail <= |src|
    case Truncate(i) => IsFile(ty, i)
    case Make(i, _) => i < ty.count && 0 < i && i in ty.free && forall j :: j in ty.free && 0 < j ==> i <= j
    case Drop(i) => i < ty.count && i !in ty.free
    case Lookup(d, name) => d < ty.count && d in ty.dirs && |name| == DIRSIZ
    case Link(d, name, target) => d < ty.count && d in ty.dirs && |name| == DIRSIZ && 0 < target < 0x1_0000
    case Unlink(d, name) => d < ty.count && d in ty.dirs && |name| == DIRSIZ
    case Recycle(_) => true
  }

  predicate IsFile(ty: Types, i: nat) {
    i < ty.count && i !in ty.dirs && i !in ty.free
  }

  function After(ty: Types, op: Op): Types {
    match op
    case Make(i, dir) => Types(if dir then ty.dirs + {i} else ty.dirs, ty.free - {i}, ty.count)
    case Drop(i) => Types(ty.dirs - {i}, ty.free + {i}, ty.count)
    case _ => ty
  }

  /** The types before the `t`-th call. */
  function TypesAt(ty: Types, ops: seq<Op>, t: nat): Types
    requires t <= |ops|
  {
    if t == 0 then ty else After(TypesAt(ty, ops, t - 1), ops[t - 1])
  }

  predicate Legal(ops: seq<Op>, ty: Types) {
    forall t: nat :: t < |ops| ==> Callable(ops[t], TypesAt(ty, ops, t))
  }

  /** Byte `x` on the disk after `r` bytes of `src` have been written at `off`: each block
      written goes there whole. */
  function SavedByte(f: Node, off: nat, src: seq<byte>, r: nat, x: nat): byte
    requires f.File? && r <= |src|
  {
    if off <= x < off + r then src[x - off]
    else if InBlocks(off, r, x) && x < |f.seen| then f.seen[x]
    else if x < |f.saved| then f.saved[x]
    else 0
  }

  /** A write that counts `r` bytes; `stray` reached the buffers. */
  ghost predicate Written(f: Node, f': Node, off: nat, src: seq<byte>, r: int, stray: int) {
    && f.File? && f'.File?
    && 0 <= r <= stray <= |src| && off <= |f.seen|
    && f'.seen == Splice(f.seen, off, src[..stray])[..Max(|f.seen|, off + r)]
    && |f'.saved| == |f'.seen|
    && forall x :: 0 <= x < |f'.saved| ==> f'.saved[x] == SavedByte(f, off, src, r, x)
  }

  /** Block `bn` of the file reads as it is on the disk. */
  function Reread(f: Node, bn: nat): Node
    requires f.File? && |f.seen| == |f.saved|
  {
    File(seq(|f.seen|, x requires 0 <= x < |f.seen| => if x / BSIZE == bn then f.saved[x] else f.seen[x]), f.saved)
  }

  ghost predicate Reverts(ns: seq<Node>, ns': seq<Node>, i: nat, bn: nat) {
    i < |ns| && ns[i].File? && |ns[i].seen| == |ns[i].saved| && ns' == ns[i := Reread(ns[i], bn)]
  }

  /** What a call finds of the blocks it needs, before it begins. */
  datatype Means =
    | Enough
    | Short(at: nat)    // blocks for the first `at` bytes only
    | NoBlock           // fewer free blocks than are missing on the way to a name, or to the end
    | NoPlace           // enough to look for a name, but no slot for another and no block for one
    | NoEnd             // enough to find a name, but not to read on to the end

  /** The bytes that a read of the file or directory finds: of a directory, entries that
      bind its names. */
  ghost predicate Shown(f: Node, c: seq<byte>) {
    match f
    case File(seen, _) => c == seen
    case Dir(names) => exists at :: IsDir(c, at) && Bindings(c, at) == names
  }

  /** What a read of bytes `c` returns. */
  predicate Delivered(c: seq<byte>, off: nat, n: nat, room: nat, out: Outcome, means: Means) {
    if off > |c| || off + n >= U32 then out == Outcome(true, 0, []) && means == Enough
    else
      && |out.data| <= n && off + |out.data| <= |c| && out.data == c[off..off + |out.data|]
      && (out.r == |out.data| <= room || out.r == -1)
      && (out.r == -1 ==> means == Enough && room < n && off + room < |c|)
      && (means == Enough && (n <= room || |c| <= off + room) ==> out.r == n || off + out.r == |c|)
      && (means == Enough && room < n && off + room < |c| ==> out.r == -1)
      && (means != Enough ==> means.Short? && out.r == means.at < n && off + out.r < |c|)
  }

  /** One call. */
  ghost predicate Step(ns: seq<Node>, op: Op, out: Outcome, means: Means, ns': seq<Node>) {
    match op
    case Read(i, off, n, room) =>
      && i < |ns| && ns' == ns && out.ok
      && exists c :: Shown(ns[i], c) && Delivered(c, off, n, room, out, means)
    case Write(i, off, src, avail) =>
      && i < |ns| == |ns'| && ns[i].File? && out.ok && ns' == ns[i := ns'[i]] && avail <= |src|
      && (out.r == -1 <==> off > |ns[i].seen| || off + |src| >= U32 || off + |src| > MAXFILE * BSIZE)
      && (out.r == -1 ==> ns' == ns)
      && (out.r != -1 ==> Written(ns[i], ns'[i], off, src, out.r, if means == Enough then avail else out.r))
      && (out.r != -1 && means == Enough ==> out.r == Whole(off, |src|, avail))
      && (out.r != -1 && means != Enough ==> means.Short? && out.r == means.at < |src| && out.r <= avail)
    case Truncate(i) => i < |ns| && ns[i].File? && out.ok && ns' == ns[i := File([], [])]
    case Make(i, dir) => i < |ns| && ns[i] == File([], []) && out.ok && ns' == ns[i := if dir then Dir(map[]) else File([], [])]
    case Drop(i) => i < |ns| && out.ok && ns' == ns[i := File([], [])]
    case Lookup(d, name) =>
      && d < |ns| && ns[d].Dir? && ns' == ns
      && (out.ok <==> means == Enough)
      && (out.ok ==> out.r == if Canon(name) in ns[d].names then ns[d].names[Canon(name)] else 0)
    case Link(d, name, target) =>
      && d < |ns| && ns[d].Dir?
      && (out.ok <==> means != NoBlock)
      && (out.ok ==> out.r == if Canon(name) in ns[d].names || means == NoPlace then -1 else 0)
      && ns' == if out.ok && out.r == 0 then ns[d := Dir(ns[d].names[Canon(name) := target])] else ns
    case Unlink(d, name) =>
      && d < |ns| && ns[d].Dir?
      && (out.ok <==> means == Enough)
      && ns' == if means == NoBlock then ns else ns[d := Dir(ns[d].names - {Canon(name)})]
    case Recycle(_) => out.ok && (ns' == ns || exists i: nat, bn: nat :: Reverts(ns, ns', i, bn))
  }

  /** Without holes only a write, or a name to be added, can want a block. */
  predicate Smooth(op: Op, means: Means) {
    op.Write? || means == Enough || (op.Link? && means == NoPlace)
  }

  ghost predicate Steps(trace: seq<seq<Node>>, ops: seq<Op>, outs: seq<Outcome>, means: seq<Means>) {
    && |trace| == |outs| + 1 && |means| == |outs| <= |ops|
    && forall t :: 0 <= t < |outs| ==> Step(trace[t], ops[t], outs[t], means[t], trace[t + 1])
  }

  lemma StepsMore(trace: seq<seq<Node>>, ops: seq<Op>, outs: seq<Outcome>, means: seq<Means>, out: Outcome, mean: Means, ns: seq<Node>)
    requires Steps(trace, ops, outs, means) && |outs| < |ops| && |trace| == |outs| + 1 && Step(trace[|outs|], ops[|outs|], out, mean, ns)
    ensures Steps(trace + [ns], ops, outs + [out], means + [mean])
  {
    hide Step;
  }

  // ---- what follows

  /** What reads see of a file is what is on the disk. */
  predicate Tidied(ns: seq<Node>) {
    forall i :: 0 <= i < |ns| ==> ns[i].File? ==> ns[i].seen == ns[i].saved
  }

  /** A write leaves file and disk apart exactly when it has the blocks it needs and a byte
      of its source, in the block where the copy faults, is not what was there. */
  lemma StrayExactly(ns: seq<Node>, op: Op, out: Outcome, mean: Means, ns': seq<Node>)
    requires op.Write? && Step(ns, op, out, mean, ns') && ns[op.inum].seen == ns[op.inum].saved
    ensures var c := ns[op.inum].seen;
            ns'[op.inum].seen == ns'[op.inum].saved <==>
            || op.off > |c| || op.off + |op.src| >= U32 || op.off + |op.src| > MAXFILE * BSIZE
            || mean != Enough
            || forall x :: op.off + Whole(op.off, |op.src|, op.avail) <= x < op.off + op.avail && x < |c| ==> op.src[x - op.off] == c[x]
  {
    if out.r != -1 {
      WrittenApart(ns[op.inum], ns'[op.inum], op.off, op.src, out.r, if mean == Enough then op.avail else out.r);
    }
  }

  lemma WrittenApart(f: Node, f': Node, off: nat, src: seq<byte>, r: nat, stray: nat)
    requires Written(f, f', off, src, r, stray) && f.seen == f.saved
    ensures f'.seen == f'.saved <==> forall x :: off + r <= x < off + stray && x < |f.seen| ==> src[x - off] == f.seen[x]
  {
    forall x | 0 <= x < |f'.seen|
      ensures f'.seen[x] == (if off <= x < off + stray then src[x - off] else f.seen[x])
      ensures f'.saved[x] == (if off <= x < off + r then src[x - off] else f.seen[x])
    {
    }
    if f'.seen == f'.saved {
      forall x | off + r <= x < off + stray && x < |f.seen|
        ensures src[x - off] == f.seen[x]
      {
        assert f'.seen[x] == f'.saved[x];
      }
    }
  }

  lemma TidyStep(ns: seq<Node>, op: Op, out: Outcome, mean: Means, ns': seq<Node>)
    requires Step(ns, op, out, mean, ns') && Tidied(ns) && (op.Write? ==> op.avail == |op.src|)
    ensures Tidied(ns')
    ensures op.Recycle? ==> ns' == ns
  {
    if op.Write? { StrayExactly(ns, op, out, mean, ns'); }
    forall i: nat, bn: nat | Reverts(ns, ns', i, bn)
      ensures ns' == ns
    {
      assert Reread(ns[i], bn).seen == ns[i].seen;
    }
  }

  /** Where no source faults, files are plain byte sequences: what is seen is what is
      saved throughout, and recycling a buffer changes nothing. */
  lemma {:induction false} Plain(trace: seq<seq<Node>>, ops: seq<Op>, outs: seq<Outcome>, means: seq<Means>, t: nat)
    requires Steps(trace, ops, outs, means) && Tidied(trace[0]) && t < |trace|
    requires forall u :: 0 <= u < t && ops[u].Write? ==> ops[u].avail == |ops[u].src|
    ensures Tidied(trace[t])
    ensures t < |outs| && ops[t].Recycle? ==> trace[t + 1] == trace[t]
  {
    hide Step;
    if t > 0 {
      Plain(trace, ops, outs, means, t - 1);
      TidyStep(trace[t - 1], ops[t - 1], outs[t - 1], means[t - 1], trace[t]);
    }
    if t < |outs| && ops[t].Recycle? {
      TidyStep(trace[t], ops[t], outs[t], means[t], trace[t + 1]);
    }
  }

  /** The call changes the bytes of its file. */
  predicate Rewrites(op: Op) {
    op.Write? || op.Truncate? || op.Make? || op.Drop?
  }

  /** File `i` holds `src` at `off`, seen and saved. */
  predicate Holds(ns: seq<Node>, i: nat, off: nat, src: seq<byte>) {
    && i < |ns| && ns[i].File? && off + |src| <= |ns[i].seen| == |ns[i].saved|
    && ns[i].seen[off..off + |src|] == src && ns[i].saved[off..off + |src|] == src
  }

  lemma WriteHolds(ns: seq<Node>, op: Op, out: Outcome, mean: Means, ns': seq<Node>)
    requires op.Write? && Step(ns, op, out, mean, ns') && out.r == |op.src|
    ensures Holds(ns', op.inum, op.off, op.src)
  {
    var f' := ns'[op.inum];
    assert op.src[..out.r] == op.src;
    assert f'.seen[op.off..op.off + |op.src|] == op.src;
    assert f'.saved[op.off..op.off + |op.src|] == op.src;
  }

  lemma StillHolds(ns: seq<Node>, op: Op, out: Outcome, mean: Means, ns': seq<Node>, i: nat, off: nat, src: seq<byte>)
    requires Step(ns, op, out, mean, ns') && Holds(ns, i, off, src)
    requires Rewrites(op) ==> op.inum != i
    ensures Holds(ns', i, off, src)
  {
    if op.Recycle? && ns' != ns {
      var j: nat, bn: nat :| Reverts(ns, ns', j, bn);
      if j == i {
        var f := Reread(ns[i], bn);
        assert forall x :: off <= x < off + |src| ==> f.seen[x] == ns[i].seen[off..off + |src|][x - off] == src[x - off];
        assert f.seen[off..off + |src|] == src;
      }
    }
  }

  /** A write counted in full stays: until the file is written or truncated again its bytes
      are there, whatever other calls are made and whatever buffers are recycled. */
  lemma {:induction false} Durable(trace: seq<seq<Node>>, ops: seq<Op>, outs: seq<Outcome>, means: seq<Means>, w: nat, t: nat)
    requires Steps(trace, ops, outs, means) && w < t < |trace|
    requires ops[w].Write? && outs[w].r == |ops[w].src|
    requires forall u :: w < u < t && Rewrites(ops[u]) ==> ops[u].inum != ops[w].inum
    ensures Holds(trace[t], ops[w].inum, ops[w].off, ops[w].src)
    decreases t
  {
    hide Step;
    if t == w + 1 {
      WriteHolds(trace[w], ops[w], outs[w], means[w], trace[t]);
    } else {
      Durable(trace, ops, outs, means, w, t - 1);
      StillHolds(trace[t - 1], ops[t - 1], outs[t - 1], means[t - 1], trace[t], ops[w].inum, ops[w].off, ops[w].src);
    }
  }

  /** And it is read back, whole or in part: whatever range a later read delivers, where it
      overlaps the write it delivers the bytes written. */
  lemma ReadAfterWrite(trace: seq<seq<Node>>, ops: seq<Op>, outs: seq<Outcome>, means: seq<Means>, w: nat, t: nat, x: nat)
    requires Steps(trace, ops, outs, means) && w < t < |outs|
    requires ops[w].Write? && outs[w].r == |ops[w].src| && ops[t].Read? && ops[t].inum == ops[w].inum
    requires forall u :: w < u < t && Rewrites(ops[u]) ==> ops[u].inum != ops[w].inum
    requires ops[t].off <= x < ops[t].off + |outs[t].data| && ops[w].off <= x < ops[w].off + |ops[w].src|
    ensures outs[t].data[x - ops[t].off] == ops[w].src[x - ops[w].off]
  {
    Durable(trace, ops, outs, means, w, t);
    assert Step(trace[t], ops[t], outs[t], means[t], trace[t + 1]);
    assert Shown(trace[t][ops[t].inum], trace[t][ops[t].inum].seen);
    var c, off, src := trace[t][ops[t].inum].seen, ops[w].off, ops[w].src;
    assert c[off..off + |src|][x - off] == c[x];
  }

  /** A read of a file whose blocks are there or can be had, into memory that takes them,
      delivers all the bytes asked for, or those up to the end of the file. */
  lemma ReadWhole(trace: seq<seq<Node>>, ops: seq<Op>, outs: seq<Outcome>, means: seq<Means>, t: nat)
    requires Steps(trace, ops, outs, means) && t < |outs| && ops[t].Read? && means[t] == Enough && ops[t].n <= ops[t].room
    requires ops[t].inum < |trace[t]| && trace[t][ops[t].inum].File?
    ensures var c, off, n := trace[t][ops[t].inum].seen, ops[t].off, ops[t].n;
            if off > |c| || off + n >= U32 then outs[t].r == 0 && outs[t].data == []
            else
              && outs[t].r == |outs[t].data| <= n && off + outs[t].r <= |c|
              && (outs[t].r == n || off + outs[t].r == |c|)
              && outs[t].data == c[off..off + outs[t].r]
  {
    assert Step(trace[t], ops[t], outs[t], means[t], trace[t + 1]);
  }

  /** No call on one file or directory is noticed by another. */
  lemma Unnoticed(ns: seq<Node>, op: Op, out: Outcome, mean: Means, ns': seq<Node>, j: nat)
    requires Step(ns, op, out, mean, ns') && j < |ns| && !op.Recycle? && op.inum != j
    ensures |ns'| == |ns| && ns'[j] == ns[j]
  {
  }

  /** The four calls of mkdir, none of them refused: a directory with its two names, bound in
      its parent. */
  lemma Mkdir(trace: seq<seq<Node>>, ops: seq<Op>, outs: seq<Outcome>, means: seq<Means>, d: nat, i: nat,
              dot: seq<byte>, dotdot: seq<byte>, name: seq<byte>)
    requires Steps(trace, ops, outs, means) && |ops| == |outs| == 4 && d != i && d < |trace[0]| && trace[0][d].Dir?
    requires ops[0] == Make(i, true) && ops[1] == Link(i, dot, i) && ops[2] == Link(i, dotdot, d) && ops[3] == Link(d, name, i)
    requires forall t :: 1 <= t < 4 ==> outs[t].ok && outs[t].r == 0
    ensures i < |trace[0]|
    ensures trace[4] == trace[0][i := Dir(map[Canon(dot) := i][Canon(dotdot) := d])][d := Dir(trace[0][d].names[Canon(name) := i])]
  {
    hide Canon, Step;
    MadeDir(trace[0], i, outs[0], means[0], trace[1]);
    LinkDone(trace[1], i, dot, i, outs[1], means[1], trace[2]);
    LinkDone(trace[2], i, dotdot, d, outs[2], means[2], trace[3]);
    LinkDone(trace[3], d, name, i, outs[3], means[3], trace[4]);
  }

  lemma MadeDir(ns: seq<Node>, i: nat, out: Outcome, mean: Means, ns': seq<Node>)
    requires Step(ns, Make(i, true), out, mean, ns')
    ensures i < |ns| && ns' == ns[i := Dir(map[])]
  {
  }

  lemma LinkDone(ns: seq<Node>, d: nat, name: seq<byte>, target: nat, out: Outcome, mean: Means, ns': seq<Node>)
    requires Step(ns, Link(d, name, target), out, mean, ns') && out.ok && out.r == 0
    ensures d < |ns| && ns[d].Dir? && ns' == ns[d := Dir(ns[d].names[Canon(name) := target])]
  {
    hide Canon;
  }
}
