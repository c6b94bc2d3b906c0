/**
  The LRU list of the buffer cache: kernel/fs/xv6fs/bio.c links all buffers in
  a circle through `prev` and `next` with the sentinel `head`. Here it is on
  arrays, buffer i at index i and the head at index NBUF.
 */
module BcacheList {

  import opened Common
  import opened Bcache

  const NBUF: nat := 30
  const HEAD: nat := NBUF

  function Succ(c: seq<nat>, i: nat): nat
    requires i < |c|
  {
    if i + 1 < |c| then c[i + 1] else c[0]
  }

  predicate LinkAt(nx: seq<nat>, pv: seq<nat>, c: seq<nat>, i: nat)
    requires |nx| == |pv| == NBUF + 1 && i < |c| && c[i] <= NBUF && Succ(c, i) <= NBUF
  {
    nx[c[i]] == Succ(c, i) && pv[Succ(c, i)] == c[i]
  }

  /** The circle, from the head, without repetition. */
  ghost predicate Circle(c: seq<nat>) {
    && c != [] && c[0] == HEAD
    && (forall i :: 0 <= i < |c| ==> c[i] <= NBUF)
    && (forall i, j :: 0 <= i < j < |c| ==> c[i] != c[j])
  }

  ghost predicate Linked(nx: seq<nat>, pv: seq<nat>, c: seq<nat>) {
    && |nx| == |pv| == NBUF + 1 && Circle(c)
    && forall i: nat {:trigger LinkAt(nx, pv, c, i)} :: i < |c| ==> LinkAt(nx, pv, c, i)
  }

  /** Taking position `k` out of the circle. */
  lemma Unlinked(nx: seq<nat>, pv: seq<nat>, c: seq<nat>, k: nat)
    requires Linked(nx, pv, c) && 1 <= k < |c|
    ensures nx[c[k]] <= NBUF && pv[c[k]] <= NBUF
    ensures Linked(nx[pv[c[k]] := nx[c[k]]], pv[nx[c[k]] := pv[c[k]]], c[..k] + c[k + 1..])
  {
    var b, d := c[k], c[..k] + c[k + 1..];
    assert LinkAt(nx, pv, c, k) && LinkAt(nx, pv, c, k - 1);
    var nx', pv' := nx[pv[b] := nx[b]], pv[nx[b] := pv[b]];
    forall i: nat | i < |d|
      ensures LinkAt(nx', pv', d, i)
    {
      assert LinkAt(nx, pv, c, if i < k then i else i + 1);
    }
  }

  /** Putting `b` right after the head. */
  lemma Inserted(nx: seq<nat>, pv: seq<nat>, c: seq<nat>, b: nat)
    requires Linked(nx, pv, c) && b < NBUF && b !in c
    ensures nx[HEAD] <= NBUF
    ensures Linked(nx[b := nx[HEAD]][HEAD := b], pv[b := HEAD][nx[HEAD] := b], [HEAD, b] + c[1..])
  {
    var d := [HEAD, b] + c[1..];
    assert LinkAt(nx, pv, c, 0);
    var nx', pv' := nx[b := nx[HEAD]][HEAD := b], pv[b := HEAD][nx[HEAD] := b];
    forall i: nat | i < |d|
      ensures LinkAt(nx', pv', d, i)
    {
      if i >= 1 {
        assert LinkAt(nx, pv, c, i - 1);
      }
    }
  }

  lemma CircleOf(order: seq<nat>)
    ensures ([HEAD] + order)[1..] == order
  {
  }

  /** All buffers, each once. */
  ghost predicate Whole(order: seq<nat>) {
    && |order| == NBUF && (forall i :: 0 <= i < |order| ==> order[i] < NBUF)
    && (forall b :: 0 <= b < NBUF ==> b in order)
    && (forall i, j :: 0 <= i < j < |order| ==> order[i] != order[j])
  }

  class Cache {
    const next: array<nat>
    const prev: array<nat>
    var bufs: seq<Buf>
    ghost var order: seq<nat>      // the buffers from head.next on

    ghost predicate Valid()
      reads this, next, prev
    {
      && next.Length == prev.Length == NBUF + 1 && next != prev && |bufs| == NBUF
      && Linked(next[..], prev[..], [HEAD] + order) && Whole(order)
    }

    /** binit: all buffers linked in, the last one first. */
    constructor ()
      ensures Valid() && fresh(next) && fresh(prev)
      ensures forall b :: 0 <= b < NBUF ==> Fresh(bufs[b]) && order[b] == NBUF - 1 - b
    {
      next := new nat[NBUF + 1](i => HEAD);
      prev := new nat[NBUF + 1](i => HEAD);
      bufs := seq(NBUF, i => Buf(0, 0, false, 0, None, []));
      order := [];
      new;
      assert next[HEAD] == HEAD && prev[HEAD] == HEAD;
      assert LinkAt(next[..], prev[..], [HEAD], 0);
      assert [HEAD] + order == [HEAD];
      var b := 0;
      while b < NBUF
        invariant 0 <= b <= NBUF && Linked(next[..], prev[..], [HEAD] + order) && |order| == b
        invariant forall i :: 0 <= i < b ==> order[i] == b - 1 - i
        invariant |bufs| == NBUF && forall c :: 0 <= c < NBUF ==> Fresh(bufs[c])
      {
        PushFront(b);
        b := b + 1;
      }
      forall c | 0 <= c < NBUF
        ensures c in order
      {
        assert order[NBUF - 1 - c] == c;
      }
    }

    /** The four assignments that put `b` right after the head. */
    method PushFront(b: nat)
      requires next.Length == prev.Length == NBUF + 1 && next != prev && b < NBUF && b !in order
      requires Linked(next[..], prev[..], [HEAD] + order)
      modifies next, prev, `order
      ensures Linked(next[..], prev[..], [HEAD] + order) && order == [b] + old(order)
    {
      ghost var nx: seq<nat>, pv: seq<nat> := next[..], prev[..];
      Inserted(nx, pv, [HEAD] + order, b);
      CircleOf(order);
      next[b] := next[HEAD];
      prev[b] := HEAD;
      prev[next[HEAD]] := b;
      next[HEAD] := b;
      assert next[..] == nx[b := nx[HEAD]][HEAD := b];
      assert prev[..] == pv[b := HEAD][nx[HEAD] := b];
      assert [HEAD, b] + order == [HEAD] + ([b] + order);
      order := [b] + order;
    }

    /** bget's first loop: the buffer that holds the block, or the head. */
    method FindCached(dev: nat, block: nat) returns (b: nat)
      requires Valid()
      ensures b == (match Hit(bufs, order, dev, block) case Some(c) => c case None => HEAD)
    {
      ghost var i := 0;
      ghost var c := [HEAD] + order;
      assert LinkAt(next[..], prev[..], c, 0);
      assert order[0..] == order;
      b := next[HEAD];
      while b != HEAD
        invariant 0 <= i <= NBUF && b == Succ(c, i) && Hit(bufs, order, dev, block) == Hit(bufs, order[i..], dev, block)
        decreases NBUF - i
      {
        assert b == order[i];
        if bufs[b].dev == dev && bufs[b].block == block {
          return;
        }
        assert order[i..][1..] == order[i + 1..];
        assert LinkAt(next[..], prev[..], c, i + 1);
        b := next[b];
        i := i + 1;
      }
    }

    /** bget's second loop: the last unused buffer, or the head. */
    method FindUnused() returns (b: nat)
      requires Valid()
      ensures b == (match Victim(bufs, order) case Some(c) => c case None => HEAD)
    {
      ghost var i := NBUF;
      ghost var c := [HEAD] + order;
      assert LinkAt(next[..], prev[..], c, NBUF);
      assert order[..NBUF] == order;
      b := prev[HEAD];
      while b != HEAD
        invariant 0 <= i <= NBUF && b == c[i] && Victim(bufs, order) == Victim(bufs, order[..i])
        decreases i
      {
        assert b == order[i - 1];
        if bufs[b].refcnt == 0 {
          return;
        }
        assert order[..i][..i - 1] == order[..i - 1];
        assert LinkAt(next[..], prev[..], c, i - 1);
        b := prev[b];
        i := i - 1;
      }
    }

    /** bget under bcache.lock: a hit takes a reference, a miss recycles. */
    method Bget(dev: nat, block: nat) returns (b: nat)
      requires Valid() && (Hit(bufs, order, dev, block).Some? || Victim(bufs, order).Some?)
      modifies `bufs
      ensures Valid() && b < NBUF
      ensures Hit(old(bufs), order, dev, block).Some? ==>
                Hit(old(bufs), order, dev, block).value == b && bufs == old(bufs)[b := old(bufs)[b].(refcnt := old(bufs)[b].refcnt + 1)]
      ensures Hit(old(bufs), order, dev, block).None? ==>
                Victim(old(bufs), order) == Some(b) && bufs == old(bufs)[b := old(bufs)[b].(dev := dev, block := block, valid := false, refcnt := 1)]
    {
      b := FindCached(dev, block);
      if b != HEAD {
        bufs := bufs[b := bufs[b].(refcnt := bufs[b].refcnt + 1)];
        return;
      }
      b := FindUnused();
      bufs := bufs[b := bufs[b].(dev := dev, block := block, valid := false, refcnt := 1)];
    }

    /** The end of brelse under bcache.lock: the last reference gone, the buffer
        moves to the front of the list. */
    method Brelse(b: nat)
      requires Valid() && b < NBUF && bufs[b].refcnt > 0
      modifies this, next, prev
      ensures Valid() && bufs == old(bufs)[b := old(bufs)[b].(refcnt := old(bufs)[b].refcnt - 1)]
      ensures order == if bufs[b].refcnt == 0 then ToFront(old(order), b) else old(order)
    {
      bufs := bufs[b := bufs[b].(refcnt := bufs[b].refcnt - 1)];
      if bufs[b].refcnt == 0 {
        ghost var was := order;
        assert b in order;
        ghost var k :| 0 <= k < |order| && order[k] == b;
        Unlink(b, k);
        WithoutAt(was, k);
        assert order == Without(was, b);
        PushFront(b);
        assert order == ToFront(was, b);
        FrontWhole(was, k, order);
      }
    }

    method Unlink(b: nat, ghost k: nat)
      requires next.Length == prev.Length == NBUF + 1 && next != prev && k < |order| && order[k] == b && b < NBUF
      requires Linked(next[..], prev[..], [HEAD] + order)
      modifies next, prev, `order
      ensures Linked(next[..], prev[..], [HEAD] + order) && order == old(order)[..k] + old(order)[k + 1..]
    {
      ghost var nx: seq<nat>, pv: seq<nat>, c := next[..], prev[..], [HEAD] + order;
      assert c[k + 1] == b;
      Unlinked(nx, pv, c, k + 1);
      prev[next[b]] := prev[b];
      next[prev[b]] := next[b];
      assert LinkAt(nx, pv, c, k + 1) && LinkAt(nx, pv, c, k);
      assert prev[..] == pv[nx[b] := pv[b]];
      assert next[..] == nx[pv[b] := nx[b]];
      assert c[..k + 1] + c[k + 2..] == [HEAD] + (order[..k] + order[k + 1..]);
      order := order[..k] + order[k + 1..];
    }
  }

  lemma FrontWhole(was: seq<nat>, k: nat, order: seq<nat>)
    requires Whole(was) && k < |was| && order == [was[k]] + (was[..k] + was[k + 1..])
    ensures Whole(order)
  {
    forall i: nat | i < |was|
      ensures order[i] == was[From(i, k)]
    {
    }
    forall b | 0 <= b < NBUF
      ensures b in order
    {
      assert b in was;
      var i :| 0 <= i < |was| && was[i] == b;
      var j := if i < k then i + 1 else if i == k then 0 else i;
      assert From(j, k) == i && order[j] == b;
    }
  }
}
