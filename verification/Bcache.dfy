/**
  The buffer cache (kernel/fs/xv6fs/bio.c) used by any number of threads, as
  interleaved steps: bget and the end of brelse run under bcache.lock, a buffer
  belongs to the thread that has its sleep lock. `order` is the LRU list.
 */
module Bcache {

  import opened Common

  type Data = seq<bv8>
  type Key = (nat, nat)          // device and block number

  /** binit leaves every buffer at device 0, block 0. */
  const BOOTKEY: Key := (0, 0)

  datatype Buf = Buf(dev: nat, block: nat, valid: bool, refcnt: nat, holder: Option<nat>, data: Data) {
    function Key(): Key {
      (dev, block)
    }
  }

  /** What a thread is doing with which buffer. */
  datatype Phase =
    | Idle
    | Waiting(b: nat)               // bget has taken a reference; acquiresleep to come
    | Locked(b: nat)                // has the sleep lock; bread may have to fill the buffer
    | Ready(b: nat, dirty: bool)    // bread returned; dirty if changed since the last bwrite
    | Leaving(b: nat)               // brelse has dropped the sleep lock; the reference is still held

  /** From `refs` on, history: who has a reference, when each buffer last became
      unused, and whether its last release left it with bytes that are not the disk's. */
  datatype State = State(bufs: seq<Buf>, order: seq<nat>, disk: map<Key, Data>, phase: seq<Phase>,
                         refs: seq<set<nat>>, stamp: seq<nat>, clock: nat, left: seq<bool>)

  datatype Action =
    | Get(t: nat, dev: nat, block: nat)
    | Lock(t: nat)
    | Fill(t: nat)
    | Change(t: nat, data: Data)
    | Write(t: nat)
    | Unlock(t: nat)
    | Drop(t: nat)

  // ---- the two scans of bget, and the move of brelse

  /** From the front: the first buffer of the list that holds the block. */
  function Hit(bufs: seq<Buf>, order: seq<nat>, dev: nat, block: nat): (r: Option<nat>)
    requires forall i :: 0 <= i < |order| ==> order[i] < |bufs|
    ensures r.Some? ==> r.value in order && bufs[r.value].dev == dev && bufs[r.value].block == block
    ensures r.None? ==> forall b :: b in order ==> bufs[b].dev != dev || bufs[b].block != block
  {
    if order == [] then None
    else if bufs[order[0]].dev == dev && bufs[order[0]].block == block then Some(order[0])
    else Hit(bufs, order[1..], dev, block)
  }

  /** From the back: the first unused buffer. */
  function Victim(bufs: seq<Buf>, order: seq<nat>): (r: Option<nat>)
    requires forall i :: 0 <= i < |order| ==> order[i] < |bufs|
    ensures r.Some? ==> r.value in order && bufs[r.value].refcnt == 0
    ensures r.None? ==> forall b :: b in order ==> bufs[b].refcnt != 0
  {
    if order == [] then None
    else if bufs[order[|order| - 1]].refcnt == 0 then Some(order[|order| - 1])
    else Victim(bufs, order[..|order| - 1])
  }

  function Without(order: seq<nat>, b: nat): (r: seq<nat>)
    ensures forall x :: x in r <==> x in order && x != b
    ensures |r| <= |order|
  {
    if order == [] then [] else if order[0] == b then Without(order[1..], b) else [order[0]] + Without(order[1..], b)
  }

  function ToFront(order: seq<nat>, b: nat): seq<nat> {
    [b] + Without(order, b)
  }

  // ---- steps

  predicate Sized(s: State) {
    && |s.order| == |s.refs| == |s.stamp| == |s.left| == |s.bufs|
    && forall i :: 0 <= i < |s.order| ==> s.order[i] < |s.bufs|
  }

  predicate Enabled(s: State, a: Action) {
    && Sized(s) && a.t < |s.phase|
    && var p := s.phase[a.t];
       match a
       case Get(_, dev, block) =>
         && p.Idle? && (dev, block) in s.disk
         && (Hit(s.bufs, s.order, dev, block).Some? || Victim(s.bufs, s.order).Some?)
       case Lock(_) => p.Waiting? && p.b < |s.bufs| && s.bufs[p.b].holder.None?
       case Fill(_) => p.Locked? && p.b < |s.bufs| && s.bufs[p.b].Key() in s.disk
       case Change(_, _) => p.Ready? && p.b < |s.bufs|
       case Write(_) => p.Ready? && p.b < |s.bufs|
       case Unlock(_) => p.Ready? && p.b < |s.bufs| && s.bufs[p.b].Key() in s.disk
       case Drop(_) => p.Leaving? && p.b < |s.bufs| && s.bufs[p.b].refcnt > 0
  }

  function ApplyGet(s: State, t: nat, dev: nat, block: nat): State
    requires Enabled(s, Get(t, dev, block))
  {
    var hit := Hit(s.bufs, s.order, dev, block);
    var b := if hit.Some? then hit.value else Victim(s.bufs, s.order).value;
    var x := s.bufs[b];
    s.(bufs := s.bufs[b := if hit.Some? then x.(refcnt := x.refcnt + 1) else x.(dev := dev, block := block, valid := false, refcnt := 1)],
       phase := s.phase[t := Waiting(b)], refs := s.refs[b := s.refs[b] + {t}])
  }

  function ApplyDrop(s: State, t: nat): State
    requires Enabled(s, Drop(t))
  {
    var b := s.phase[t].b;
    var x := s.bufs[b];
    var s' := s.(bufs := s.bufs[b := x.(refcnt := x.refcnt - 1)], phase := s.phase[t := Idle], refs := s.refs[b := s.refs[b] - {t}]);
    if x.refcnt - 1 == 0 then s'.(order := ToFront(s.order, b), stamp := s.stamp[b := s.clock], clock := s.clock + 1) else s'
  }

  function Apply(s: State, a: Action): State
    requires Enabled(s, a)
  {
    match a
    case Get(t, dev, block) => ApplyGet(s, t, dev, block)
    case Drop(t) => ApplyDrop(s, t)
    case Lock(t) =>
      var b := s.phase[t].b;
      s.(bufs := s.bufs[b := s.bufs[b].(holder := Some(t))], phase := s.phase[t := Locked(b)])
    case Fill(t) =>
      var b := s.phase[t].b;
      var x := s.bufs[b];
      if x.valid then s.(phase := s.phase[t := Ready(b, false)])
      else s.(bufs := s.bufs[b := x.(data := s.disk[x.Key()], valid := true)], phase := s.phase[t := Ready(b, false)], left := s.left[b := false])
    case Change(t, data) =>
      var b := s.phase[t].b;
      s.(bufs := s.bufs[b := s.bufs[b].(data := data)], phase := s.phase[t := Ready(b, true)])
    case Write(t) =>
      var b := s.phase[t].b;
      s.(disk := s.disk[s.bufs[b].Key() := s.bufs[b].data], phase := s.phase[t := Ready(b, false)], left := s.left[b := false])
    case Unlock(t) =>
      var b := s.phase[t].b;
      s.(bufs := s.bufs[b := s.bufs[b].(holder := None)], phase := s.phase[t := Leaving(b)],
         left := s.left[b := s.bufs[b].data != s.disk[s.bufs[b].Key()]])
  }

  // ---- the invariant

  /** The list is a permutation of the buffers, the most recently released first. */
  ghost predicate Listed(s: State) {
    && Sized(s)
    && (forall b :: 0 <= b < |s.bufs| ==> b in s.order)
    && (forall i, j :: 0 <= i < j < |s.order| ==> s.stamp[s.order[i]] > s.stamp[s.order[j]])
    && (forall b :: 0 <= b < |s.bufs| ==> s.stamp[b] < s.clock)
  }

  predicate Refers(p: Phase, b: nat) {
    !p.Idle? && p.b == b
  }

  predicate Holds(p: Phase, b: nat) {
    (p.Locked? || p.Ready?) && p.b == b
  }

  predicate RefOk(s: State, t: nat, b: nat)
    requires Sized(s) && t < |s.phase| && b < |s.bufs|
  {
    && (t in s.refs[b] <==> Refers(s.phase[t], b))
    && (s.bufs[b].holder == Some(t) <==> Holds(s.phase[t], b))
    && ((s.phase[t].Ready? || s.phase[t].Leaving?) && s.phase[t].b == b ==> s.bufs[b].valid)
  }

  predicate BufOk(s: State, b: nat)
    requires Sized(s) && b < |s.bufs|
  {
    var x := s.bufs[b];
    && x.refcnt == |s.refs[b]| && (forall t :: t in s.refs[b] ==> t < |s.phase|)
    && (InUse(x) ==> x.Key() in s.disk)
    && (x.holder.Some? ==> x.holder.value < |s.phase|)
    && (x.valid && !(x.holder.Some? && s.phase[x.holder.value] == Ready(b, true)) ==> (x.data == s.disk[x.Key()] <==> !s.left[b]))
  }

  /** Referred to, or with bytes that a hit would show. */
  predicate InUse(x: Buf) {
    x.refcnt > 0 || x.valid
  }

  /** Two buffers of one block are buffers of block 0 of device 0, of which at most
      one is in use, and that one comes first in the list. */
  predicate Distinct(s: State, b: nat, c: nat)
    requires Sized(s) && b < |s.bufs| && c < |s.bufs|
  {
    b != c && s.bufs[b].Key() == s.bufs[c].Key() ==>
      && s.bufs[b].Key() == BOOTKEY
      && (InUse(s.bufs[b]) ==> !InUse(s.bufs[c]) && s.stamp[b] > s.stamp[c])
  }

  predicate Ranged(s: State, t: nat)
    requires t < |s.phase|
  {
    !s.phase[t].Idle? ==> s.phase[t].b < |s.bufs|
  }

  ghost predicate Inv(s: State) {
    && Listed(s)
    && (forall t: nat {:trigger Ranged(s, t)} :: t < |s.phase| ==> Ranged(s, t))
    && (forall t: nat, b: nat {:trigger RefOk(s, t, b)} :: t < |s.phase| && b < |s.bufs| ==> RefOk(s, t, b))
    && (forall b: nat {:trigger BufOk(s, b)} :: b < |s.bufs| ==> BufOk(s, b))
    && (forall b: nat, c: nat {:trigger Distinct(s, b, c)} :: b < |s.bufs| && c < |s.bufs| ==> Distinct(s, b, c))
  }

  // ---- every step keeps it

  /** One buffer `b` and one thread `t` changed, the list did not. */
  ghost predicate Local(s: State, s': State, t: nat, b: nat) {
    && Sized(s) && Sized(s') && t < |s.phase| && b < |s.bufs|
    && s'.order == s.order && s'.stamp == s.stamp && s'.clock == s.clock
    && |s'.bufs| == |s.bufs| && s'.bufs == s.bufs[b := s'.bufs[b]]
    && |s'.phase| == |s.phase| && s'.phase == s.phase[t := s'.phase[t]]
    && s'.refs == s.refs[b := s'.refs[b]] && s'.left == s.left[b := s'.left[b]]
  }

  /** What is to be shown of a step on `b` by `t` that leaves the list and the
      other blocks of the disk alone. */
  lemma LocalKeeps(s: State, s': State, t: nat, b: nat)
    requires Inv(s) && Local(s, s', t, b) && Ranged(s', t) && BufOk(s', b)
    requires forall u: nat :: u < |s.phase| ==> RefOk(s', u, b)
    requires forall c: nat :: c < |s.bufs| ==> RefOk(s', t, c)
    requires forall c: nat :: c < |s.bufs| ==> Distinct(s', b, c) && Distinct(s', c, b)
    requires s'.disk.Keys == s.disk.Keys && forall k :: k in s.disk && k != s'.bufs[b].Key() ==> s'.disk[k] == s.disk[k]
    requires s'.disk == s.disk || InUse(s'.bufs[b])
    requires !s.phase[t].Idle? ==> s.phase[t].b == b
    ensures Inv(s')
  {
    forall u: nat | u < |s'.phase|
      ensures Ranged(s', u)
    {
      assert Ranged(s, u);
    }
    forall u: nat, c: nat | u < |s'.phase| && c < |s'.bufs|
      ensures RefOk(s', u, c)
    {
      if u != t && c != b {
        assert RefOk(s, u, c);
      }
    }
    forall c: nat | c < |s'.bufs|
      ensures BufOk(s', c)
    {
      if c != b {
        assert BufOk(s, c) && Distinct(s', c, b);
        assert RefOk(s, t, c);
      }
    }
    forall c: nat, d: nat | c < |s'.bufs| && d < |s'.bufs|
      ensures Distinct(s', c, d)
    {
      assert Distinct(s, c, d);
    }
  }

  lemma HolderKeeps(s: State, a: Action)
    requires Inv(s) && Enabled(s, a) && (a.Lock? || a.Fill? || a.Unlock?)
    ensures Inv(Apply(s, a))
  {
    var s', t, b := Apply(s, a), a.t, s.phase[a.t].b;
    assert RefOk(s, t, b) && BufOk(s, b) && Ranged(s, t);
    forall u: nat | u < |s.phase|
      ensures RefOk(s', u, b)
    {
      assert RefOk(s, u, b);
    }
    forall c: nat | c < |s.bufs|
      ensures RefOk(s', t, c) && Distinct(s', b, c) && Distinct(s', c, b)
    {
      assert RefOk(s, t, c) && Distinct(s, b, c) && Distinct(s, c, b);
    }
    hide Inv;
    LocalKeeps(s, s', t, b);
  }

  lemma WriterKeeps(s: State, a: Action)
    requires Inv(s) && Enabled(s, a) && (a.Change? || a.Write?)
    ensures Inv(Apply(s, a))
  {
    var s', t, b := Apply(s, a), a.t, s.phase[a.t].b;
    assert RefOk(s, t, b) && BufOk(s, b) && Ranged(s, t);
    forall u: nat | u < |s.phase|
      ensures RefOk(s', u, b)
    {
      assert RefOk(s, u, b);
    }
    forall c: nat | c < |s.bufs|
      ensures RefOk(s', t, c) && Distinct(s', b, c) && Distinct(s', c, b)
    {
      assert RefOk(s, t, c) && Distinct(s, b, c) && Distinct(s, c, b);
    }
    hide Inv;
    LocalKeeps(s, s', t, b);
  }

  lemma {:induction false} HitAt(bufs: seq<Buf>, order: seq<nat>, dev: nat, block: nat) returns (k: nat)
    requires (forall i :: 0 <= i < |order| ==> order[i] < |bufs|) && Hit(bufs, order, dev, block).Some?
    ensures k < |order| && order[k] == Hit(bufs, order, dev, block).value
    ensures forall j :: 0 <= j < k ==> bufs[order[j]].Key() != (dev, block)
  {
    if bufs[order[0]].Key() == (dev, block) {
      k := 0;
    } else {
      k := HitAt(bufs, order[1..], dev, block);
      k := k + 1;
    }
  }

  /** A hit is the first of its block in the list, so no other buffer of the block is in use. */
  lemma HitFirst(s: State, dev: nat, block: nat, c: nat)
    requires Inv(s) && Hit(s.bufs, s.order, dev, block).Some? && c < |s.bufs|
    ensures var b := Hit(s.bufs, s.order, dev, block).value;
            b < |s.bufs| && (c != b && s.bufs[c].Key() == (dev, block) ==>
                             (dev, block) == BOOTKEY && !InUse(s.bufs[c]) && s.stamp[b] > s.stamp[c])
  {
    var b := Hit(s.bufs, s.order, dev, block).value;
    var k := HitAt(s.bufs, s.order, dev, block);
    assert c in s.order;
    var j :| 0 <= j < |s.order| && s.order[j] == c;
    assert Distinct(s, c, b);
  }

  lemma HitKeeps(s: State, t: nat, dev: nat, block: nat)
    requires Inv(s) && Enabled(s, Get(t, dev, block)) && Hit(s.bufs, s.order, dev, block).Some?
    ensures Inv(ApplyGet(s, t, dev, block))
  {
    var s' := ApplyGet(s, t, dev, block);
    var b := s'.phase[t].b;
    assert RefOk(s, t, b) && BufOk(s, b) && Ranged(s, t);
    forall c: nat | c < |s.bufs|
      ensures Distinct(s', b, c) && Distinct(s', c, b)
    {
      HitFirst(s, dev, block, c);
    }
    forall u: nat | u < |s.phase|
      ensures RefOk(s', u, b)
    {
      assert RefOk(s, u, b);
    }
    forall c: nat | c < |s.bufs|
      ensures RefOk(s', t, c)
    {
      assert RefOk(s, t, c);
    }
    assert BufOk(s', b);
    hide Inv, Hit, Victim, Distinct;
    LocalKeeps(s, s', t, b);
  }

  lemma MissKeeps(s: State, t: nat, dev: nat, block: nat)
    requires Inv(s) && Enabled(s, Get(t, dev, block)) && Hit(s.bufs, s.order, dev, block).None?
    ensures Inv(ApplyGet(s, t, dev, block))
  {
    var s' := ApplyGet(s, t, dev, block);
    var b := s'.phase[t].b;
    assert RefOk(s, t, b) && BufOk(s, b) && Ranged(s, t);
    assert s.refs[b] == {};
    forall c: nat | c < |s.bufs|
      ensures Distinct(s', b, c) && Distinct(s', c, b)
    {
      assert c in s.order;
    }
    hide Hit, Victim, Distinct;
    forall u: nat | u < |s.phase|
      ensures RefOk(s', u, b)
    {
      assert RefOk(s, u, b);
    }
    forall c: nat | c < |s.bufs|
      ensures RefOk(s', t, c)
    {
      assert RefOk(s, t, c);
    }
    assert BufOk(s', b);
    hide Inv;
    LocalKeeps(s, s', t, b);
  }

  // the end of brelse

  lemma {:induction false} WithoutAll(order: seq<nat>, b: nat)
    requires b !in order
    ensures Without(order, b) == order
  {
    if order != [] {
      WithoutAll(order[1..], b);
    }
  }

  lemma {:induction false} WithoutAt(order: seq<nat>, k: nat)
    requires k < |order| && forall i :: 0 <= i < |order| && i != k ==> order[i] != order[k]
    ensures Without(order, order[k]) == order[..k] + order[k + 1..]
  {
    if k == 0 {
      WithoutAll(order[1..], order[0]);
    } else {
      assert order[1..][k - 1] == order[k];
      WithoutAt(order[1..], k - 1);
      assert order[1..][..k - 1] == order[1..k] && order[1..][k..] == order[k + 1..];
      assert order[..k] == [order[0]] + order[1..k];
    }
  }

  lemma FrontKeeps(s: State, b: nat)
    requires Inv(s) && b < |s.bufs| && InUse(s.bufs[b])
    ensures Inv(s.(order := ToFront(s.order, b), stamp := s.stamp[b := s.clock], clock := s.clock + 1))
  {
    var s' := s.(order := ToFront(s.order, b), stamp := s.stamp[b := s.clock], clock := s.clock + 1);
    assert b in s.order;
    var k :| 0 <= k < |s.order| && s.order[k] == b;
    WithoutAt(s.order, k);
    assert s'.order == [b] + s.order[..k] + s.order[k + 1..];
    FrontListed(s, s', b, k);
    forall t: nat, c: nat | t < |s'.phase| && c < |s'.bufs|
      ensures RefOk(s', t, c)
    {
      assert RefOk(s, t, c);
    }
    forall c: nat | c < |s'.bufs|
      ensures BufOk(s', c)
    {
      assert BufOk(s, c);
    }
    forall c: nat, d: nat | c < |s'.bufs| && d < |s'.bufs|
      ensures Distinct(s', c, d)
    {
      assert Distinct(s, c, d) && Distinct(s, d, c);
    }
    forall t: nat | t < |s'.phase|
      ensures Ranged(s', t)
    {
      assert Ranged(s, t);
    }
  }

  /** Where position `i` of the list with `k` moved to the front came from. */
  function From(i: nat, k: nat): nat {
    if i == 0 then k else if i <= k then i - 1 else i
  }

  lemma FrontAt(order: seq<nat>, k: nat, i: nat)
    requires k < |order| && i < |order|
    ensures ([order[k]] + order[..k] + order[k + 1..])[i] == order[From(i, k)]
  {
  }

  lemma FrontListed(s: State, s': State, b: nat, k: nat)
    requires Listed(s) && k < |s.order| && s.order[k] == b
    requires s'.bufs == s.bufs && s'.refs == s.refs && s'.left == s.left && s'.order == [b] + s.order[..k] + s.order[k + 1..]
    requires s'.stamp == s.stamp[b := s.clock] && s'.clock == s.clock + 1
    ensures Listed(s')
  {
    forall i: nat | i < |s.order|
      ensures s'.order[i] == s.order[From(i, k)]
    {
      FrontAt(s.order, k, i);
    }
    FrontAll(s, s', k);
    FrontSorted(s, s', k);
  }

  lemma FrontAll(s: State, s': State, k: nat)
    requires Listed(s) && k < |s.order| && |s'.order| == |s.order| && s'.bufs == s.bufs
    requires forall i: nat :: i < |s.order| ==> s'.order[i] == s.order[From(i, k)]
    ensures forall c :: 0 <= c < |s'.bufs| ==> c in s'.order
  {
    forall c | 0 <= c < |s'.bufs|
      ensures c in s'.order
    {
      assert c in s.order;
      var i :| 0 <= i < |s.order| && s.order[i] == c;
      var j := if i < k then i + 1 else if i == k then 0 else i;
      assert From(j, k) == i && s'.order[j] == c;
    }
  }

  lemma FrontSorted(s: State, s': State, k: nat)
    requires Listed(s) && Sized(s') && |s'.bufs| == |s.bufs| && k < |s.order| && s'.stamp == s.stamp[s.order[k] := s.clock]
    requires forall i: nat :: i < |s.order| ==> s'.order[i] == s.order[From(i, k)]
    ensures forall i, j :: 0 <= i < j < |s'.order| ==> s'.stamp[s'.order[i]] > s'.stamp[s'.order[j]]
  {
    forall i, j | 0 <= i < j < |s'.order|
      ensures s'.stamp[s'.order[i]] > s'.stamp[s'.order[j]]
    {
      var i0, j0 := From(i, k), From(j, k);
      assert j0 != k && (i == 0 || (i0 < j0 && i0 != k));
      assert s.stamp[s.order[j0]] != s.stamp[s.order[k]];
      if i > 0 {
        assert s.stamp[s.order[i0]] != s.stamp[s.order[k]];
      }
    }
  }

  lemma DropKeeps(s: State, t: nat)
    requires Inv(s) && Enabled(s, Drop(t))
    ensures Inv(ApplyDrop(s, t))
  {
    var b := s.phase[t].b;
    var x := s.bufs[b];
    var s1 := s.(bufs := s.bufs[b := x.(refcnt := x.refcnt - 1)], phase := s.phase[t := Idle], refs := s.refs[b := s.refs[b] - {t}]);
    assert RefOk(s, t, b) && BufOk(s, b) && Ranged(s, t);
    forall u: nat | u < |s.phase|
      ensures RefOk(s1, u, b)
    {
      assert RefOk(s, u, b);
    }
    forall c: nat | c < |s.bufs|
      ensures RefOk(s1, t, c) && Distinct(s1, b, c) && Distinct(s1, c, b)
    {
      assert RefOk(s, t, c) && Distinct(s, b, c) && Distinct(s, c, b);
    }
    assert BufOk(s1, b);
    hide Inv;
    LocalKeeps(s, s1, t, b);
    if x.refcnt - 1 == 0 {
      FrontKeeps(s1, b);
    }
  }

  /** Every step keeps the invariant. */
  lemma StepKeeps(s: State, a: Action)
    requires Inv(s) && Enabled(s, a)
    ensures Inv(Apply(s, a))
  {
    hide Inv;
    match a {
      case Get(t, dev, block) =>
        if Hit(s.bufs, s.order, dev, block).Some? { HitKeeps(s, t, dev, block); } else { MissKeeps(s, t, dev, block); }
      case Drop(t) => DropKeeps(s, t);
      case Lock(_) => HolderKeeps(s, a);
      case Fill(_) => HolderKeeps(s, a);
      case Unlock(_) => HolderKeeps(s, a);
      case Change(_, _) => WriterKeeps(s, a);
      case Write(_) => WriterKeeps(s, a);
    }
  }

  // ---- runs

  /** A buffer of the zeroed cache. */
  predicate Fresh(x: Buf) {
    x.dev == 0 && x.block == 0 && !x.valid && x.refcnt == 0 && x.holder == None
  }

  /** After binit: every buffer stands for device 0, block 0, unused and not
      valid; the list has the last buffer first. */
  ghost predicate Init(s: State) {
    && Sized(s) && s.clock == |s.bufs|
    && (forall b :: 0 <= b < |s.bufs| ==> s.refs[b] == {} && s.stamp[b] == b && !s.left[b] && s.order[b] == |s.bufs| - 1 - b)
    && (forall b :: 0 <= b < |s.bufs| ==> Fresh(s.bufs[b]))
    && (forall t :: 0 <= t < |s.phase| ==> s.phase[t] == Idle)
  }

  ghost predicate IsRun(trace: seq<State>, acts: seq<Action>) {
    && |trace| == |acts| + 1 && Init(trace[0])
    && forall i :: 0 <= i < |acts| ==> Enabled(trace[i], acts[i]) && trace[i + 1] == Apply(trace[i], acts[i])
  }

  lemma InitInv(s: State)
    requires Init(s)
    ensures Inv(s)
  {
    forall b | 0 <= b < |s.bufs|
      ensures b in s.order
    {
      assert s.order[|s.bufs| - 1 - b] == b;
    }
    forall t: nat, b: nat | t < |s.phase| && b < |s.bufs|
      ensures RefOk(s, t, b)
    {
      assert s.phase[t] == Idle && s.refs[b] == {} && Fresh(s.bufs[b]);
    }
    forall b: nat | b < |s.bufs|
      ensures BufOk(s, b)
    {
      assert s.refs[b] == {} && Fresh(s.bufs[b]);
    }
    forall t: nat | t < |s.phase|
      ensures Ranged(s, t)
    {
      assert s.phase[t] == Idle;
    }
    forall b: nat, c: nat | b < |s.bufs| && c < |s.bufs|
      ensures Distinct(s, b, c)
    {
      assert Fresh(s.bufs[b]);
    }
  }

  lemma {:induction false} RunInv(trace: seq<State>, acts: seq<Action>, i: nat)
    requires IsRun(trace, acts) && i < |trace|
    ensures Inv(trace[i])
  {
    if i == 0 {
      InitInv(trace[0]);
    } else {
      RunInv(trace, acts, i - 1);
      hide Inv;
      StepKeeps(trace[i - 1], acts[i - 1]);
    }
  }

  /** An action that decides whether buffer `b` agrees with the disk: a fill from the
      disk, a bwrite, or the release by a thread that has changed it since. */
  predicate Settles(s: State, a: Action, b: nat)
    requires Enabled(s, a)
  {
    && !s.phase[a.t].Idle? && s.phase[a.t].b == b
    && ((a.Fill? && !s.bufs[b].valid) || a.Write? || (a.Unlock? && s.phase[a.t].dirty))
  }

  /** Step `j` released buffer `b` changed and unwritten, and nothing has settled it
      since: brelse without bwrite, as in a writei whose source faults. */
  ghost predicate LeftBehind(trace: seq<State>, acts: seq<Action>, j: nat, i: nat, b: nat)
    requires IsRun(trace, acts) && i < |trace|
  {
    && j < i && acts[j].Unlock? && Settles(trace[j], acts[j], b)
    && trace[j].bufs[b].data != trace[j].disk[trace[j].bufs[b].Key()]
    && forall m :: j < m < i ==> !Settles(trace[m], acts[m], b)
  }

  lemma StepLeft(s: State, a: Action, b: nat)
    requires Inv(s) && Enabled(s, a) && b < |s.bufs|
    ensures b < |Apply(s, a).left|
    ensures !Settles(s, a, b) ==> Apply(s, a).left[b] == s.left[b]
    ensures Settles(s, a, b) ==> (Apply(s, a).left[b] <==> a.Unlock? && s.bufs[b].data != s.disk[s.bufs[b].Key()])
  {
    assert Ranged(s, a.t) && RefOk(s, a.t, b) && BufOk(s, b);
  }

  lemma LeftNext(trace: seq<State>, acts: seq<Action>, j: nat, i: nat, b: nat)
    requires IsRun(trace, acts) && i + 1 < |trace| && j < i
    ensures LeftBehind(trace, acts, j, i + 1, b) <==> !Settles(trace[i], acts[i], b) && LeftBehind(trace, acts, j, i, b)
  {
    hide Settles, Enabled, Apply, Init;
  }

  lemma LeftNow(trace: seq<State>, acts: seq<Action>, i: nat, b: nat)
    requires IsRun(trace, acts) && i + 1 < |trace| && Inv(trace[i]) && b < |trace[i].bufs|
    ensures LeftBehind(trace, acts, i, i + 1, b) <==> Settles(trace[i], acts[i], b) && b < |trace[i + 1].left| && trace[i + 1].left[b]
  {
    StepLeft(trace[i], acts[i], b);
    hide Apply, Init, Inv;
  }

  /** The history is what it says: `left[b]` exactly when a release left `b` behind. */
  lemma {:induction false} LeftExactly(trace: seq<State>, acts: seq<Action>, i: nat, b: nat)
    requires IsRun(trace, acts) && i < |trace| && b < |trace[0].bufs|
    ensures b < |trace[i].left| && |trace[i].bufs| == |trace[0].bufs|
    ensures trace[i].left[b] <==> exists j: nat :: LeftBehind(trace, acts, j, i, b)
  {
    if i > 0 {
      var s, a := trace[i - 1], acts[i - 1];
      LeftExactly(trace, acts, i - 1, b);
      RunInv(trace, acts, i - 1);
      SameCount(trace, acts, i);
      StepLeft(s, a, b);
      LeftNow(trace, acts, i - 1, b);
      forall j: nat | j < i - 1
        ensures LeftBehind(trace, acts, j, i, b) <==> !Settles(s, a, b) && LeftBehind(trace, acts, j, i - 1, b)
      {
        LeftNext(trace, acts, j, i - 1, b);
      }
      LeftSplit(trace, acts, i - 1, i, b);
    }
  }

  lemma LeftSplit(trace: seq<State>, acts: seq<Action>, h: nat, i: nat, b: nat)
    requires IsRun(trace, acts) && i == h + 1 < |trace|
    requires forall j: nat :: j < h ==>
               (LeftBehind(trace, acts, j, i, b) <==> !Settles(trace[h], acts[h], b) && LeftBehind(trace, acts, j, h, b))
    ensures (exists j: nat :: LeftBehind(trace, acts, j, i, b)) <==>
            LeftBehind(trace, acts, h, i, b) || (!Settles(trace[h], acts[h], b) && exists j: nat :: LeftBehind(trace, acts, j, h, b))
  {
    hide Settles, Enabled, Apply, Init;
    if j: nat :| LeftBehind(trace, acts, j, h, b) {
      assert j < h;
    }
    if j: nat :| LeftBehind(trace, acts, j, i, b) {
      assert j <= h;
    }
  }

  /** A thread whose bread has returned, and which has not changed the buffer since or
      has written it, sees the block that is on the disk exactly when the buffer was
      not left behind changed and unwritten. */
  lemma ReadsDisk(trace: seq<State>, acts: seq<Action>, i: nat, t: nat)
    requires IsRun(trace, acts) && i < |trace| && t < |trace[i].phase| && trace[i].phase[t].Ready? && !trace[i].phase[t].dirty
    ensures var s, b := trace[i], trace[i].phase[t].b;
            && b < |s.bufs| && s.bufs[b].Key() in s.disk
            && (s.bufs[b].data == s.disk[s.bufs[b].Key()] <==> !exists j: nat :: LeftBehind(trace, acts, j, i, b))
  {
    RunInv(trace, acts, i);
    var s, b := trace[i], trace[i].phase[t].b;
    assert Ranged(s, t);
    assert RefOk(s, t, b) && BufOk(s, b);
    SameCount(trace, acts, i);
    LeftExactly(trace, acts, i, b);
  }

  lemma {:induction false} SameCount(trace: seq<State>, acts: seq<Action>, i: nat)
    requires IsRun(trace, acts) && i < |trace|
    ensures |trace[i].bufs| == |trace[0].bufs|
  {
    if i > 0 {
      SameCount(trace, acts, i - 1);
    }
  }

  /** Where all holders write what they change before they release it, every reader sees the disk. */
  lemma DisciplinedReadsDisk(trace: seq<State>, acts: seq<Action>, i: nat, t: nat)
    requires IsRun(trace, acts) && i < |trace| && t < |trace[i].phase| && trace[i].phase[t].Ready? && !trace[i].phase[t].dirty
    requires forall m: nat {:trigger acts[m]} :: m < i && acts[m].Unlock? ==> !trace[m].phase[acts[m].t].dirty
    ensures var s, b := trace[i], trace[i].phase[t].b;
            b < |s.bufs| && s.bufs[b].Key() in s.disk && s.bufs[b].data == s.disk[s.bufs[b].Key()]
  {
    ReadsDisk(trace, acts, i, t);
    var b := trace[i].phase[t].b;
    forall j: nat
      ensures !LeftBehind(trace, acts, j, i, b)
    {
    }
  }

  /** And otherwise one need not: a thread changes a block, releases it unwritten, and
      finds its change there when it comes back, the disk being as before. */
  lemma UnsavedExample(s: State, dev: nat, block: nat, d: Data) returns (trace: seq<State>, acts: seq<Action>, b: nat)
    requires Init(s) && |s.phase| > 0 && |s.bufs| > 0 && (dev, block) in s.disk && (dev, block) != BOOTKEY && d != s.disk[(dev, block)]
    ensures IsRun(trace, acts) && |acts| == 9 && |trace| == 10 && trace[0] == s
    ensures var e := trace[9];
            && |e.phase| > 0 && b < |e.bufs| && e.phase[0] == Ready(b, false) && e.bufs[b].Key() == (dev, block)
            && e.bufs[b].data == d && e.disk == s.disk
  {
    b := 0;
    hide Init, Enabled, Apply, Inv, IsRun;
    var s1 := Taken(s, dev, block);
    var s4, s6 := Changed(s1, b, d);
    trace, acts := Started(s);
    trace, acts := Extended(trace, acts, Get(0, dev, block));
    trace, acts := Extended(trace, acts, Lock(0));
    trace, acts := Extended(trace, acts, Fill(0));
    trace, acts := Extended(trace, acts, Change(0, d));
    trace, acts := Extended(trace, acts, Unlock(0));
    trace, acts := Extended(trace, acts, Drop(0));
    Back(s6, b, dev, block);
    trace, acts := Extended(trace, acts, Get(0, dev, block));
    trace, acts := Extended(trace, acts, Lock(0));
    trace, acts := Extended(trace, acts, Fill(0));
  }

  lemma Started(s: State) returns (trace: seq<State>, acts: seq<Action>)
    requires Init(s)
    ensures IsRun(trace, acts) && trace == [s] && acts == []
  {
    trace, acts := [s], [];
  }

  lemma Extended(trace: seq<State>, acts: seq<Action>, a: Action) returns (trace': seq<State>, acts': seq<Action>)
    requires IsRun(trace, acts) && |trace| == |acts| + 1 && Enabled(trace[|acts|], a)
    ensures |acts'| == |acts| + 1 && |trace'| == |trace| + 1 && IsRun(trace', acts')
    ensures trace'[0] == trace[0] && trace'[|acts'|] == Apply(trace[|acts|], a)
  {
    hide Init, Enabled, Apply;
    trace', acts' := trace + [Apply(trace[|acts|], a)], acts + [a];
  }

  /** A buffer first in the list is found again, bytes and all. */
  lemma Back(s: State, b: nat, dev: nat, block: nat)
    requires Sized(s) && |s.phase| > 0 && s.phase[0] == Idle && b < |s.bufs| && s.order[0] == b
    requires (dev, block) in s.disk && s.bufs[b].Key() == (dev, block) && s.bufs[b].valid && s.bufs[b].holder.None?
    ensures Enabled(s, Get(0, dev, block)) && Enabled(Apply(s, Get(0, dev, block)), Lock(0))
    ensures Enabled(Apply(Apply(s, Get(0, dev, block)), Lock(0)), Fill(0))
    ensures var e := Apply(Apply(Apply(s, Get(0, dev, block)), Lock(0)), Fill(0));
            && |e.phase| > 0 && |e.bufs| == |s.bufs| && e.phase[0] == Ready(b, false) && e.bufs[b].Key() == (dev, block)
            && e.bufs[b].data == s.bufs[b].data && e.disk == s.disk
  {
    assert Hit(s.bufs, s.order, dev, block) == Some(b);
  }

  /** From boot, the first bget of a block takes buffer 0. */
  lemma Taken(s: State, dev: nat, block: nat) returns (s': State)
    requires Init(s) && |s.phase| > 0 && |s.bufs| > 0 && (dev, block) in s.disk && (dev, block) != BOOTKEY
    ensures Enabled(s, Get(0, dev, block)) && s' == Apply(s, Get(0, dev, block)) && Inv(s')
    ensures s'.phase[0] == Waiting(0) && |s'.bufs| == |s.bufs| && |s'.phase| == |s.phase| && s'.disk == s.disk
    ensures s'.bufs[0].Key() == (dev, block) && !s'.bufs[0].valid && s'.bufs[0].refcnt == 1 && s'.bufs[0].holder.None?
  {
    InitInv(s);
    assert s.order[|s.bufs| - 1] == 0 && Fresh(s.bufs[0]);
    NoneFresh(s, dev, block);
    s' := Apply(s, Get(0, dev, block));
    hide Inv;
    StepKeeps(s, Get(0, dev, block));
  }

  /** Locked, filled, changed, released and dropped, it is first in the list and shows the change. */
  lemma Changed(s: State, b: nat, d: Data) returns (s3: State, s': State)
    requires Inv(s) && |s.phase| > 0 && b < |s.bufs| && s.phase[0] == Waiting(b)
    requires !s.bufs[b].valid && s.bufs[b].refcnt == 1 && s.bufs[b].holder.None? && s.bufs[b].Key() in s.disk
    ensures Enabled(s, Lock(0)) && Enabled(Apply(s, Lock(0)), Fill(0)) && Enabled(Apply(Apply(s, Lock(0)), Fill(0)), Change(0, d))
    ensures s3 == Apply(Apply(Apply(s, Lock(0)), Fill(0)), Change(0, d)) && Enabled(s3, Unlock(0))
    ensures Enabled(Apply(s3, Unlock(0)), Drop(0)) && s' == Apply(Apply(s3, Unlock(0)), Drop(0))
    ensures Inv(s') && Sized(s') && |s'.phase| == |s.phase| && s'.disk == s.disk && |s'.bufs| == |s.bufs| && s'.phase[0] == Idle
    ensures |s'.order| > 0 && s'.order[0] == b && s'.bufs[b].Key() == s.bufs[b].Key() && s'.bufs[b].valid && s'.bufs[b].data == d
    ensures s'.bufs[b].holder.None?
  {
    hide Inv;
    InvSized(s);
    var s1, s2 := Apply(s, Lock(0)), Apply(Apply(s, Lock(0)), Fill(0));
    StepKeeps(s, Lock(0));
    StepKeeps(s1, Fill(0));
    StepKeeps(s2, Change(0, d));
    s3 := Apply(s2, Change(0, d));
    StepKeeps(s3, Unlock(0));
    var s4 := Apply(s3, Unlock(0));
    StepKeeps(s4, Drop(0));
    s' := Apply(s4, Drop(0));
    InvSized(s');
  }

  lemma NoneFresh(s: State, dev: nat, block: nat)
    requires Init(s) && (dev, block) != BOOTKEY
    ensures Hit(s.bufs, s.order, dev, block).None?
  {
    var h := Hit(s.bufs, s.order, dev, block);
    assert h.Some? ==> Fresh(s.bufs[h.value]);
  }

  /** At most one buffer per block is in use; at most one holder per buffer. */
  lemma OneBufferOneHolder(trace: seq<State>, acts: seq<Action>, i: nat, b: nat, c: nat, t: nat, u: nat)
    requires IsRun(trace, acts) && i < |trace|
    ensures var s := trace[i];
            && (b < |s.bufs| && c < |s.bufs| && InUse(s.bufs[b]) && InUse(s.bufs[c]) && s.bufs[b].Key() == s.bufs[c].Key() ==> b == c)
            && (t < |s.phase| && u < |s.phase| && b < |s.bufs| && Holds(s.phase[t], b) && Holds(s.phase[u], b) ==> t == u)
  {
    RunInv(trace, acts, i);
    var s := trace[i];
    if b < |s.bufs| && c < |s.bufs| {
      assert Distinct(s, b, c);
    }
    if t < |s.phase| && u < |s.phase| && b < |s.bufs| {
      assert RefOk(s, t, b) && RefOk(s, u, b);
    }
  }

  /** Two buffers stand for block `key` in some state of some run. */
  ghost predicate Doubled(trace: seq<State>, acts: seq<Action>, i: nat, b: nat, c: nat, key: Key) {
    && IsRun(trace, acts) && i < |trace| && b < |trace[i].bufs| && c < |trace[i].bufs| && b != c
    && trace[i].bufs[b].Key() == trace[i].bufs[c].Key() == key
  }

  /** Exactly block 0 of device 0 can have two buffers, in use or not. */
  lemma DoubledExactly(key: Key)
    ensures (exists trace, acts, i, b, c :: Doubled(trace, acts, i, b, c, key)) <==> key == BOOTKEY
  {
    if trace, acts, i, b, c :| Doubled(trace, acts, i, b, c, key) {
      RunInv(trace, acts, i);
      assert Distinct(trace[i], b, c);
    }
    var x := Buf(0, 0, false, 0, None, []);
    var s := State([x, x], [1, 0], map[], [], [{}, {}], [0, 1], 2, [false, false]);
    assert Init(s);
    assert Doubled([s], [], 0, 0, 1, BOOTKEY);
  }

  /** A buffer somebody refers to is never given to another block, and its bytes
      and its block on the disk change only by the thread that holds it. */
  lemma NeverRecycled(trace: seq<State>, acts: seq<Action>, i: nat, t: nat)
    requires IsRun(trace, acts) && i < |acts| && t < |trace[i].phase| && !trace[i].phase[t].Idle?
    ensures var s, s', b := trace[i], trace[i + 1], trace[i].phase[t].b;
            && b < |s.bufs| && b < |s'.bufs| && s'.bufs[b].Key() == s.bufs[b].Key() && s.bufs[b].Key() in s.disk && s.bufs[b].Key() in s'.disk
            && ((s'.bufs[b].data != s.bufs[b].data || s'.disk[s.bufs[b].Key()] != s.disk[s.bufs[b].Key()])
                ==> acts[i].t < |s.phase| && Holds(s.phase[acts[i].t], b))
            && s.bufs[b].refcnt > 0
  {
    RunInv(trace, acts, i);
    var s, a := trace[i], acts[i];
    var b := s.phase[t].b;
    assert Ranged(s, t) && Ranged(s, a.t);
    assert RefOk(s, t, b) && BufOk(s, b) && RefOk(s, a.t, b);
    assert s.refs[b] != {};
    assert |s.refs[b]| > 0;
    if !s.phase[a.t].Idle? {
      assert Distinct(s, s.phase[a.t].b, b) && RefOk(s, a.t, s.phase[a.t].b);
    }
    hide Inv;
  }

  lemma {:induction false} VictimAt(bufs: seq<Buf>, order: seq<nat>) returns (k: nat)
    requires (forall i :: 0 <= i < |order| ==> order[i] < |bufs|) && Victim(bufs, order).Some?
    ensures k < |order| && order[k] == Victim(bufs, order).value && forall j :: k < j < |order| ==> bufs[order[j]].refcnt != 0
  {
    if bufs[order[|order| - 1]].refcnt == 0 {
      k := |order| - 1;
    } else {
      k := VictimAt(bufs, order[..|order| - 1]);
    }
  }

  /** A miss takes the unused buffer whose last release is the oldest. */
  lemma OldestRecycled(trace: seq<State>, acts: seq<Action>, i: nat, c: nat)
    requires IsRun(trace, acts) && i < |acts| && acts[i].Get? && Hit(trace[i].bufs, trace[i].order, acts[i].dev, acts[i].block).None?
    requires c < |trace[i].bufs| && trace[i].bufs[c].refcnt == 0
    ensures var s := trace[i];
            var v := Victim(s.bufs, s.order).value;
            && v < |s.bufs| && s.bufs[v].refcnt == 0 && s.stamp[v] <= s.stamp[c]
            && trace[i + 1].phase[acts[i].t] == Waiting(v) && trace[i + 1].bufs[v].Key() == (acts[i].dev, acts[i].block)
  {
    RunInv(trace, acts, i);
    var s := trace[i];
    var k := VictimAt(s.bufs, s.order);
    assert c in s.order;
    var j :| 0 <= j < |s.order| && s.order[j] == c;
  }

  /** The end of a brelse that leaves buffer `b` unused. */
  predicate Frees(s: State, a: Action, b: nat) {
    a.Drop? && a.t < |s.phase| && s.phase[a.t] == Leaving(b) && b < |s.bufs| && s.bufs[b].refcnt == 1
  }

  lemma StampStep(s: State, a: Action, b: nat)
    requires Inv(s) && Enabled(s, a) && b < |s.bufs|
    ensures var s' := Apply(s, a);
            && Sized(s') && |s'.bufs| == |s.bufs| && s'.clock >= s.clock
            && (Frees(s, a, b) ==> s'.stamp[b] == s.clock) && (!Frees(s, a, b) ==> s'.stamp[b] == s.stamp[b])
            && s.stamp[b] <= s'.stamp[b]
  {
    StepKeeps(s, a);
    hide Hit, Victim, Without;
  }

  /** What is not released keeps its place. */
  lemma {:induction false} StampStays(trace: seq<State>, acts: seq<Action>, j: nat, i: nat, b: nat)
    requires IsRun(trace, acts) && j <= i < |trace| && b < |trace[j].bufs|
    ensures Sized(trace[i]) && Sized(trace[j]) && |trace[i].bufs| == |trace[j].bufs| && trace[j].stamp[b] <= trace[i].stamp[b]
    ensures (forall m :: j <= m < i ==> !Frees(trace[m], acts[m], b)) ==> trace[i].stamp[b] == trace[j].stamp[b]
    decreases i
  {
    hide Inv, Init, Enabled, Apply, Frees;
    RunInv(trace, acts, j);
    InvSized(trace[j]);
    if j < i {
      StampStays(trace, acts, j, i - 1, b);
      RunInv(trace, acts, i - 1);
      StampStep(trace[i - 1], acts[i - 1], b);
    }
  }

  lemma InvSized(s: State)
    requires Inv(s)
    ensures Sized(s)
  {
  }

  /** By the calls alone: whenever the buffer that a miss recycles was released, every other
      unused buffer has been released since. */
  lemma LeastRecentlyUsed(trace: seq<State>, acts: seq<Action>, j: nat, i: nat, c: nat)
    requires IsRun(trace, acts) && j < i < |acts| && acts[i].Get? && Hit(trace[i].bufs, trace[i].order, acts[i].dev, acts[i].block).None?
    requires c < |trace[i].bufs| && trace[i].bufs[c].refcnt == 0 && trace[i + 1].phase[acts[i].t] != Waiting(c)
    requires trace[i + 1].phase[acts[i].t].Waiting? && Frees(trace[j], acts[j], trace[i + 1].phase[acts[i].t].b)
    ensures exists k :: j < k < i && Frees(trace[k], acts[k], c)
  {
    var v := trace[i + 1].phase[acts[i].t].b;
    OldestRecycled(trace, acts, i, c);
    RunInv(trace, acts, i);
    assert trace[i].stamp[v] < trace[i].stamp[c] by { DifferentStamps(trace[i], v, c); }
    RunInv(trace, acts, j);
    StampStep(trace[j], acts[j], v);
    SameCount(trace, acts, i);
    SameCount(trace, acts, j);
    StampStep(trace[j], acts[j], c);
    hide Hit, Victim, Without;
    StampStays(trace, acts, j + 1, i, v);
    StampStays(trace, acts, j + 1, i, c);
  }

  lemma DifferentStamps(s: State, b: nat, c: nat)
    requires Listed(s) && b < |s.bufs| && c < |s.bufs| && b != c
    ensures s.stamp[b] != s.stamp[c]
  {
    assert b in s.order && c in s.order;
    var i :| 0 <= i < |s.order| && s.order[i] == b;
    var j :| 0 <= j < |s.order| && s.order[j] == c;
    if i < j { assert s.stamp[s.order[i]] > s.stamp[s.order[j]]; } else { assert s.stamp[s.order[j]] > s.stamp[s.order[i]]; }
  }

  /** The references never run out under a thread: brelse cannot drop below zero,
      and bread always finds its block on the disk. */
  lemma NoUnderflow(trace: seq<State>, acts: seq<Action>, i: nat, t: nat)
    requires IsRun(trace, acts) && i < |trace| && t < |trace[i].phase|
    ensures Sized(trace[i])
    ensures trace[i].phase[t].Leaving? ==> Enabled(trace[i], Drop(t))
    ensures trace[i].phase[t].Locked? ==> Enabled(trace[i], Fill(t))
    ensures trace[i].phase[t].Ready? ==> Enabled(trace[i], Write(t))
  {
    RunInv(trace, acts, i);
    var s := trace[i];
    assert Ranged(s, t);
    if !s.phase[t].Idle? {
      var b := s.phase[t].b;
      assert RefOk(s, t, b) && BufOk(s, b);
      assert s.refs[b] != {};
      assert |s.refs[b]| > 0;
    }
    hide Inv;
  }
}
