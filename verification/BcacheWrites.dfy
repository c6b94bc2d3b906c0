/**
  bwrite over whole runs of the buffer cache, told by the calls alone: what reaches
  the disk is what its holder last put in the buffer, under the block it asked for, and
  whoever reads the block next finds it.
 */
module BcacheWrites {

  import opened Common
  import opened Bcache

  predicate Changes(a: Action, t: nat) {
    a.Change? && a.t == t
  }

  /** Thread `t` is at work on a buffer of the block. */
  predicate Working(s: State, t: nat, key: Key) {
    t < |s.phase| && !s.phase[t].Idle? && s.phase[t].b < |s.bufs| && s.bufs[s.phase[t].b].Key() == key
  }

  /** The bytes that bread finds: those of the buffer if they are valid, else the disk's. */
  predicate Finds(s: State, t: nat, d: Data)
    requires t < |s.phase| && !s.phase[t].Idle? && s.phase[t].b < |s.bufs|
  {
    var x := s.bufs[s.phase[t].b];
    if x.valid then d == x.data else x.Key() in s.disk && d == s.disk[x.Key()]
  }

  /** Step `j` is the last before `i` to say what the buffer of `t` holds: a change by `t`, or
      its bread. */
  ghost predicate Told(trace: seq<State>, acts: seq<Action>, j: nat, i: nat, t: nat, key: Key, d: Data) {
    && j < i <= |acts| && j < |trace| && Working(trace[j], t, key)
    && (acts[j] == Change(t, d) || (acts[j] == Fill(t) && Finds(trace[j], t, d)))
    && forall m :: j < m < i ==> !Changes(acts[m], t) && acts[m] != Fill(t)
  }

  /** The buffer of `t` holds `d`. */
  predicate Has(s: State, t: nat, d: Data) {
    t < |s.phase| && s.phase[t].Ready? && s.phase[t].b < |s.bufs| && s.bufs[s.phase[t].b].data == d
  }

  lemma OtherHolder(s: State, a: Action, t: nat)
    requires Inv(s) && Enabled(s, a) && a.t != t && t < |s.phase| && !s.phase[t].Idle?
    ensures var s', b := Apply(s, a), s.phase[t].b;
            && b < |s.bufs| == |s'.bufs| && s'.phase[t] == s.phase[t] && s'.bufs[b].Key() == s.bufs[b].Key()
            && (s.phase[t].Ready? ==> s'.bufs[b].data == s.bufs[b].data)
  {
    assert Ranged(s, t);
    var b := s.phase[t].b;
    assert RefOk(s, t, b) && RefOk(s, a.t, b) && BufOk(s, b);
    hide Inv, Listed, Hit, Without, Distinct;
  }

  /** A step between bget and the end of brelse. */
  lemma WorkOn(s: State, a: Action, t: nat, key: Key)
    requires Inv(s) && Enabled(s, a) && Working(s, t, key) && a != Drop(t)
    ensures var s' := Apply(s, a);
            && Working(s', t, key) && s'.phase[t].b == s.phase[t].b
            && (s.phase[t].Ready? && !Changes(a, t) && s'.phase[t].Ready? ==> s'.bufs[s.phase[t].b].data == s.bufs[s.phase[t].b].data)
            && (s'.phase[t].Ready? ==> s.phase[t].Ready? || a == Fill(t))
            && (a == Fill(t) ==> exists d :: Finds(s, t, d) && Has(s', t, d))
            && (Changes(a, t) ==> Has(s', t, a.data))
  {
    if a.t != t {
      OtherHolder(s, a, t);
      hide Inv, Hit, Victim, Without;
    } else {
      hide Inv, Hit, Victim, Without;
      if a.Fill? {
        var x := s.bufs[s.phase[t].b];
        var d := if x.valid then x.data else s.disk[x.Key()];
        assert Finds(s, t, d) && Has(Apply(s, a), t, d);
      }
    }
  }

  /** From the bget of a block to state `i`, with its brelse not yet over. */
  ghost predicate Session(trace: seq<State>, acts: seq<Action>, g: nat, i: nat, t: nat, dev: nat, block: nat) {
    && IsRun(trace, acts) && g < i < |trace| == |acts| + 1 && acts[g] == Get(t, dev, block)
    && forall m :: g < m < i ==> acts[m] != Drop(t)
  }

  lemma Gets(s: State, t: nat, dev: nat, block: nat)
    requires Enabled(s, Get(t, dev, block))
    ensures var s' := Apply(s, Get(t, dev, block)); Working(s', t, (dev, block)) && s'.phase[t].Waiting?
  {
  }

  lemma {:induction false} Works(trace: seq<State>, acts: seq<Action>, g: nat, i: nat, t: nat, dev: nat, block: nat)
    requires Session(trace, acts, g, i, t, dev, block)
    ensures Working(trace[i], t, (dev, block))
    ensures trace[i].phase[t].Ready? ==>
              exists j: nat, d :: g < j && Told(trace, acts, j, i, t, (dev, block), d) && Has(trace[i], t, d)
    decreases i
  {
    hide Inv, Init, Enabled, Apply;
    if i == g + 1 {
      Gets(trace[g], t, dev, block);
    } else {
      var k: nat := i - 1;
      Works(trace, acts, g, k, t, dev, block);
      RunInv(trace, acts, k);
      WorkOn(trace[k], acts[k], t, (dev, block));
      if trace[i].phase[t].Ready? {
        if Changes(acts[k], t) {
          assert Told(trace, acts, k, i, t, (dev, block), acts[k].data);
        } else if acts[k] == Fill(t) {
          var d :| Finds(trace[k], t, d) && Has(trace[i], t, d);
          assert Told(trace, acts, k, i, t, (dev, block), d);
        } else {
          var j: nat, d :| g < j && Told(trace, acts, j, k, t, (dev, block), d) && Has(trace[k], t, d);
          assert Told(trace, acts, j, i, t, (dev, block), d);
        }
      }
    }
  }

  lemma Writes(s: State, t: nat, key: Key, d: Data)
    requires Enabled(s, Write(t)) && Working(s, t, key) && Has(s, t, d)
    ensures var s' := Apply(s, Write(t)); s'.disk == s.disk[key := d] && s'.bufs == s.bufs
  {
  }

  /** After bwrite the disk has, under the block asked for, what the thread last put in the
      buffer, or what its bread found there if it changed nothing. No other block has
      changed and no buffer has. */
  lemma BwriteSaves(trace: seq<State>, acts: seq<Action>, g: nat, i: nat, t: nat, dev: nat, block: nat)
    requires Session(trace, acts, g, i, t, dev, block) && i < |acts| && acts[i] == Write(t)
    ensures exists j: nat, d :: g < j && Told(trace, acts, j, i, t, (dev, block), d) && trace[i + 1].disk == trace[i].disk[(dev, block) := d]
    ensures trace[i + 1].bufs == trace[i].bufs
  {
    Works(trace, acts, g, i, t, dev, block);
    var j: nat, d :| g < j && Told(trace, acts, j, i, t, (dev, block), d) && Has(trace[i], t, d);
    hide Told;
    Writes(trace[i], t, (dev, block), d);
  }

  // ---- read after write

  /** The disk and every valid buffer of the block agree on its bytes. */
  ghost predicate Shows(s: State, key: Key, d: Data) {
    && key in s.disk && s.disk[key] == d
    && forall c: nat :: c < |s.bufs| && s.bufs[c].Key() == key && s.bufs[c].valid ==> s.bufs[c].data == d
  }

  /** The action changes a buffer of the block, or writes one. */
  predicate Touches(s: State, a: Action, key: Key) {
    (a.Change? || a.Write?) && Working(s, a.t, key)
  }

  lemma WriteShows(s: State, t: nat, key: Key, d: Data)
    requires Inv(s) && Enabled(s, Write(t)) && Working(s, t, key) && Has(s, t, d)
    ensures Shows(Apply(s, Write(t)), key, d)
  {
    var b := s.phase[t].b;
    assert RefOk(s, t, b);
    forall c: nat | c < |s.bufs| && s.bufs[c].Key() == key && s.bufs[c].valid
      ensures s.bufs[c].data == d
    {
      assert Distinct(s, b, c);
    }
  }

  lemma ShowsOn(s: State, a: Action, key: Key, d: Data)
    requires Enabled(s, a) && Shows(s, key, d) && !Touches(s, a, key)
    ensures Shows(Apply(s, a), key, d)
  {
    hide Hit, Victim, Without;
  }

  lemma {:induction false} ShowsStill(trace: seq<State>, acts: seq<Action>, i: nat, u: nat, key: Key, d: Data)
    requires IsRun(trace, acts) && i <= u < |trace| && Shows(trace[i], key, d)
    requires forall m :: i <= m < u ==> !Touches(trace[m], acts[m], key)
    ensures Shows(trace[u], key, d)
    decreases u
  {
    hide Shows, Apply, Enabled, Init, Touches;
    if i < u {
      ShowsStill(trace, acts, i, u - 1, key, d);
      ShowsOn(trace[u - 1], acts[u - 1], key, d);
    }
  }

  /** Until somebody changes or writes the block again, every thread whose bread of it has
      returned sees the bytes of the last bwrite, and so does the disk: whatever buffers
      were recycled in between. */
  lemma ReadAfterBwrite(trace: seq<State>, acts: seq<Action>, g: nat, i: nat, t: nat, dev: nat, block: nat, u: nat)
    requires Session(trace, acts, g, i, t, dev, block) && i < |acts| && acts[i] == Write(t) && i < u < |trace|
    requires forall m :: i < m < u ==> !Touches(trace[m], acts[m], (dev, block))
    ensures exists j: nat, d ::
              && g < j && Told(trace, acts, j, i, t, (dev, block), d)
              && (dev, block) in trace[u].disk && trace[u].disk[(dev, block)] == d
              && forall r: nat :: Working(trace[u], r, (dev, block)) && trace[u].phase[r].Ready? ==> Has(trace[u], r, d)
  {
    Works(trace, acts, g, i, t, dev, block);
    var j: nat, d :| g < j && Told(trace, acts, j, i, t, (dev, block), d) && Has(trace[i], t, d);
    hide Told, Apply, Enabled, Init, Touches;
    RunInv(trace, acts, i);
    WriteShows(trace[i], t, (dev, block), d);
    ShowsStill(trace, acts, i + 1, u, (dev, block), d);
    RunInv(trace, acts, u);
    forall r: nat | Working(trace[u], r, (dev, block)) && trace[u].phase[r].Ready?
      ensures Has(trace[u], r, d)
    {
      assert RefOk(trace[u], r, trace[u].phase[r].b);
    }
  }
}
