/**
  virtio_disk_rw from call to return, whatever else is going on: one transfer, the one
  the caller asked for.
 */
module VirtioCalls {

  import opened Common
  import opened Virtio
  import opened VirtioDriver
  import opened VirtioSleep
  import opened VirtioTransfer

  /** The device performs the request for buffer `b`. */
  predicate Serves(s: State, e: Event, b: nat) {
    e.Device? && e.a.DevPerform? && b < |s.heads| && s.heads[b] == Some(e.a.h)
  }

  /** No request for `b` has been performed since the call. */
  predicate NotYet(s: State, b: nat) {
    b < |s.heads| && (s.heads[b].None? || (s.heads[b].value in s.reqs && Early(s.reqs[s.heads[b].value].stage)))
  }

  /** Thread `t` is in the call it made in state `s0`. */
  predicate InCall(s0: State, w: World, t: nat, b: nat, write: bool) {
    && t < |w.phase| && Sized(w.s) && b < |s0.bufs| == |w.s.bufs|
    && if w.phase[t] == Wanting(b, write) || w.phase[t] == NoDesc(b, write) then
         w.s.heads[b].None? && w.s.bufs[b].block == s0.bufs[b].block && w.s.bufs[b].data == s0.bufs[b].data
       else
         && (w.phase[t] == Filling(b) || w.phase[t] == Testing(b) || w.phase[t] == OnBuf(b))
         && w.s.heads[b].Some? && Pending(s0, w.s, b, write, w.s.heads[b].value)
  }

  /** What an event does to a call under way. */
  ghost predicate Passes(s0: State, s: State, e: Event, s': State, b: nat, write: bool) {
    && b < |s0.bufs|
    && (Serves(s, e, b) ==> Moves(s0, s, s', b, write) && NotYet(s, b) && !NotYet(s', b))
    && (!Serves(s, e, b) ==> SameData(s, s', b) && (NotYet(s', b) <==> NotYet(s, b)))
  }

  // ---- before the request is made

  /** A step of the disk that is not about buffer `b`, which has no request. */
  lemma Unasked(s: State, a: Action, b: nat)
    requires Inv(s) && Guard(s, a) && Safe(s, a) && b < |s.bufs| && s.heads[b].None?
    requires (a.Prepare? ==> a.b != b) && (a.Touch? ==> a.b != b)
    ensures var s' := Apply(s, a);
            && Sized(s') && |s'.bufs| == |s.bufs| && s'.heads[b].None? && SameData(s, s', b) && s'.bufs[b].block == s.bufs[b].block
  {
    if a.DevPerform? {
      Performs(s, a.h);
      assert Tracked(s, a.h);
    }
    hide Inv, Chains, Requests, Avail, Used;
  }

  /** The thread's own events and those of others, on the disk. */
  lemma ActOf(w: World, e: Event, t: nat, b: nat)
    requires WorldOk(w) && Happens(w, e) && Act(w, e).Some? && t < |w.phase| && BufOf(w.phase[t]) == Some(b)
    ensures var a := Act(w, e).value;
            && Guard(w.s, a) && (a.Touch? ==> a.b != b)
            && (a.Prepare? && a.b == b ==> e.Got? && e.t == t)
            && (a.Finish? && a.b == b ==> e.Leave? && e.t == t)
            && (Serves(w.s, e, b) <==> a.DevPerform? && b < |w.s.heads| && w.s.heads[b] == Some(a.h))
  {
    hide Inv, Guard;
  }

  lemma PhaseOf(w: World, e: Event, t: nat, b: nat, write: bool)
    requires Happens(w, e) && (e.Interrupt? ==> Safe(w.s, Intr)) && t < |w.phase|
    ensures var p, p' := w.phase[t], Phases(w, e)[t];
            && (p == Wanting(b, write) || p == NoDesc(b, write) ==>
                  p' == Wanting(b, write) || p' == NoDesc(b, write) || (p' == Filling(b) && e.Got? && e.t == t && p == Wanting(b, write)))
            && (p == Filling(b) || p == Testing(b) || p == OnBuf(b) ==>
                  p' == Filling(b) || p' == Testing(b) || p' == OnBuf(b) || (p' == Away && e == Leave(t)))
            && (e == Leave(t) ==> p' == Away) && (e.Got? && e.t == t ==> p'.Filling?)
  {
    hide Guard, Safe;
  }

  predicate Wants(p: Phase, b: nat, write: bool) {
    p == Wanting(b, write) || p == NoDesc(b, write)
  }

  lemma AsksNow(s0: State, s: State, b: nat, write: bool, h: nat, i1: nat, i2: nat)
    requires Inv(s) && Guard(s, Prepare(b, write, h, i1, i2)) && b < |s0.bufs| == |s.bufs|
    requires s.bufs[b].block == s0.bufs[b].block && s.bufs[b].data == s0.bufs[b].data && s.heads[b].None?
    ensures var s' := Apply(s, Prepare(b, write, h, i1, i2));
            && Sized(s') && |s'.bufs| == |s.bufs| && s'.heads[b] == Some(h) && Pending(s0, s', b, write, h)
            && NotYet(s, b) && NotYet(s', b) && SameData(s, s', b)
  {
    Asks(s, b, write, h, i1, i2);
    hide Inv;
  }

  /** What an event leaves of the disk, and of the phase of `t`. */
  lemma AfterIs(w: World, e: Event, t: nat)
    requires Happens(w, e) && (Act(w, e).Some? ==> Safe(w.s, Act(w, e).value)) && t < |w.phase| && Sized(w.s)
    ensures var w' := After(w, e);
            && |w'.phase| == |w.phase| && w'.phase[t] == Phases(w, e)[t]
            && (Act(w, e).Some? ==> w'.s == Apply(w.s, Act(w, e).value))
            && (Act(w, e).None? ==> w'.s == w.s.(desc := w'.s.desc) && |w'.s.desc| == |w.s.desc|)
  {
    hide Guard, Safe, Apply;
  }

  lemma NoAct(w: World, e: Event, b: nat)
    requires Act(w, e).None?
    ensures !Serves(w.s, e, b)
  {
  }

  lemma WantingOn(s0: State, w: World, e: Event, t: nat, b: nat, write: bool)
    requires WorldOk(w) && Happens(w, e) && (Act(w, e).Some? ==> Safe(w.s, Act(w, e).value))
    requires InCall(s0, w, t, b, write) && Wants(w.phase[t], b, write)
    ensures var w' := After(w, e); InCall(s0, w', t, b, write) && Passes(s0, w.s, e, w'.s, b, write)
  {
    hide Inv, Guard, Safe, Apply, Moves;
    if e.Got? && e.t == t {
      AsksNow(s0, w.s, b, write, e.h, e.i1, e.i2);
    } else if Act(w, e).Some? {
      ActOf(w, e, t, b);
      Unasked(w.s, Act(w, e).value, b);
    } else {
      NoAct(w, e, b);
    }
    hide Happens, After, WorldOk;
    AfterIs(w, e, t);
    PhaseOf(w, e, t, b, write);
  }

  lemma SamePending(s0: State, s: State, s': State, b: nat, write: bool, h: nat)
    requires Pending(s0, s, b, write, h) && s' == s.(desc := s'.desc) && |s'.desc| == |s.desc|
    ensures Pending(s0, s', b, write, h)
  {
  }

  lemma LivesPasses(s0: State, s: State, a: Action, s': State, e: Event, b: nat, write: bool, h: nat)
    requires Lives(s0, s, a, s', b, write, h) && (Serves(s, e, b) <==> a == DevPerform(h))
    ensures Passes(s0, s, e, s', b, write) && s'.heads[b] == Some(h) && |s'.bufs| == |s0.bufs|
  {
    hide Moves;
  }

  lemma AskedOn(s0: State, w: World, e: Event, t: nat, b: nat, write: bool)
    requires WorldOk(w) && Happens(w, e) && (Act(w, e).Some? ==> Safe(w.s, Act(w, e).value))
    requires InCall(s0, w, t, b, write) && !Wants(w.phase[t], b, write) && e != Leave(t)
    ensures var w' := After(w, e); InCall(s0, w', t, b, write) && Passes(s0, w.s, e, w'.s, b, write)
  {
    hide Inv, Guard, Safe, Apply, Moves, After, Happens, Early;
    var h, w' := w.s.heads[b].value, After(w, e);
    AfterIs(w, e, t);
    PhaseOf(w, e, t, b, write);
    if Act(w, e).Some? {
      ActOf(w, e, t, b);
      hide Act;
      LifeStep(s0, w.s, Act(w, e).value, b, write, h);
      LivesPasses(s0, w.s, Act(w, e).value, w'.s, e, b, write, h);
      hide Passes;
    } else {
      SamePending(s0, w.s, w'.s, b, write, h);
      NoAct(w, e, b);
    }
  }

  // ---- runs

  /** Thread `t` calls at event `a` and has not returned before state `u`. */
  ghost predicate Calling(trace: seq<World>, es: seq<Event>, a: nat, u: nat, t: nat, b: nat, write: bool) {
    && IsWorldRun(trace, es) && a < u < |trace| == |es| + 1 && es[a] == Call(t, b, write)
    && forall v :: a < v < u ==> t < |trace[v].phase| && trace[v].phase[t] != Away
  }

  lemma Calls(w: World, t: nat, b: nat, write: bool)
    requires WorldOk(w) && Happens(w, Call(t, b, write))
    ensures var w' := After(w, Call(t, b, write)); InCall(w.s, w', t, b, write) && NotYet(w'.s, b) && SameData(w.s, w'.s, b)
  {
    hide Inv;
  }

  lemma LeavesDone(w: World, t: nat, b: nat)
    requires WorldOk(w) && Happens(w, Leave(t)) && w.phase[t] == Testing(b)
    ensures !NotYet(w.s, b)
  {
    VirtioTransfer.Done(w.s, b);
  }

  lemma LeaveEnds(w: World, t: nat)
    requires WorldOk(w) && Happens(w, Leave(t))
    ensures Safe(w.s, Finish(w.phase[t].b)) && Act(w, Leave(t)) == Some(Finish(w.phase[t].b))
    ensures var w' := After(w, Leave(t)); |w'.phase| == |w.phase| && w'.phase[t] == Away && w'.s.bufs == w.s.bufs
  {
    WorldKeeps(w, Leave(t));
    hide Inv, WorldOk;
  }

  lemma LeaveInRun(trace: seq<World>, es: seq<Event>, v: nat, t: nat)
    requires IsWorldRun(trace, es) && v < |es| && es[v] == Leave(t)
    ensures t < |trace[v + 1].phase| && trace[v + 1].phase[t] == Away && trace[v + 1].s.bufs == trace[v].s.bufs
  {
    WorldRun(trace, es, v);
    hide WorldOk, Happens, After, Act;
    LeaveEnds(trace[v], t);
  }

  /** One event of the call, in a run. */
  lemma EventOn(trace: seq<World>, es: seq<Event>, a: nat, u: nat, t: nat, b: nat, write: bool)
    requires Calling(trace, es, a, u, t, b, write) && u < |es| && InCall(trace[a].s, trace[u], t, b, write)
    ensures if es[u] == Leave(t) then !NotYet(trace[u].s, b)
            else InCall(trace[a].s, trace[u + 1], t, b, write) && Passes(trace[a].s, trace[u].s, es[u], trace[u + 1].s, b, write)
  {
    WorldRun(trace, es, u);
    hide WorldOk, Happens, After, InCall, Passes, NotYet, Boot, Act;
    WorldKeeps(trace[u], es[u]);
    if es[u] == Leave(t) {
      assert trace[u].phase[t] == Testing(b) by { LeavesFrom(trace[u], t, b, trace[a].s, write); }
      LeavesDone(trace[u], t, b);
    } else if Wants(trace[u].phase[t], b, write) {
      WantingOn(trace[a].s, trace[u], es[u], t, b, write);
    } else {
      AskedOn(trace[a].s, trace[u], es[u], t, b, write);
    }
  }

  lemma LeavesFrom(w: World, t: nat, b: nat, s0: State, write: bool)
    requires Happens(w, Leave(t)) && InCall(s0, w, t, b, write)
    ensures w.phase[t] == Testing(b)
  {
    hide Guard;
  }

  lemma {:induction false} InCallStill(trace: seq<World>, es: seq<Event>, a: nat, u: nat, t: nat, b: nat, write: bool)
    requires Calling(trace, es, a, u, t, b, write) && (forall v :: a < v < u ==> es[v] != Leave(t))
    ensures InCall(trace[a].s, trace[u], t, b, write)
    ensures SameData(trace[a].s, trace[a + 1].s, b) && NotYet(trace[a + 1].s, b)
    ensures u > a + 1 ==> Passes(trace[a].s, trace[u - 1].s, es[u - 1], trace[u].s, b, write)
    decreases u
  {
    hide WorldOk, Happens, After, InCall, Passes, NotYet, Boot, Act, SameData;
    if u == a + 1 {
      WorldRun(trace, es, a);
      WorldKeeps(trace[a], es[a]);
      Calls(trace[a], t, b, write);
    } else {
      InCallStill(trace, es, a, u - 1, t, b, write);
      EventOn(trace, es, a, u - 1, t, b, write);
    }
  }

  /** Event `v` of the call is the device performing its request. */
  predicate ServedAt(trace: seq<World>, es: seq<Event>, a: nat, v: nat, u: nat, b: nat) {
    a < v < u <= |es| && v < |trace| && Serves(trace[v].s, es[v], b)
  }

  lemma {:induction false} AtMostOnce(trace: seq<World>, es: seq<Event>, a: nat, u: nat, t: nat, b: nat, write: bool)
    requires Calling(trace, es, a, u, t, b, write) && (forall v :: a < v < u ==> es[v] != Leave(t))
    ensures NotYet(trace[u].s, b) <==> !exists v: nat :: ServedAt(trace, es, a, v, u, b)
    ensures forall v: nat, w: nat :: ServedAt(trace, es, a, v, u, b) && ServedAt(trace, es, a, w, u, b) ==> v == w
    decreases u
  {
    hide IsWorldRun, InCall, NotYet, Serves, SameData, Moves;
    InCallStill(trace, es, a, u, t, b, write);
    if u > a + 1 {
      var k: nat := u - 1;
      AtMostOnce(trace, es, a, k, t, b, write);
      forall v: nat | ServedAt(trace, es, a, v, u, b)
        ensures v == k || ServedAt(trace, es, a, v, k, b)
      {
      }
      forall v: nat | ServedAt(trace, es, a, v, k, b)
        ensures ServedAt(trace, es, a, v, u, b)
      {
      }
      if Serves(trace[k].s, es[k], b) { assert ServedAt(trace, es, a, k, u, b); }
    }
  }

  lemma OnlyLeave(trace: seq<World>, es: seq<Event>, a: nat, u: nat, t: nat, b: nat, write: bool)
    requires Calling(trace, es, a, u, t, b, write) && t < |trace[u].phase| && trace[u].phase[t] == Away
    ensures u > a + 1 && es[u - 1] == Leave(t) && forall v :: a < v < u - 1 ==> es[v] != Leave(t)
    ensures trace[u].s.bufs == trace[u - 1].s.bufs
  {
    hide IsWorldRun, InCall, NotYet, Passes, SameData;
    forall v: nat | a < v < u - 1
      ensures es[v] != Leave(t)
    {
      if es[v] == Leave(t) { LeaveInRun(trace, es, v, t); }
    }
    if u == a + 1 || es[u - 1] != Leave(t) {
      InCallStill(trace, es, a, u, t, b, write);
      CallBuffer(trace[a].s, trace[u], t, b, write);
    } else {
      LeaveInRun(trace, es, u - 1, t);
    }
  }

  /** The events of the call that do not serve it leave the bytes of the buffer alone. */
  lemma OthersSilent(trace: seq<World>, es: seq<Event>, a: nat, u: nat, t: nat, b: nat, write: bool, w: nat)
    requires Calling(trace, es, a, u, t, b, write) && t < |trace[u].phase| && trace[u].phase[t] == Away
    requires a <= w < u && !Serves(trace[w].s, es[w], b)
    ensures SameData(trace[w].s, trace[w + 1].s, b)
  {
    hide IsWorldRun, InCall, NotYet, Moves, Serves;
    OnlyLeave(trace, es, a, u, t, b, write);
    if w < u - 1 {
      InCallStill(trace, es, a, w + 1, t, b, write);
    } else {
      InCallStill(trace, es, a, w, t, b, write);
      CallBuffer(trace[a].s, trace[w], t, b, write);
    }
  }

  lemma ServedBefore(trace: seq<World>, es: seq<Event>, a: nat, v: nat, u: nat, t: nat, b: nat)
    requires ServedAt(trace, es, a, v, u, b) && es[u - 1] == Leave(t)
    ensures ServedAt(trace, es, a, v, u - 1, b)
  {
  }

  /** virtio_disk_rw returns after the device has performed exactly one request for the
      buffer: a write took the bytes the buffer held at the call to its block, a read
      brought the bytes of the block. No other event touches the bytes of the buffer. */
  lemma RwReturns(trace: seq<World>, es: seq<Event>, a: nat, u: nat, t: nat, b: nat, write: bool)
    requires Calling(trace, es, a, u, t, b, write) && t < |trace[u].phase| && trace[u].phase[t] == Away
    ensures b < |trace[a].s.bufs|
    ensures exists v: nat :: ServedAt(trace, es, a, v, u, b) && Moves(trace[a].s, trace[v].s, trace[v + 1].s, b, write)
    ensures forall v: nat, w: nat :: ServedAt(trace, es, a, v, u, b) && ServedAt(trace, es, a, w, u, b) ==> v == w
    ensures forall w: nat :: a <= w < u && !Serves(trace[w].s, es[w], b) ==> SameData(trace[w].s, trace[w + 1].s, b)
  {
    hide IsWorldRun, InCall, NotYet, Moves, Serves, SameData;
    OnlyLeave(trace, es, a, u, t, b, write);
    var k: nat := u - 1;
    AtMostOnce(trace, es, a, k, t, b, write);
    InCallStill(trace, es, a, k, t, b, write);
    EventOn(trace, es, a, k, t, b, write);
    CallBuffer(trace[a].s, trace[k], t, b, write);
    var v: nat :| ServedAt(trace, es, a, v, k, b);
    InCallStill(trace, es, a, v + 1, t, b, write);
    assert ServedAt(trace, es, a, v, u, b);
    forall v: nat | ServedAt(trace, es, a, v, u, b)
      ensures ServedAt(trace, es, a, v, k, b)
    {
      ServedBefore(trace, es, a, v, u, t, b);
    }
    forall w: nat | a <= w < u && !Serves(trace[w].s, es[w], b)
      ensures SameData(trace[w].s, trace[w + 1].s, b)
    {
      OthersSilent(trace, es, a, u, t, b, write, w);
    }
  }

  lemma CallBuffer(s0: State, w: World, t: nat, b: nat, write: bool)
    requires InCall(s0, w, t, b, write)
    ensures b < |s0.bufs| && b < |w.s.bufs| && t < |w.phase| && w.phase[t] != Away
  {
  }
}
