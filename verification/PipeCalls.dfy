/**
  pipewrite and piperead call by call, over whole runs: the bytes each call puts into
  the pipe or takes out of it, and when it returns.
 */
module PipeCalls {

  import opened Common
  import opened Pipe

  function Suffix(a: seq<byte>, b: seq<byte>): seq<byte> {
    if |a| <= |b| then b[|a|..] else []
  }

  /** The bytes that the turns of thread `t` have put in, from state `a` to state `u`. */
  function Put(trace: seq<State>, acts: seq<Action>, t: nat, a: nat, u: nat): seq<byte>
    requires a <= u < |trace| == |acts| + 1
    decreases u
  {
    if u == a then [] else Put(trace, acts, t, a, u - 1) + if acts[u - 1] == Turn(t) then Suffix(trace[u - 1].stored, trace[u].stored) else []
  }

  /** And those they have taken out. */
  function Got(trace: seq<State>, acts: seq<Action>, t: nat, a: nat, u: nat): seq<byte>
    requires a <= u < |trace| == |acts| + 1
    decreases u
  {
    if u == a then [] else Got(trace, acts, t, a, u - 1) + if acts[u - 1] == Turn(t) then Suffix(trace[u - 1].consumed, trace[u].consumed) else []
  }

  /** Thread `t` has not returned between its call at `a` and state `u`. */
  ghost predicate Still(trace: seq<State>, acts: seq<Action>, t: nat, a: nat, u: nat) {
    && IsRun(trace, acts) && a < u < |trace| == |acts| + 1 && t < |trace[u].phase|
    && forall v :: a < v < u ==> t < |trace[v].phase| && !trace[v].phase[t].Out?
  }

  // ---- pipewrite

  /** The bytes `g` are the first of `data`. */
  predicate First(g: seq<byte>, data: seq<Option<byte>>) {
    |g| <= |data| && forall j :: 0 <= j < |g| ==> data[j] == Some(g[j])
  }

  predicate Writing(s: State, t: nat, data: seq<Option<byte>>, g: seq<byte>) {
    t < |s.phase| && Writer(s.phase[t]) && s.phase[t].data == data && s.phase[t].i == |g| && First(g, data)
  }

  /** Why a pipewrite that has stored `g` returns: all is stored, or nobody reads, or the next
      byte cannot be copied in, or the thread was killed. */
  predicate WriteOver(s: State, a: Action, t: nat, data: seq<Option<byte>>, g: seq<byte>) {
    && First(g, data)
    && ((a == Turn(t) && (|g| == |data| || !s.readopen || (!Full(s) && data[|g|].None?)))
        || (a == Killed(t) && |g| < |data|))
  }

  lemma SuffixOf(a: seq<byte>, c: byte, g: seq<byte>)
    ensures Suffix(a, a) == [] && g + [] == g && Suffix(a, a + [c]) == [c]
  {
  }

  lemma FirstMore(g: seq<byte>, data: seq<Option<byte>>, c: byte)
    requires First(g, data) && |g| < |data| && data[|g|] == Some(c)
    ensures First(g + [c], data)
  {
  }

  lemma WriteTurns(s: State, t: nat, data: seq<Option<byte>>, g: seq<byte>)
    requires Enabled(s, Turn(t)) && Writing(s, t, data, g)
    ensures var s' := Apply(s, Turn(t));
            var g' := g + Suffix(s.stored, s'.stored);
            t < |s'.phase| && (Writing(s', t, data, g') || (s'.phase[t].Out? && g' == g && WriteOver(s, Turn(t), t, data, g)))
  {
    assert |g| <= |data|;
    hide First, Suffix;
    var c := if |g| < |data| && data[|g|].Some? then data[|g|].value else 0;
    SuffixOf(s.stored, c, g);
    if |g| < |data| && data[|g|].Some? { FirstMore(g, data, c); }
  }

  /** The action is a step of thread `t`. */
  predicate By(a: Action, t: nat) {
    match a
    case CloseRead => false
    case CloseWrite => false
    case _ => a.t == t
  }

  /** Others can only wake a thread. */
  lemma OthersWake(s: State, a: Action, t: nat)
    requires Enabled(s, a) && t < |s.phase| && !By(a, t)
    ensures var p, p' := s.phase[t], Apply(s, a).phase[t]; |Apply(s, a).phase| == |s.phase| && (p' == p || p' == Woken(p, true) || p' == Woken(p, false))
  {
  }

  lemma WriteWaits(s: State, a: Action, t: nat, data: seq<Option<byte>>, g: seq<byte>)
    requires Enabled(s, a) && Writing(s, t, data, g) && a != Turn(t)
    ensures var s' := Apply(s, a);
            t < |s'.phase| && (Writing(s', t, data, g) || (s'.phase[t].Out? && WriteOver(s, a, t, data, g)))
  {
    hide First;
    if !By(a, t) {
      OthersWake(s, a, t);
      hide Enabled, Apply;
    }
  }

  lemma WriteOn(s: State, a: Action, t: nat, data: seq<Option<byte>>, g: seq<byte>, g': seq<byte>)
    requires Enabled(s, a) && Writing(s, t, data, g)
    requires g' == g + if a == Turn(t) then Suffix(s.stored, Apply(s, a).stored) else []
    ensures var s' := Apply(s, a);
            t < |s'.phase| && (Writing(s', t, data, g') || (s'.phase[t].Out? && WriteOver(s, a, t, data, g')))
  {
    hide Enabled, Apply, Writing, WriteOver, Suffix;
    if a == Turn(t) {
      WriteTurns(s, t, data, g);
    } else {
      WriteWaits(s, a, t, data, g);
      assert g' == g;
    }
  }

  lemma WriteFirst(s: State, t: nat, data: seq<Option<byte>>)
    requires Enabled(s, Write(t, data))
    ensures Writing(Apply(s, Write(t, data)), t, data, [])
  {
  }

  lemma {:induction false} Writes(trace: seq<State>, acts: seq<Action>, t: nat, data: seq<Option<byte>>, a: nat, u: nat)
    requires Still(trace, acts, t, a, u) && acts[a] == Write(t, data)
    ensures var g := Put(trace, acts, t, a, u);
            Writing(trace[u], t, data, g) || (trace[u].phase[t].Out? && WriteOver(trace[u - 1], acts[u - 1], t, data, g))
    decreases u
  {
    hide Init, Enabled, Apply, WriteOver, Writing, Suffix;
    if u > a + 1 {
      Writes(trace, acts, t, data, a, u - 1);
      WriteOn(trace[u - 1], acts[u - 1], t, data, Put(trace, acts, t, a, u - 1), Put(trace, acts, t, a, u));
    } else {
      WriteFirst(trace[a], t, data);
      GotNone(trace, acts, t, a);
    }
  }

  /** What a pipewrite puts into the pipe, in order, are the first of the bytes it was given:
      all of them, unless nobody reads any more, a byte cannot be copied in or the thread
      is killed. */
  lemma PipewriteStores(trace: seq<State>, acts: seq<Action>, t: nat, data: seq<Option<byte>>, a: nat, u: nat)
    requires Still(trace, acts, t, a, u) && acts[a] == Write(t, data) && trace[u].phase[t].Out?
    ensures var g, s := Put(trace, acts, t, a, u), trace[u - 1];
            && |g| <= |data| && (forall j :: 0 <= j < |g| ==> data[j] == Some(g[j]))
            && (|g| == |data| || !s.readopen || data[|g|].None? || acts[u - 1] == Killed(t))
  {
    Writes(trace, acts, t, data, a, u);
  }

  /** Nothing else puts bytes in: every step adds none, or one byte by the turn of a thread
      in pipewrite. */
  lemma StoredByWriters(trace: seq<State>, acts: seq<Action>, i: nat)
    requires IsRun(trace, acts) && i < |acts|
    ensures var s, s' := trace[i], trace[i + 1];
            s'.stored == s.stored
            || (acts[i].Turn? && acts[i].t < |s.phase| && s.phase[acts[i].t].W? && s.stored <= s'.stored && |s'.stored| == |s.stored| + 1)
  {
    var s, a := trace[i], acts[i];
    if a.Turn? && s.phase[a.t].W? && trace[i + 1].stored != s.stored {
      assert trace[i + 1].stored == s.stored + [s.phase[a.t].data[s.phase[a.t].i].value];
    }
  }

  // ---- piperead

  /** The bytes `g` are the last that were taken out. */
  predicate Last(g: seq<byte>, consumed: seq<byte>) {
    |g| <= |consumed| && consumed[|consumed| - |g|..] == g
  }

  /** Thread `t` is in a read of `n` bytes and has taken `g`. With nothing taken so far when
      the loop has begun, there is something to take or nobody writes. */
  predicate Reading(s: State, t: nat, n: nat, g: seq<byte>) {
    && t < |s.phase| && Reader(s.phase[t]) && s.phase[t].n == n && |g| <= n
    && if s.phase[t].R? then s.phase[t].i == |g| && Last(g, s.consumed) && (g != [] || !Empty(s) || !s.writeopen) else g == []
  }

  /** Why a piperead that has delivered `g` returns: it has all it asked for, or the pipe is
      empty; or a byte taken out could not be copied out; or the thread was killed. */
  predicate ReadOver(s: State, a: Action, t: nat, n: nat, g: seq<byte>) {
    && |g| <= n && Last(g, s.consumed)
    && ((a == Turn(t) && (|g| == n || Empty(s)) && (g == [] && n > 0 ==> !s.writeopen))
        || (a == CopyFails(t) && |g| < n && !Empty(s))
        || (a == Killed(t) && g == [] && Empty(s) && s.writeopen))
  }

  /** Nobody else takes a turn while a reader has the lock. */
  lemma ReadAlone(s: State, a: Action, t: nat)
    requires Inv(s) && Enabled(s, a) && t < |s.phase| && s.phase[t].R? && !By(a, t)
    ensures var s' := Apply(s, a);
            |s'.phase| == |s.phase| && s'.phase[t] == s.phase[t] && s'.consumed == s.consumed && Empty(s') == Empty(s) && s'.writeopen == s.writeopen
  {
    forall u: nat | u < |s.phase| && HasLock(s.phase[u])
      ensures u == t
    {
      assert ThreadOk(s, u) && ThreadOk(s, t);
    }
    assert ThreadOk(s, t);
  }

  lemma LastMore(g: seq<byte>, consumed: seq<byte>, c: byte)
    ensures Last([], consumed) && (Last(g, consumed) ==> Last(g + [c], consumed + [c]))
  {
  }

  lemma ReadTurns(s: State, t: nat, n: nat, g: seq<byte>)
    requires Enabled(s, Turn(t)) && Reading(s, t, n, g)
    ensures var s' := Apply(s, Turn(t));
            var g' := g + Suffix(s.consumed, s'.consumed);
            t < |s'.phase| && (Reading(s', t, n, g') || (s'.phase[t].Out? && g' == g && ReadOver(s, Turn(t), t, n, g)))
  {
    hide Last, Suffix;
    var c := s.buf[s.nread % PIPESIZE];
    SuffixOf(s.consumed, c, g);
    LastMore(g, s.consumed, c);
  }

  lemma ReadWaits(s: State, a: Action, t: nat, n: nat, g: seq<byte>)
    requires Inv(s) && Enabled(s, a) && Reading(s, t, n, g) && a != Turn(t)
    ensures var s' := Apply(s, a);
            t < |s'.phase| && (Reading(s', t, n, g) || (s'.phase[t].Out? && ReadOver(s, a, t, n, g)))
  {
    if !By(a, t) {
      if s.phase[t].R? { ReadAlone(s, a, t); } else { OthersWake(s, a, t); }
      hide Inv, Enabled, Apply, Last;
    } else {
      hide Inv;
    }
  }

  lemma GotNone(trace: seq<State>, acts: seq<Action>, t: nat, a: nat)
    requires a + 1 < |trace| == |acts| + 1 && acts[a] != Turn(t)
    ensures Got(trace, acts, t, a, a + 1) == Put(trace, acts, t, a, a + 1) == []
  {
  }

  lemma ReadOn(s: State, a: Action, t: nat, n: nat, g: seq<byte>, g': seq<byte>)
    requires Inv(s) && Enabled(s, a) && Reading(s, t, n, g)
    requires g' == g + if a == Turn(t) then Suffix(s.consumed, Apply(s, a).consumed) else []
    ensures var s' := Apply(s, a);
            t < |s'.phase| && (Reading(s', t, n, g') || (s'.phase[t].Out? && ReadOver(s, a, t, n, g')))
  {
    hide Inv, Enabled, Apply, Reading, ReadOver, Suffix;
    if a == Turn(t) {
      ReadTurns(s, t, n, g);
    } else {
      ReadWaits(s, a, t, n, g);
      assert g' == g;
    }
  }

  lemma ReadFirst(s: State, t: nat, n: nat)
    requires Enabled(s, Read(t, n))
    ensures Reading(Apply(s, Read(t, n)), t, n, [])
  {
  }

  lemma {:induction false} Reads(trace: seq<State>, acts: seq<Action>, t: nat, n: nat, a: nat, u: nat)
    requires Still(trace, acts, t, a, u) && acts[a] == Read(t, n)
    ensures var g := Got(trace, acts, t, a, u);
            Reading(trace[u], t, n, g) || (trace[u].phase[t].Out? && ReadOver(trace[u - 1], acts[u - 1], t, n, g))
    decreases u
  {
    hide Init, Enabled, Apply, ReadOver, Inv, Reading, Suffix;
    if u > a + 1 {
      Reads(trace, acts, t, n, a, u - 1);
      RunInv(trace, acts, u - 1);
      ReadOn(trace[u - 1], acts[u - 1], t, n, Got(trace, acts, t, a, u - 1), Got(trace, acts, t, a, u));
    } else {
      ReadFirst(trace[a], t, n);
      GotNone(trace, acts, t, a);
    }
  }

  /** A piperead delivers the bytes taken out last, at most as many as asked for: that many,
      unless the pipe is empty then, or copying out fails, or the thread is killed while it
      waits. With none delivered and some asked for, nobody can write any more. */
  lemma PipereadDelivers(trace: seq<State>, acts: seq<Action>, t: nat, n: nat, a: nat, u: nat)
    requires Still(trace, acts, t, a, u) && acts[a] == Read(t, n) && trace[u].phase[t].Out?
    ensures var g, s := Got(trace, acts, t, a, u), trace[u - 1];
            && |g| <= n && |g| <= |s.consumed| && s.consumed[|s.consumed| - |g|..] == g
            && (acts[u - 1] == Turn(t) ==> |g| == n || |s.stored| == |s.consumed|)
            && (acts[u - 1] == Turn(t) && g == [] && n > 0 ==> !s.writeopen)
            && (acts[u - 1] == Turn(t) || acts[u - 1] == CopyFails(t) || (acts[u - 1] == Killed(t) && g == []))
            && (acts[u - 1] == CopyFails(t) ==> |g| < n && |trace[u].consumed| == |s.consumed| + 1)
  {
    Reads(trace, acts, t, n, a, u);
    RunInv(trace, acts, u - 1);
    Tests(trace[u - 1]);
  }

  /** No turn keeps the lock for nothing: it moves a byte, or lets go of the lock, or is the
      test that finds something to read or nobody to write. */
  lemma TurnsMove(trace: seq<State>, acts: seq<Action>, i: nat, t: nat)
    requires IsRun(trace, acts) && i < |acts| && acts[i] == Turn(t)
    ensures var s, s' := trace[i], trace[i + 1];
            && t < |s.phase|
            && (|| s'.lock == None
                || |s'.stored| == |s.stored| + 1
                || |s'.consumed| == |s.consumed| + 1
                || (s.phase[t].RWait? && t < |s'.phase| && s'.phase[t].R? && (s.stored != s.consumed || !s.writeopen)))
    ensures var s, s' := trace[i], trace[i + 1];
            s.phase[t].W? && s.phase[t].i < |s.phase[t].data| && s.readopen && |s.stored| == |s.consumed| + 512 ==>
              t < |s'.phase| && s'.phase[t].WSleep? && forall u :: 0 <= u < |s'.phase| ==> !s'.phase[u].RSleep?
  {
    RunInv(trace, acts, i);
    Tests(trace[i]);
    hide Inv;
  }
}
