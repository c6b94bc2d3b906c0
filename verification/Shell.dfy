/**
  The shell's tokenizer, parser and nulterminate (user/sh.c) on the characters
  of a line. `ps` is a position in the line; a token's text is a pair of positions.
 */
module Shell {

  import opened Common
  import opened ShellGrammar

  const NUL: char := '\0'

  predicate IsWs(c: char) {
    c == ' ' || c == '\t' || c == '\r' || c == '\n' || c == '\U{000B}'
  }

  predicate IsSym(c: char) {
    c == '<' || c == '|' || c == '>' || c == '&' || c == ';' || c == '(' || c == ')'
  }

  predicate Plain(c: char) {
    !IsWs(c) && !IsSym(c)
  }

  // ---- the tokens of a line

  function Skip(s: string, i: nat): (j: nat)
    requires i <= |s|
    ensures i <= j <= |s| && (j < |s| ==> !IsWs(s[j]))
    decreases |s| - i
  {
    if i < |s| && IsWs(s[i]) then Skip(s, i + 1) else i
  }

  function WordEnd(s: string, i: nat): (j: nat)
    requires i <= |s|
    ensures i <= j <= |s| && (j < |s| ==> !Plain(s[j])) && (i < |s| && Plain(s[i]) ==> i < j)
    decreases |s| - i
  {
    if i < |s| && Plain(s[i]) then WordEnd(s, i + 1) else i
  }

  /** The token at `j`, which is no white space, and where it ends. */
  function TokAt(s: string, j: nat): (r: (Tok, nat))
    requires j < |s| && !IsWs(s[j])
    ensures j < r.1 <= |s|
  {
    if s[j] == '>' && j + 1 < |s| && s[j + 1] == '>' then (App, j + 2)
    else if IsSym(s[j]) then (Sym(s[j]), j + 1)
    else (Word(j, WordEnd(s, j)), WordEnd(s, j))
  }

  function Lex(s: string, i: nat): seq<Tok>
    requires i <= |s|
    decreases |s| - i
  {
    var j := Skip(s, i);
    if j == |s| then [] else [TokAt(s, j).0] + Lex(s, TokAt(s, j).1)
  }

  lemma {:induction false} SkipTwice(s: string, i: nat)
    requires i <= |s|
    ensures Skip(s, Skip(s, i)) == Skip(s, i)
    decreases |s| - i
  {
    if i < |s| && IsWs(s[i]) {
      SkipTwice(s, i + 1);
    }
  }

  lemma LexSkip(s: string, i: nat)
    requires i <= |s|
    ensures Lex(s, Skip(s, i)) == Lex(s, i)
  {
    SkipTwice(s, i);
  }

  // ---- gettoken and peek

  /** What gettoken returns for a token. */
  function Code(t: Tok): char {
    match t
    case Sym(c) => c
    case App => '+'
    case Word(_, _) => 'a'
  }

  method SkipWs(s: string, i: nat) returns (j: nat)
    requires i <= |s|
    ensures j == Skip(s, i)
  {
    j := i;
    while j < |s| && IsWs(s[j])
      invariant i <= j <= |s| && Skip(s, i) == Skip(s, j)
    {
      j := j + 1;
    }
  }

  /** gettoken: the next token and its text, and the position after it. */
  method Gettoken(s: string, ps: nat) returns (ret: char, q: nat, eq: nat, ps': nat)
    requires ps <= |s| && NUL !in s
    ensures ps <= ps' <= |s|
    ensures if Lex(s, ps) == [] then ret == NUL && Lex(s, ps') == [] else ret == Code(Lex(s, ps)[0]) && Lex(s, ps') == Lex(s, ps)[1..] && ps < ps'
    ensures Lex(s, ps) != [] ==> var t := Lex(s, ps)[0]; (t.Word? ==> t == Word(q, eq)) && (t.Word? <==> ret == 'a') && ret != NUL
  {
    var i := SkipWs(s, ps);
    q := i;
    if i == |s| {
      ret := NUL;
    } else if s[i] == '>' {
      ret := '>';
      i := i + 1;
      if i < |s| && s[i] == '>' {
        ret := '+';
        i := i + 1;
      }
    } else if IsSym(s[i]) {
      ret := s[i];
      i := i + 1;
    } else {
      ret := 'a';
      while i < |s| && Plain(s[i])
        invariant q <= i <= |s| && WordEnd(s, q) == WordEnd(s, i)
      {
        i := i + 1;
      }
    }
    eq := i;
    LexSkip(s, i);
    ps' := SkipWs(s, i);
    assert q < |s| ==> TokAt(s, q).1 == i && s[q] in s;
  }

  /** A token that begins with one of these symbols. */
  predicate Starts(t: Tok, toks: string) {
    match t
    case Sym(c) => c in toks
    case App => '>' in toks
    case Word(_, _) => false
  }

  /** peek: whether the next token begins with one of `toks`. */
  method Peek(s: string, ps: nat, toks: string) returns (b: bool, ps': nat)
    requires ps <= |s| && forall c :: c in toks ==> IsSym(c)
    ensures ps <= ps' <= |s| && Lex(s, ps') == Lex(s, ps) && ps' == Skip(s, ps)
    ensures b == (Lex(s, ps) != [] && Starts(Lex(s, ps)[0], toks))
  {
    ps' := SkipWs(s, ps);
    LexSkip(s, ps);
    b := ps' < |s| && s[ps'] in toks;
  }

  // ---- the parser: each method takes in exactly what its rule of the grammar does

  /** The redirections still to come, put after those already read. */
  function More(rs: seq<Redirect>, r: Parse<seq<Redirect>>): Parse<seq<Redirect>> {
    match r case None => None case Some((rs', rest)) => Some((rs + rs', rest))
  }

  lemma OneRedirect(ts: seq<Tok>)
    requires |ts| >= 2 && IsOp(ts[0]) && ts[1].Word?
    ensures ParseRedirects(ts) == More([Redirect(ts[0], Span(ts[1].q, ts[1].e))], ParseRedirects(ts[2..]))
  {
  }

  lemma MoreOne(ts: seq<Tok>, rs: seq<Redirect>)
    requires |ts| >= 2 && IsOp(ts[0]) && ts[1].Word?
    ensures More(rs, ParseRedirects(ts)) == More(rs + [Redirect(ts[0], Span(ts[1].q, ts[1].e))], ParseRedirects(ts[2..]))
  {
    OneRedirect(ts);
    hide ParseRedirects;
    var r, next := Redirect(ts[0], Span(ts[1].q, ts[1].e)), ParseRedirects(ts[2..]);
    if next.Some? {
      assert rs + ([r] + next.value.0) == rs + [r] + next.value.0;
    }
  }

  /** parseredirs: the redirections in order, each to go around what is before it. */
  method Parseredirs(s: string, ps: nat) returns (ok: bool, rs: seq<Redirect>, ps': nat)
    requires ps <= |s| && NUL !in s
    ensures ps <= ps' <= |s|
    ensures ParseRedirects(Lex(s, ps)) == if ok then Some((rs, Lex(s, ps'))) else None
  {
    rs, ps' := [], ps;
    hide Lex;
    NoMore(ParseRedirects(Lex(s, ps)));
    while true
      invariant ps <= ps' <= |s| && ParseRedirects(Lex(s, ps)) == More(rs, ParseRedirects(Lex(s, ps')))
      decreases |s| - ps'
    {
      var b;
      b, ps' := Peek(s, ps', "<>");
      ghost var ts := Lex(s, ps');
      if !b {
        assert ts != [] ==> !IsOp(ts[0]);
        assert ParseRedirects(ts) == Some(([], ts)) && rs + [] == rs;
        return true, rs, ps';
      }
      var tok, q, eq, p := Gettoken(s, ps');
      assert IsOp(ts[0]);
      var tok', q', eq', p' := Gettoken(s, p);
      if tok' != 'a' {
        return false, rs, p';
      }
      MoreOne(ts, rs);
      assert ts[1..][1..] == ts[2..];
      rs := rs + [Redirect(if tok == '<' then Sym('<') else if tok == '>' then Sym('>') else App, Span(q', eq'))];
      ps' := p';
    }
  }

  lemma NoMore(r: Parse<seq<Redirect>>)
    ensures More([], r) == r
  {
    if r.Some? {
      assert [] + r.value.0 == r.value.0;
    }
  }

  /** Words and redirections read so far, and what is still to come. */
  function Rest(argv: seq<Span>, rs: seq<Redirect>, r: Parse<seq<Item>>): Option<(seq<Span>, seq<Redirect>, seq<Tok>)> {
    match r case None => None case Some((items, rest)) => Some((argv + Args(items), rs + Reds(items), rest))
  }

  lemma {:induction false} ItemsAfterReds(ts: seq<Tok>, argv: seq<Span>, rs: seq<Redirect>)
    ensures match ParseRedirects(ts)
            case None => ParseItems(ts, |argv|) == None
            case Some((rs', rest)) => Rest(argv, rs, ParseItems(ts, |argv|)) == Rest(argv, rs + rs', ParseItems(rest, |argv|))
    decreases |ts|
  {
    if ts == [] || !IsOp(ts[0]) {
      assert rs + [] == rs;
    } else if |ts| >= 2 && ts[1].Word? {
      var r := Redirect(ts[0], Span(ts[1].q, ts[1].e));
      ItemsAfterReds(ts[2..], argv, rs + [r]);
      RedFirst(ts, argv, rs);
      match ParseRedirects(ts[2..])
      case None =>
      case Some((rs', rest)) =>
        assert rs + ([r] + rs') == rs + [r] + rs';
    }
  }

  lemma RedFirst(ts: seq<Tok>, argv: seq<Span>, rs: seq<Redirect>)
    requires |ts| >= 2 && IsOp(ts[0]) && ts[1].Word?
    ensures Rest(argv, rs, ParseItems(ts, |argv|)) == Rest(argv, rs + [Redirect(ts[0], Span(ts[1].q, ts[1].e))], ParseItems(ts[2..], |argv|))
  {
    hide Args, Reds, ItemsToks;
    var r := Redirect(ts[0], Span(ts[1].q, ts[1].e));
    match ParseItems(ts[2..], |argv|)
    case None =>
    case Some((items, rest)) =>
      ItemsNext(Red(r), items);
      assert rs + ([r] + Reds(items)) == rs + [r] + Reds(items);
      assert [] + Args(items) == Args(items);
  }

  lemma OneWord(ts: seq<Tok>, argc: nat)
    requires ts != [] && ts[0].Word? && argc + 1 < MAXARGS
    ensures ParseItems(ts, argc) == match ParseItems(ts[1..], argc + 1)
                                    case None => None
                                    case Some((items, rest)) => Some(([Arg(Span(ts[0].q, ts[0].e))] + items, rest))
  {
  }

  lemma WordFirst(ts: seq<Tok>, argv: seq<Span>, rs: seq<Redirect>)
    requires ts != [] && ts[0].Word? && |argv| + 1 < MAXARGS
    ensures Rest(argv, rs, ParseItems(ts, |argv|)) == Rest(argv + [Span(ts[0].q, ts[0].e)], rs, ParseItems(ts[1..], |argv| + 1))
  {
    OneWord(ts, |argv|);
    hide Args, Reds, ItemsToks, ParseItems;
    var w, next := Span(ts[0].q, ts[0].e), ParseItems(ts[1..], |argv| + 1);
    if next.Some? {
      var items := next.value.0;
      ItemsNext(Arg(w), items);
      assert argv + ([w] + Args(items)) == argv + [w] + Args(items);
      assert [] + Reds(items) == Reds(items);
    }
  }

  lemma ItemsFail(ts: seq<Tok>, argc: nat)
    requires ts != [] && !Stop(ts[0]) && !IsOp(ts[0]) && (!ts[0].Word? || argc + 1 >= MAXARGS)
    ensures ParseItems(ts, argc) == None
  {
  }

  /** parseexec without a block: words and redirections until a symbol that
      ends the command. The list of arguments is wrapped once it is complete. */
  method Parsesimple(s: string, ps: nat) returns (ok: bool, cmd: Cmd, ps': nat)
    requires ps <= |s| && NUL !in s
    ensures ps <= ps' <= |s|
    ensures match ParseItems(Lex(s, ps), 0)
            case None => !ok
            case Some((items, rest)) => ok && cmd == ExecTree(Simple(items)) && rest == Lex(s, ps')
  {
    hide Lex, Args, Reds, ParseItems, ParseRedirects;
    cmd := Exec([]);
    var rs, argv: seq<Span> := [], [];
    ItemsAfterReds(Lex(s, ps), argv, rs);
    assert rs + [] == rs;
    ok, rs, ps' := Parseredirs(s, ps);
    if !ok {
      return;
    }
    assert [] + rs == rs;
    RedsEnd(Lex(s, ps));
    while true
      invariant ps <= ps' <= |s| && |argv| < MAXARGS
      invariant Rest([], [], ParseItems(Lex(s, ps), 0)) == Rest(argv, rs, ParseItems(Lex(s, ps'), |argv|))
      invariant Lex(s, ps') != [] ==> !IsOp(Lex(s, ps')[0])
      decreases |s| - ps'
    {
      var b;
      b, ps' := Peek(s, ps', "|)&;");
      ghost var ts := Lex(s, ps');
      var tok, q, eq, p;
      if !b {
        tok, q, eq, p := Gettoken(s, ps');
      }
      if b || tok == NUL {
        AtStop(s, ps, ps', argv, rs);
        return true, WrapAll(Exec(argv), rs), ps';
      }
      if tok != 'a' {
        ItemsFail(ts, |argv|);
        return false, cmd, p;
      }
      if |argv| + 1 >= MAXARGS {
        ItemsFail(ts, |argv|);
        return false, cmd, p;
      }
      WordFirst(ts, argv, rs);
      argv := argv + [Span(q, eq)];
      ItemsAfterReds(Lex(s, p), argv, rs);
      var more;
      ok, more, ps' := Parseredirs(s, p);
      if !ok {
        return;
      }
      RedsEnd(Lex(s, p));
      rs := rs + more;
    }
  }

  lemma RedsEnd(ts: seq<Tok>)
    requires ParseRedirects(ts).Some?
    ensures var rest := ParseRedirects(ts).value.1; rest != [] ==> !IsOp(rest[0])
  {
    RedirectsSound(ts);
  }

  lemma AtStop(s: string, ps: nat, p: nat, argv: seq<Span>, rs: seq<Redirect>)
    requires ps <= |s| && p <= |s| && (Lex(s, p) == [] || Stop(Lex(s, p)[0]))
    requires Rest([], [], ParseItems(Lex(s, ps), 0)) == Rest(argv, rs, ParseItems(Lex(s, p), |argv|))
    ensures ParseItems(Lex(s, ps), 0).Some?
    ensures var (items, rest) := ParseItems(Lex(s, ps), 0).value; Args(items) == argv && Reds(items) == rs && rest == Lex(s, p)
  {
    hide Lex;
    assert Args([]) == [] && Reds([]) == [] && argv + [] == argv && rs + [] == rs;
    var (items, rest) := ParseItems(Lex(s, ps), 0).value;
    assert [] + Args(items) == Args(items) && [] + Reds(items) == Reds(items);
  }

  method Parseexec(s: string, ps: nat) returns (ok: bool, cmd: Cmd, ps': nat)
    requires ps <= |s| && NUL !in s
    ensures ps <= ps' <= |s|
    ensures match ParseExec(Lex(s, ps)) case None => !ok case Some((x, rest)) => ok && cmd == ExecTree(x) && rest == Lex(s, ps')
    decreases |s| - ps, 1
  {
    hide Lex;
    var b;
    b, ps' := Peek(s, ps, "(");
    if b {
      ok, cmd, ps' := Parseblock(s, ps');
    } else {
      ok, cmd, ps' := Parsesimple(s, ps');
    }
  }

  method Parseblock(s: string, ps: nat) returns (ok: bool, cmd: Cmd, ps': nat)
    requires ps <= |s| && NUL !in s && Lex(s, ps) != [] && Lex(s, ps)[0] == Sym('(')
    ensures ps <= ps' <= |s|
    ensures match ParseExec(Lex(s, ps)) case None => !ok case Some((x, rest)) => ok && cmd == ExecTree(x) && rest == Lex(s, ps')
    decreases |s| - ps, 0
  {
    hide Lex;
    var tok, q, eq;
    tok, q, eq, ps' := Gettoken(s, ps);
    ok, cmd, ps' := Parseline(s, ps');
    if !ok {
      return;
    }
    ok, ps' := Peek(s, ps', ")");
    if !ok {
      return;
    }
    tok, q, eq, ps' := Gettoken(s, ps');
    var rs;
    ok, rs, ps' := Parseredirs(s, ps');
    if ok {
      cmd := WrapAll(cmd, rs);
    }
  }

  method Parsepipe(s: string, ps: nat) returns (ok: bool, cmd: Cmd, ps': nat)
    requires ps <= |s| && NUL !in s
    ensures ps <= ps' <= |s|
    ensures match ParsePipe(Lex(s, ps)) case None => !ok case Some((p, rest)) => ok && cmd == PipeTree(p) && rest == Lex(s, ps')
    decreases |s| - ps, 2
  {
    hide Lex, ParseExec;
    ok, cmd, ps' := Parseexec(s, ps);
    if !ok {
      return;
    }
    var b;
    b, ps' := Peek(s, ps', "|");
    if b {
      var tok, q, eq, right;
      tok, q, eq, ps' := Gettoken(s, ps');
      ok, right, ps' := Parsepipe(s, ps');
      cmd := Pipe(cmd, right);
    }
  }

  lemma MoreAmps(ts: seq<Tok>, c: Cmd)
    requires ts != [] && ts[0] == Sym('&')
    ensures var n := CountAmps(ts);
            n == 1 + CountAmps(ts[1..]) && Backs(c, n) == Backs(Back(c), n - 1) && ts[n..] == ts[1..][n - 1..]
  {
  }

  /** parseline's loop: one backcmd for every & that follows. */
  method Parseamps(s: string, ps: nat, cmd: Cmd) returns (cmd': Cmd, ps': nat)
    requires ps <= |s| && NUL !in s
    ensures ps <= ps' <= |s|
    ensures var n := CountAmps(Lex(s, ps)); cmd' == Backs(cmd, n) && Lex(s, ps') == Lex(s, ps)[n..]
  {
    hide Lex;
    cmd', ps' := cmd, ps;
    while true
      invariant ps <= ps' <= |s|
      invariant var n, m := CountAmps(Lex(s, ps)), CountAmps(Lex(s, ps')); Backs(cmd, n) == Backs(cmd', m) && Lex(s, ps)[n..] == Lex(s, ps')[m..]
      decreases |s| - ps'
    {
      var b;
      b, ps' := Peek(s, ps', "&");
      ghost var ts := Lex(s, ps');
      if !b {
        assert CountAmps(ts) == 0 && ts[0..] == ts;
        return;
      }
      MoreAmps(ts, cmd');
      var tok, q, eq;
      tok, q, eq, ps' := Gettoken(s, ps');
      cmd' := Back(cmd');
    }
  }

  method Parseline(s: string, ps: nat) returns (ok: bool, cmd: Cmd, ps': nat)
    requires ps <= |s| && NUL !in s
    ensures ps <= ps' <= |s|
    ensures match ParseLine(Lex(s, ps)) case None => !ok case Some((l, rest)) => ok && cmd == LineTree(l) && rest == Lex(s, ps')
    decreases |s| - ps, 3
  {
    hide Lex, ParsePipe, CountAmps;
    ok, cmd, ps' := Parsepipe(s, ps);
    if !ok {
      return;
    }
    cmd, ps' := Parseamps(s, ps', cmd);
    var b;
    b, ps' := Peek(s, ps', ";");
    if b {
      var tok, q, eq, right;
      tok, q, eq, ps' := Gettoken(s, ps');
      ok, right, ps' := Parseline(s, ps');
      cmd := List(cmd, right);
    }
  }

  // ---- nulterminate

  /** The strings of a command: arguments and file names. */
  function Words(c: Cmd): seq<Span> {
    match c
    case Exec(argv) => argv
    case Redir(cmd, file, _, _) => Words(cmd) + [file]
    case Pipe(left, right) => Words(left) + Words(right)
    case List(left, right) => Words(left) + Words(right)
    case Back(cmd) => Words(cmd)
  }

  predicate EndsAt(ws: seq<Span>, i: nat) {
    exists k :: 0 <= k < |ws| && ws[k].e == i
  }

  lemma EndsJoin(a: seq<Span>, b: seq<Span>, i: nat)
    ensures EndsAt(a + b, i) == (EndsAt(a, i) || EndsAt(b, i))
  {
    if EndsAt(a, i) {
      var k :| 0 <= k < |a| && a[k].e == i;
      assert (a + b)[k].e == i;
    }
    if EndsAt(b, i) {
      var k :| 0 <= k < |b| && b[k].e == i;
      assert (a + b)[|a| + k].e == i;
    }
  }

  predicate Within(ws: seq<Span>, n: nat) {
    forall k :: 0 <= k < |ws| ==> ws[k].e < n
  }

  /** A NUL after every string of the command, and nothing else written. */
  twostate predicate Terminated(line: array<char>, ws: seq<Span>)
    reads line
  {
    forall i: nat :: i < line.Length ==> line[i] == if EndsAt(ws, i) then NUL else old(line[i])
  }

  method Nulterminate(line: array<char>, cmd: Cmd)
    requires Within(Words(cmd), line.Length)
    modifies line
    ensures Terminated(line, Words(cmd))
    decreases cmd
  {
    match cmd {
      case Exec(argv) =>
        var k := 0;
        while k < |argv|
          invariant 0 <= k <= |argv|
          invariant forall i: nat :: i < line.Length ==> line[i] == if EndsAt(argv[..k], i) then NUL else old(line[i])
        {
          line[argv[k].e] := NUL;
          forall i: nat
            ensures EndsAt(argv[..k + 1], i) == (EndsAt(argv[..k], i) || i == argv[k].e)
          {
            assert argv[..k + 1] == argv[..k] + [argv[k]];
            EndsJoin(argv[..k], [argv[k]], i);
            assert [argv[k]][0].e == argv[k].e;
          }
          k := k + 1;
        }
        assert argv[..|argv|] == argv;
      case Redir(sub, file, _, _) =>
        assert (Words(sub) + [file])[|Words(sub)|] == file;
        assert forall k :: 0 <= k < |Words(sub)| ==> Words(cmd)[k] == Words(sub)[k];
        Nulterminate(line, sub);
        line[file.e] := NUL;
        forall i: nat
          ensures EndsAt(Words(cmd), i) == (EndsAt(Words(sub), i) || i == file.e)
        {
          EndsJoin(Words(sub), [file], i);
          assert [file][0].e == file.e;
        }
      case Pipe(left, right) => NulterminateBoth(line, left, right, cmd);
      case List(left, right) => NulterminateBoth(line, left, right, cmd);
      case Back(sub) => Nulterminate(line, sub);
    }
  }

  method NulterminateBoth(line: array<char>, left: Cmd, right: Cmd, ghost cmd: Cmd)
    requires Words(cmd) == Words(left) + Words(right) && Within(Words(cmd), line.Length) && left < cmd && right < cmd
    modifies line
    ensures Terminated(line, Words(cmd))
    decreases cmd, 0
  {
    assert forall k :: 0 <= k < |Words(left)| ==> Words(cmd)[k] == Words(left)[k];
    assert forall k :: 0 <= k < |Words(right)| ==> Words(cmd)[|Words(left)| + k] == Words(right)[k];
    Nulterminate(line, left);
    Nulterminate(line, right);
    forall i: nat
      ensures EndsAt(Words(cmd), i) == (EndsAt(Words(left), i) || EndsAt(Words(right), i))
    {
      EndsJoin(Words(left), Words(right), i);
    }
  }

  // ---- the strings of a parsed line are words of the line

  predicate IsWord(s: string, w: Span) {
    w.q < w.e <= |s| && (forall i :: w.q <= i < w.e ==> Plain(s[i])) && (w.e < |s| ==> !Plain(s[w.e]))
  }

  lemma {:induction false} WordPlain(s: string, i: nat, k: nat)
    requires i <= |s| && i <= k < WordEnd(s, i)
    ensures Plain(s[k])
    decreases |s| - i
  {
    if i < k {
      WordPlain(s, i + 1, k);
    }
  }

  lemma {:induction false} LexWords(s: string, i: nat, t: Tok)
    requires i <= |s| && t in Lex(s, i) && t.Word?
    ensures IsWord(s, Span(t.q, t.e))
    decreases |s| - i
  {
    var j := Skip(s, i);
    var (first, next) := TokAt(s, j);
    if t == first {
      forall k | t.q <= k < t.e
        ensures Plain(s[k])
      {
        WordPlain(s, j, k);
      }
    } else {
      LexWords(s, next, t);
    }
  }

  /** All these strings are among the tokens. */
  predicate Among(ws: seq<Span>, ts: seq<Tok>) {
    forall k :: 0 <= k < |ws| ==> W(ws[k]) in ts
  }

  lemma AmongJoin(a: seq<Span>, x: seq<Tok>, b: seq<Span>, y: seq<Tok>)
    requires Among(a, x) && Among(b, y)
    ensures Among(a + b, x + y)
  {
  }

  lemma AmongMore(a: seq<Span>, x: seq<Tok>, y: seq<Tok>)
    requires Among(a, x) && forall t :: t in x ==> t in y
    ensures Among(a, y)
  {
  }

  lemma {:induction false} WrapWords(c: Cmd, rs: seq<Redirect>, ts: seq<Tok>)
    requires Among(Words(c), ts) && forall k :: 0 <= k < |rs| ==> W(rs[k].file) in ts
    ensures Among(Words(WrapAll(c, rs)), ts)
    decreases |rs|
  {
    if rs != [] {
      assert Words(Wrap(c, rs[0])) == Words(c) + [rs[0].file];
      WrapWords(Wrap(c, rs[0]), rs[1..], ts);
    }
  }

  lemma {:induction false} RedirectWords(rs: seq<Redirect>, k: nat)
    requires k < |rs|
    ensures W(rs[k].file) in RedirectsToks(rs)
  {
    if k > 0 {
      RedirectWords(rs[1..], k - 1);
    } else {
      assert ([rs[0].op, W(rs[0].file)] + RedirectsToks(rs[1..]))[1] == W(rs[0].file);
    }
  }

  lemma {:induction false} ItemWords(items: seq<Item>)
    ensures Among(Args(items), ItemsToks(items)) && forall k :: 0 <= k < |Reds(items)| ==> W(Reds(items)[k].file) in ItemsToks(items)
  {
    if items != [] {
      ItemWords(items[1..]);
      var i, tail := items[0], items[1..];
      var head := if i.Arg? then [W(i.word)] else [i.r.op, W(i.r.file)];
      assert ItemsToks(items) == head + ItemsToks(tail);
      assert Args(items) == (if i.Arg? then [i.word] else []) + Args(tail);
      assert Reds(items) == (if i.Red? then [i.r] else []) + Reds(tail);
      hide ItemsToks, Args, Reds;
      assert head[|head| - 1] in head;
    }
  }

  lemma {:induction false} ExecWords(x: ExecX)
    ensures Among(Words(ExecTree(x)), ExecToks(x))
    decreases x, 0
  {
    match x {
      case Simple(items) =>
        ItemWords(items);
        WrapWords(Exec(Args(items)), Reds(items), ItemsToks(items));
      case Block(body, rs) =>
        LineWords(body);
        AmongMore(Words(LineTree(body)), LineToks(body), ExecToks(x));
        forall k | 0 <= k < |rs|
          ensures W(rs[k].file) in ExecToks(x)
        {
          RedirectWords(rs, k);
        }
        WrapWords(LineTree(body), rs, ExecToks(x));
    }
  }

  lemma {:induction false} PipeWords(p: PipeX)
    ensures Among(Words(PipeTree(p)), PipeToks(p))
    decreases p, 1
  {
    ExecWords(p.x);
    if p.Piped? {
      PipeWords(p.rest);
      hide ExecToks, ExecTree;
      AmongMore(Words(ExecTree(p.x)), ExecToks(p.x), ExecToks(p.x) + [Sym('|')]);
      AmongJoin(Words(ExecTree(p.x)), ExecToks(p.x) + [Sym('|')], Words(PipeTree(p.rest)), PipeToks(p.rest));
    }
  }

  lemma {:induction false} BacksWords(c: Cmd, n: nat)
    ensures Words(Backs(c, n)) == Words(c)
    decreases n
  {
    if n > 0 {
      BacksWords(Back(c), n - 1);
    }
  }

  lemma {:induction false} LineWords(l: Line)
    ensures Among(Words(LineTree(l)), LineToks(l))
    decreases l, 2
  {
    PipeWords(l.p);
    BacksWords(PipeTree(l.p), l.amps);
    hide PipeToks, PipeTree, Amps, Backs;
    var ws, ts := Words(PipeTree(l.p)), PipeToks(l.p);
    if l.Only? {
      AmongMore(ws, ts, ts + Amps(l.amps));
    } else {
      LineWords(l.next);
      AmongMore(ws, ts, ts + Amps(l.amps) + [Sym(';')]);
      AmongJoin(ws, ts + Amps(l.amps) + [Sym(';')], Words(LineTree(l.next)), LineToks(l.next));
    }
  }

  // ---- and all the words of the line are strings of the command

  /** Every word among the tokens is one of these strings. */
  predicate Covered(ts: seq<Tok>, ws: seq<Span>) {
    forall t :: t in ts && t.Word? ==> Span(t.q, t.e) in ws
  }

  lemma CoveredJoin(x: seq<Tok>, y: seq<Tok>, a: seq<Span>, b: seq<Span>)
    requires Covered(x, a) && Covered(y, b)
    ensures Covered(x + y, a + b)
  {
  }

  function Files(rs: seq<Redirect>): seq<Span> {
    if rs == [] then [] else [rs[0].file] + Files(rs[1..])
  }

  lemma {:induction false} WrapCovers(c: Cmd, rs: seq<Redirect>, w: Span)
    requires w in Words(c) || w in Files(rs)
    ensures w in Words(WrapAll(c, rs))
    decreases |rs|
  {
    if rs != [] {
      assert Words(Wrap(c, rs[0])) == Words(c) + [rs[0].file];
      WrapCovers(Wrap(c, rs[0]), rs[1..], w);
    }
  }

  lemma {:induction false} RedirectsCovered(rs: seq<Redirect>, t: Tok)
    requires RedirectsOk(rs) && t in RedirectsToks(rs) && t.Word?
    ensures Span(t.q, t.e) in Files(rs)
  {
    if t !in [rs[0].op, W(rs[0].file)] {
      RedirectsCovered(rs[1..], t);
    }
  }

  lemma ItemsFirst(items: seq<Item>)
    requires items != []
    ensures var i, tail := items[0], items[1..];
            && ItemsToks(items) == (if i.Arg? then [W(i.word)] else [i.r.op, W(i.r.file)]) + ItemsToks(tail)
            && Args(items) == (if i.Arg? then [i.word] else []) + Args(tail)
            && Files(Reds(items)) == (if i.Red? then [i.r.file] else []) + Files(Reds(tail))
  {
    var i, tail := items[0], items[1..];
    if i.Red? {
      assert Reds(items) == [i.r] + Reds(tail);
      assert Reds(items)[1..] == Reds(tail);
    } else {
      assert Reds(items) == Reds(tail);
    }
  }

  lemma {:induction false} ItemsCovered(items: seq<Item>, t: Tok)
    requires ItemsOk(items) && t in ItemsToks(items) && t.Word?
    ensures Span(t.q, t.e) in Args(items) || Span(t.q, t.e) in Files(Reds(items))
  {
    ItemsFirst(items);
    var i, tail := items[0], items[1..];
    var head := if i.Arg? then [W(i.word)] else [i.r.op, W(i.r.file)];
    hide ItemsToks, Args, Reds, Files;
    if t !in head {
      ItemsCovered(tail, t);
    }
  }

  lemma {:induction false} ExecCovered(x: ExecX)
    requires ExecOk(x)
    ensures Covered(ExecToks(x), Words(ExecTree(x)))
    decreases x, 0
  {
    match x {
      case Simple(items) =>
        forall t | t in ExecToks(x) && t.Word?
          ensures Span(t.q, t.e) in Words(ExecTree(x))
        {
          ItemsCovered(items, t);
          WrapCovers(Exec(Args(items)), Reds(items), Span(t.q, t.e));
        }
      case Block(body, rs) =>
        LineCovered(body);
        forall t | t in ExecToks(x) && t.Word?
          ensures Span(t.q, t.e) in Words(ExecTree(x))
        {
          if t in RedirectsToks(rs) { RedirectsCovered(rs, t); }
          WrapCovers(LineTree(body), rs, Span(t.q, t.e));
        }
    }
  }

  lemma {:induction false} PipeCovered(p: PipeX)
    requires PipeOk(p)
    ensures Covered(PipeToks(p), Words(PipeTree(p)))
    decreases p, 1
  {
    ExecCovered(p.x);
    if p.Piped? {
      PipeCovered(p.rest);
      hide ExecToks, ExecTree, ExecOk;
      CoveredJoin(ExecToks(p.x) + [Sym('|')], PipeToks(p.rest), Words(ExecTree(p.x)), Words(PipeTree(p.rest)));
    }
  }

  lemma {:induction false} AmpsNoWords(n: nat, t: Tok)
    requires t in Amps(n)
    ensures !t.Word?
  {
    if n > 0 && t in Amps(n - 1) {
      AmpsNoWords(n - 1, t);
    }
  }

  lemma {:induction false} LineCovered(l: Line)
    requires LineOk(l)
    ensures Covered(LineToks(l), Words(LineTree(l)))
    decreases l, 2
  {
    PipeCovered(l.p);
    BacksWords(PipeTree(l.p), l.amps);
    hide PipeToks, PipeTree, PipeOk, Backs;
    var ws, ts := Words(PipeTree(l.p)), PipeToks(l.p);
    forall t | t in Amps(l.amps)
      ensures !t.Word?
    {
      AmpsNoWords(l.amps, t);
    }
    hide Amps;
    if l.Then? {
      LineCovered(l.next);
      CoveredJoin(ts + Amps(l.amps) + [Sym(';')], LineToks(l.next), ws, Words(LineTree(l.next)));
    }
  }

  /** A run of word characters ends before position `i`. */
  predicate WordEnds(s: string, i: nat) {
    0 < i <= |s| && Plain(s[i - 1]) && (i < |s| ==> !Plain(s[i]))
  }

  lemma {:induction false} RunEnd(s: string, j: nat, i: nat)
    requires j < i && WordEnds(s, i) && Plain(s[j])
    ensures WordEnd(s, j) <= i
    decreases i - j
  {
    if j + 1 < i && Plain(s[j + 1]) {
      RunEnd(s, j + 1, i);
    }
  }

  lemma {:induction false} SkipBefore(s: string, i: nat, k: nat)
    requires i <= k < |s| && !IsWs(s[k])
    ensures Skip(s, i) <= k
    decreases |s| - i
  {
    if IsWs(s[i]) { SkipBefore(s, i + 1, k); }
  }

  /** Wherever a run of word characters ends, a word token does. */
  lemma {:induction false} LexEnds(s: string, i: nat, e: nat) returns (t: Tok)
    requires i < e && WordEnds(s, e)
    ensures t in Lex(s, i) && t.Word? && t.e == e
    decreases |s| - i
  {
    SkipBefore(s, i, e - 1);
    var j := Skip(s, i);
    var (first, next) := TokAt(s, j);
    assert Lex(s, i) == [first] + Lex(s, next);
    if Plain(s[j]) {
      RunEnd(s, j, e);
      if next == e {
        return first;
      }
    }
    t := LexEnds(s, next, e);
  }

  /** The strings of the command end exactly where the words of the line do. */
  lemma EndsExactly(s: string, l: Line, i: nat)
    requires LineOk(l) && LineToks(l) == Lex(s, 0)
    ensures EndsAt(Words(LineTree(l)), i) <==> WordEnds(s, i)
  {
    AllWords(s, l);
    if WordEnds(s, i) {
      LineCovered(l);
      var t := LexEnds(s, 0, i);
      assert Span(t.q, t.e) in Words(LineTree(l));
    }
  }

  // ---- parsecmd

  /** The strings of the command are cut out of the line, and hold what they held. */
  ghost predicate CutOut(line: seq<char>, s: string, cmd: Cmd) {
    && |s| < |line|
    && forall k :: 0 <= k < |Words(cmd)| ==>
         var w := Words(cmd)[k]; IsWord(s, w) && line[w.q..w.e] == s[w.q..w.e] && line[w.e] == NUL
  }

  lemma AllWords(s: string, l: Line)
    requires LineToks(l) == Lex(s, 0)
    ensures forall k :: 0 <= k < |Words(LineTree(l))| ==> IsWord(s, Words(LineTree(l))[k])
  {
    LineWords(l);
    hide LineToks, Lex, LineTree;
    forall k | 0 <= k < |Words(LineTree(l))|
      ensures IsWord(s, Words(LineTree(l))[k])
    {
      LexWords(s, 0, W(Words(LineTree(l))[k]));
    }
  }

  /** The grammar gives these tokens this tree. */
  ghost predicate Derives(ts: seq<Tok>, cmd: Cmd) {
    exists l :: LineOk(l) && LineToks(l) == ts && LineTree(l) == cmd
  }

  /** The grammar gives no tokens more than one tree. */
  lemma OneTree(ts: seq<Tok>, a: Cmd, b: Cmd)
    requires Derives(ts, a) && Derives(ts, b)
    ensures a == b
  {
    var x :| LineOk(x) && LineToks(x) == ts && LineTree(x) == a;
    var y :| LineOk(y) && LineToks(y) == ts && LineTree(y) == b;
    Unambiguous(x, y);
  }

  lemma DerivesParse(ts: seq<Tok>, cmd: Cmd)
    ensures Derives(ts, cmd) <==> ParseLine(ts).Some? && ParseLine(ts).value.1 == [] && LineTree(ParseLine(ts).value.0) == cmd
  {
    hide ParseLine, LineToks, LineOk, LineTree;
    forall l
      ensures ParseLine(ts) == Some((l, [])) <==> LineOk(l) && LineToks(l) == ts
    {
      ParsesGrammar(ts, l);
    }
  }

  /** parsecmd before nulterminate: the tree of the line, or a syntax error
      exactly when the grammar gives its tokens none. */
  method Parsetree(s: string) returns (ok: bool, cmd: Cmd)
    requires NUL !in s
    ensures forall c :: Derives(Lex(s, 0), c) <==> ok && c == cmd
    ensures ok ==> forall k :: 0 <= k < |Words(cmd)| ==> IsWord(s, Words(cmd)[k])
    ensures ok ==> forall i :: EndsAt(Words(cmd), i) <==> WordEnds(s, i)
  {
    hide Lex, ParseLine, LineToks, LineOk, LineTree, Derives, EndsAt, WordEnds;
    var ps;
    ok, cmd, ps := Parseline(s, 0);
    if ok {
      var _, p := Peek(s, ps, "");
      EndOfLine(s, ps);
      ok := p == |s|;
    }
    forall c
      ensures Derives(Lex(s, 0), c) <==> ok && c == cmd
    {
      DerivesParse(Lex(s, 0), c);
    }
    if ok {
      ghost var l := ParseLine(Lex(s, 0)).value.0;
      ParsesGrammar(Lex(s, 0), l);
      AllWords(s, l);
      forall i: nat
        ensures EndsAt(Words(cmd), i) <==> WordEnds(s, i)
      {
        EndsExactly(s, l, i);
      }
    }
  }

  lemma EndOfLine(s: string, ps: nat)
    requires ps <= |s|
    ensures Lex(s, ps) == [] <==> Skip(s, ps) == |s|
  {
  }

  lemma WordsWithin(s: string, ws: seq<Span>, n: nat)
    requires |s| < n && forall k :: 0 <= k < |ws| ==> IsWord(s, ws[k])
    ensures Within(ws, n)
  {
  }

  lemma EndsHere(ws: seq<Span>, k: nat)
    requires k < |ws|
    ensures EndsAt(ws, ws[k].e)
  {
  }

  /** parsecmd: a command exactly when the grammar gives the tokens of the line a
      tree, and then that tree, with every string cut out of the line as it was
      there: the character after each word becomes NUL, and no other is touched.
      Otherwise a syntax error. */
  method Parsecmd(line: array<char>, n: nat) returns (ok: bool, cmd: Cmd)
    requires n < line.Length && line[n] == NUL && forall i :: 0 <= i < n ==> line[i] != NUL
    modifies line
    ensures forall c :: Derives(Lex(old(line[..n]), 0), c) <==> ok && c == cmd
    ensures !ok ==> line[..] == old(line[..])
    ensures ok ==> CutOut(line[..], old(line[..n]), cmd)
    ensures ok ==> forall i: nat :: i < line.Length ==> line[i] == if WordEnds(old(line[..n]), i) then NUL else old(line[i])
  {
    var s := line[..n];
    hide Lex, Derives, Words, Plain, EndsAt, WordEnds;
    ok, cmd := Parsetree(s);
    if !ok {
      return;
    }
    WordsWithin(s, Words(cmd), line.Length);
    Nulterminate(line, cmd);
    forall k | 0 <= k < |Words(cmd)|
      ensures var w := Words(cmd)[k]; IsWord(s, w) && line[..][w.q..w.e] == s[w.q..w.e] && line[w.e] == NUL
    {
      EndsHere(Words(cmd), k);
      WordKept(line[..], s, Words(cmd)[k]);
    }
  }

  /** No word ends inside a word. */
  lemma WordKept(line: seq<char>, s: string, w: Span)
    requires IsWord(s, w) && |s| < |line|
    requires forall i: nat :: i < |s| ==> line[i] == if WordEnds(s, i) then NUL else s[i]
    ensures line[w.q..w.e] == s[w.q..w.e]
  {
    assert forall i :: w.q <= i < w.e ==> line[i] == s[i];
  }

  /** So a symbol of the line is overwritten exactly when it comes right after a word. */
  lemma SymbolsOverwritten(s: string, i: nat)
    requires i < |s| && IsSym(s[i])
    ensures WordEnds(s, i) <==> 0 < i && Plain(s[i - 1])
  {
  }

  /** As the semicolon of "a;b" is, and that of "a ;b" is not. */
  lemma SemicolonOverwritten()
    ensures "a;b"[1] == ';' && WordEnds("a;b", 1)
    ensures "a ;b"[2] == ';' && !WordEnds("a ;b", 2)
  {
  }
}
