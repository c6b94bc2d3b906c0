/**
  Command trees and lines, the other way round: every tree the shell can run is
  written as a line by the usual rules of precedence, and the parser gives it back;
  and what the tokens of a line are, character by character.
 */
module ShellTrees {

  import opened Common
  import opened ShellGrammar
  import opened Shell

  // ---- trees as tokens

  /** The operator of a redirection: `<` opens file descriptor 0 for reading; `>` and `>>`
      open descriptor 1 for writing, making the file if need be, and `>` empties it. */
  function OpOf(mode: nat, fd: nat): Option<Tok> {
    if fd == 0 && mode == 0 then Some(Sym('<'))
    else if fd == 1 && mode == 0x601 then Some(Sym('>'))
    else if fd == 1 && mode == 0x201 then Some(App)
    else None
  }

  /** A tree with the redirections there are operators for, and at most nine words a command. */
  predicate Made(c: Cmd) {
    match c
    case Exec(argv) => |argv| < 10
    case Redir(d, _, mode, fd) => OpOf(mode, fd).Some? && Made(d)
    case Pipe(l, r) => Made(l) && Made(r)
    case List(l, r) => Made(l) && Made(r)
    case Back(d) => Made(d)
  }

  function Spans(argv: seq<Span>): seq<Tok> {
    if argv == [] then [] else [W(argv[0])] + Spans(argv[1..])
  }

  /** Whether a tree needs no parentheses: in a pipe (0), in a line before `&` (1), before
      `;` (2), as a line (3). */
  predicate Fits(c: Cmd, level: nat) {
    match c
    case Exec(_) => true
    case Redir(_, _, _, _) => true
    case Pipe(_, _) => level >= 1
    case Back(_) => level >= 2
    case List(_, _) => level >= 3
  }

  /** A tree written out: redirections after their command, `|` and `;` between their
      sides, grouping to the right, `&` behind. */
  function Print(c: Cmd, level: nat): seq<Tok>
    requires Made(c)
    decreases c, if Fits(c, level) then 0 else 1
  {
    if !Fits(c, level) then [Sym('(')] + Print(c, 3) + [Sym(')')]
    else
      match c
      case Exec(argv) => Spans(argv)
      case Redir(d, file, mode, fd) => Print(d, 0) + [OpOf(mode, fd).value, W(file)]
      case Pipe(l, r) => Print(l, 0) + [Sym('|')] + Print(r, 1)
      case Back(d) => Print(d, 2) + [Sym('&')]
      case List(l, r) => Print(l, 2) + [Sym(';')] + Print(r, 3)
  }

  // ---- and as syntax

  function ArgItems(argv: seq<Span>): seq<Item> {
    if argv == [] then [] else [Arg(argv[0])] + ArgItems(argv[1..])
  }

  function AddRed(x: ExecX, r: Redirect): ExecX {
    match x
    case Simple(items) => Simple(items + [Red(r)])
    case Block(body, rs) => Block(body, rs + [r])
  }

  /** What each kind of tree is taken apart by, last first. */
  function Rank(c: Cmd, level: nat): nat {
    var last := match c case Exec(_) => 0 case Redir(_, _, _, _) => 0 case Pipe(_, _) => 1 case Back(_) => 2 case List(_, _) => 3;
    if level >= last then level - last else level + 4 - last
  }

  function ToExec(c: Cmd): ExecX
    requires Made(c)
    decreases c, Rank(c, 0)
  {
    match c
    case Exec(argv) => Simple(ArgItems(argv))
    case Redir(d, file, mode, fd) => AddRed(ToExec(d), Redirect(OpOf(mode, fd).value, file))
    case _ => Block(ToLine(c), [])
  }

  function ToPipe(c: Cmd): PipeX
    requires Made(c)
    decreases c, Rank(c, 1)
  {
    match c
    case Pipe(l, r) => Piped(ToExec(l), ToPipe(r))
    case _ => Last(ToExec(c))
  }

  function ToAmps(c: Cmd): (PipeX, nat)
    requires Made(c)
    decreases c, Rank(c, 2)
  {
    match c
    case Back(d) => (ToAmps(d).0, ToAmps(d).1 + 1)
    case _ => (ToPipe(c), 0)
  }

  function ToLine(c: Cmd): Line
    requires Made(c)
    decreases c, Rank(c, 3)
  {
    match c
    case List(l, r) => Then(ToAmps(l).0, ToAmps(l).1, ToLine(r))
    case _ => Only(ToAmps(c).0, ToAmps(c).1)
  }

  // ---- parts of the trees of the grammar

  lemma Assoc<T>(a: seq<T>, b: seq<T>, c: seq<T>)
    ensures a + (b + c) == a + b + c
  {
  }

  lemma HeadTail<T>(a: seq<T>, b: seq<T>)
    requires a != []
    ensures [a[0]] + a[1..] == a && [a[0]] + (a[1..] + b) == a + b
  {
  }

  /** The arguments and the redirections of a command come in the order of the line. */
  lemma {:induction false} ArgsJoin(a: seq<Item>, b: seq<Item>)
    ensures Args(a + b) == Args(a) + Args(b) && Reds(a + b) == Reds(a) + Reds(b)
  {
    if a == [] {
      assert a + b == b;
    } else {
      hide Args, Reds, ItemsToks;
      ArgsJoin(a[1..], b);
      HeadTail(a, b);
      ItemsNext(a[0], a[1..] + b);
      ItemsNext(a[0], a[1..]);
      Assoc(if a[0].Arg? then [a[0].word] else [], Args(a[1..]), Args(b));
      Assoc(if a[0].Red? then [a[0].r] else [], Reds(a[1..]), Reds(b));
    }
  }

  lemma {:induction false} ItemsJoin(a: seq<Item>, b: seq<Item>)
    ensures ItemsToks(a + b) == ItemsToks(a) + ItemsToks(b)
  {
    if a == [] {
      assert a + b == b;
    } else {
      hide Args, Reds, ItemsToks;
      ItemsJoin(a[1..], b);
      HeadTail(a, b);
      ItemsNext(a[0], a[1..] + b);
      ItemsNext(a[0], a[1..]);
      Assoc(match a[0] case Arg(w) => [W(w)] case Red(r) => [r.op, W(r.file)], ItemsToks(a[1..]), ItemsToks(b));
    }
  }

  lemma {:induction false} RedirectsJoin(a: seq<Redirect>, b: seq<Redirect>)
    ensures RedirectsToks(a + b) == RedirectsToks(a) + RedirectsToks(b)
  {
    if a == [] {
      assert a + b == b;
    } else {
      assert (a + b)[1..] == a[1..] + b && (a + b)[0] == a[0];
      RedirectsJoin(a[1..], b);
    }
  }

  /** The last redirection is the outermost. */
  lemma {:induction false} WrapLast(c: Cmd, rs: seq<Redirect>, r: Redirect)
    ensures WrapAll(c, rs + [r]) == Wrap(WrapAll(c, rs), r)
    decreases |rs|
  {
    if rs == [] {
      assert rs + [r] == [r] && [r][1..] == [];
    } else {
      assert (rs + [r])[1..] == rs[1..] + [r];
      WrapLast(Wrap(c, rs[0]), rs[1..], r);
    }
  }

  lemma {:induction false} BacksOut(c: Cmd, n: nat)
    ensures Backs(c, n + 1) == Back(Backs(c, n))
    decreases n
  {
    if n > 0 {
      BacksOut(Back(c), n - 1);
    }
  }

  lemma {:induction false} AmpsOut(n: nat)
    ensures Amps(n + 1) == Amps(n) + [Sym('&')]
  {
    if n > 0 {
      AmpsOut(n - 1);
    }
  }

  lemma {:induction false} Arguments(argv: seq<Span>)
    ensures Args(ArgItems(argv)) == argv && Reds(ArgItems(argv)) == [] && ItemsToks(ArgItems(argv)) == Spans(argv) && ItemsOk(ArgItems(argv))
  {
    if argv != [] {
      Arguments(argv[1..]);
      var items := ArgItems(argv);
      assert items[1..] == ArgItems(argv[1..]);
    }
  }

  /** `<`, `>` and `>>` each give the descriptor and the mode that name them. */
  lemma WrapMeans(c: Cmd, r: Redirect)
    requires IsOp(r.op)
    ensures Wrap(c, r).Redir? && Wrap(c, r).cmd == c && Wrap(c, r).file == r.file && OpOf(Wrap(c, r).mode, Wrap(c, r).fd) == Some(r.op)
    ensures r.op == Sym('<') ==> Wrap(c, r).mode == 0 && Wrap(c, r).fd == 0
    ensures r.op == Sym('>') ==> Wrap(c, r).mode == 0x601 && Wrap(c, r).fd == 1
    ensures r.op == App ==> Wrap(c, r).mode == 0x201 && Wrap(c, r).fd == 1
  {
  }

  lemma WrapOp(c: Cmd, file: Span, mode: nat, fd: nat)
    requires OpOf(mode, fd).Some?
    ensures Wrap(c, Redirect(OpOf(mode, fd).value, file)) == Redir(c, file, mode, fd) && IsOp(OpOf(mode, fd).value)
  {
  }

  lemma AddedRed(x: ExecX, r: Redirect)
    requires ExecOk(x) && IsOp(r.op)
    ensures ExecTree(AddRed(x, r)) == Wrap(ExecTree(x), r) && ExecOk(AddRed(x, r))
    ensures ExecToks(AddRed(x, r)) == ExecToks(x) + [r.op, W(r.file)]
  {
    match x {
      case Simple(items) =>
        ArgsJoin(items, [Red(r)]);
        ItemsJoin(items, [Red(r)]);
        WrapLast(Exec(Args(items)), Reds(items), r);
        assert Args([Red(r)]) == [] && Reds([Red(r)]) == [r] && ItemsToks([Red(r)]) == [r.op, W(r.file)];
        assert Args(items + [Red(r)]) == Args(items);
      case Block(body, rs) =>
        WrapLast(LineTree(body), rs, r);
        RedirectsJoin(rs, [r]);
        assert RedirectsToks([r]) == [r.op, W(r.file)];
        hide LineTree, LineToks, LineOk;
    }
  }

  // ---- written out, a tree is parsed back

  lemma {:induction false} ExecBack(c: Cmd)
    requires Made(c)
    ensures var x := ToExec(c); ExecTree(x) == c && ExecOk(x) && ExecToks(x) == Print(c, 0)
    decreases c, Rank(c, 0)
  {
    match c {
      case Exec(argv) =>
        Arguments(argv);
      case Redir(d, file, mode, fd) =>
        ExecBack(d);
        WrapOp(d, file, mode, fd);
        AddedRed(ToExec(d), Redirect(OpOf(mode, fd).value, file));
        hide ExecTree, ExecOk, ExecToks, AddRed;
      case _ =>
        LineBack(c);
        var l := ToLine(c);
        assert ExecToks(Block(l, [])) == [Sym('(')] + LineToks(l) + [Sym(')')] + [];
    }
  }

  lemma {:induction false} PipeBack(c: Cmd)
    requires Made(c)
    ensures var p := ToPipe(c); PipeTree(p) == c && PipeOk(p) && PipeToks(p) == Print(c, 1)
    decreases c, Rank(c, 1)
  {
    hide ExecTree, ExecOk, ExecToks;
    match c {
      case Pipe(l, r) =>
        ExecBack(l);
        PipeBack(r);
      case _ =>
        ExecBack(c);
    }
  }

  lemma {:induction false} AmpsBack(c: Cmd)
    requires Made(c)
    ensures var (p, n) := ToAmps(c); Backs(PipeTree(p), n) == c && PipeOk(p) && PipeToks(p) + Amps(n) == Print(c, 2)
    decreases c, Rank(c, 2)
  {
    hide PipeTree, PipeOk, PipeToks;
    match c {
      case Back(d) =>
        AmpsBack(d);
        var (p, n) := ToAmps(d);
        BacksOut(PipeTree(p), n);
        AmpsOut(n);
        hide Amps, Backs;
      case _ =>
        PipeBack(c);
        assert PipeToks(ToPipe(c)) + [] == PipeToks(ToPipe(c));
    }
  }

  lemma {:induction false} LineBack(c: Cmd)
    requires Made(c)
    ensures var l := ToLine(c); LineTree(l) == c && LineOk(l) && LineToks(l) == Print(c, 3)
    decreases c, Rank(c, 3)
  {
    hide PipeTree, PipeOk, PipeToks, Amps, Backs;
    match c {
      case List(l, r) =>
        AmpsBack(l);
        LineBack(r);
      case _ =>
        AmpsBack(c);
    }
  }

  /** Every tree is the tree of the line that writes it, and of no tree other. */
  lemma EveryTree(c: Cmd, d: Cmd)
    requires Made(c)
    ensures Derives(Print(c, 3), d) <==> d == c
  {
    LineBack(c);
    hide LineTree, LineOk, LineToks, Print;
    assert Derives(Print(c, 3), c);
    if Derives(Print(c, 3), d) { OneTree(Print(c, 3), c, d); }
  }

  lemma {:induction false} WrapMade(c: Cmd, rs: seq<Redirect>)
    requires Made(c) && RedirectsOk(rs)
    ensures Made(WrapAll(c, rs))
    decreases |rs|
  {
    if rs != [] {
      WrapMeans(c, rs[0]);
      WrapMade(Wrap(c, rs[0]), rs[1..]);
    }
  }

  lemma {:induction false} RedsMade(items: seq<Item>)
    requires ItemsOk(items)
    ensures RedirectsOk(Reds(items))
  {
    if items != [] {
      RedsMade(items[1..]);
    }
  }

  lemma {:induction false} BacksMade(c: Cmd, n: nat)
    requires Made(c)
    ensures Made(Backs(c, n))
    decreases n
  {
    if n > 0 {
      BacksMade(Back(c), n - 1);
    }
  }

  lemma {:induction false} ExecMade(x: ExecX)
    requires ExecOk(x)
    ensures Made(ExecTree(x))
    decreases x, 0
  {
    match x {
      case Simple(items) =>
        RedsMade(items);
        WrapMade(Exec(Args(items)), Reds(items));
      case Block(body, rs) =>
        LineMade(body);
        WrapMade(LineTree(body), rs);
    }
  }

  lemma {:induction false} PipeMade(p: PipeX)
    requires PipeOk(p)
    ensures Made(PipeTree(p))
    decreases p, 1
  {
    ExecMade(p.x);
    if p.Piped? { PipeMade(p.rest); }
  }

  /** And the grammar gives no other trees. */
  lemma {:induction false} LineMade(l: Line)
    requires LineOk(l)
    ensures Made(LineTree(l))
    decreases l, 2
  {
    PipeMade(l.p);
    BacksMade(PipeTree(l.p), l.amps);
    if l.Then? { LineMade(l.next); }
  }

  // ---- the tokens of a line

  predicate Blank(c: char) {
    c in " \t\r\n\U{000B}"
  }

  predicate Symbol(c: char) {
    c in "<|>&;()"
  }

  predicate Letter(c: char) {
    !Blank(c) && !Symbol(c)
  }

  /** The token `t` stands at [j, e): a symbol alone, two `>` together, or a word with no
      letter after it. */
  predicate Stands(s: string, t: Tok, j: nat, e: nat) {
    && j < e <= |s|
    && match t
       case Sym(c) => e == j + 1 && s[j] == c && Symbol(c) && !(c == '>' && e < |s| && s[e] == '>')
       case App => e == j + 2 && s[j] == '>' && s[j + 1] == '>'
       case Word(q, e') => q == j && e' == e && (forall k :: j <= k < e ==> Letter(s[k])) && (e < |s| ==> !Letter(s[e]))
  }

  predicate Blanks(s: string, i: nat, j: nat) {
    i <= j <= |s| && forall k :: i <= k < j ==> Blank(s[k])
  }

  /** From `i` on the line is the tokens `ts`, with blanks before, between and after. */
  ghost predicate Laid(s: string, i: nat, ts: seq<Tok>)
    decreases |ts|
  {
    if ts == [] then Blanks(s, i, |s|)
    else exists j: nat, e: nat :: Blanks(s, i, j) && Stands(s, ts[0], j, e) && Laid(s, e, ts[1..])
  }

  lemma {:induction false} SkipBlanks(s: string, i: nat, j: nat)
    requires Blanks(s, i, j) && (j < |s| ==> !Blank(s[j]))
    ensures Skip(s, i) == j
    decreases |s| - i
  {
    if i < j { SkipBlanks(s, i + 1, j); }
  }

  lemma {:induction false} SkippedBlank(s: string, i: nat)
    requires i <= |s|
    ensures Blanks(s, i, Skip(s, i))
    decreases |s| - i
  {
    if i < |s| && IsWs(s[i]) { SkippedBlank(s, i + 1); }
  }

  lemma {:induction false} WordSpan(s: string, i: nat, e: nat)
    requires i <= e <= |s| && (forall k :: i <= k < e ==> Letter(s[k])) && (e < |s| ==> !Letter(s[e]))
    ensures WordEnd(s, i) == e
    decreases |s| - i
  {
    if i < e { WordSpan(s, i + 1, e); }
  }

  lemma {:induction false} WordLetters(s: string, i: nat)
    requires i <= |s|
    ensures forall k :: i <= k < WordEnd(s, i) ==> Letter(s[k])
    decreases |s| - i
  {
    if i < |s| && Plain(s[i]) { WordLetters(s, i + 1); }
  }

  /** The token at `j` is the one that stands there. */
  lemma TokStands(s: string, t: Tok, j: nat, e: nat)
    requires j < |s| && !Blank(s[j])
    ensures Stands(s, t, j, e) <==> TokAt(s, j) == (t, e)
  {
    if s[j] != '>' && Letter(s[j]) {
      WordLetters(s, j);
      if Stands(s, t, j, e) { WordSpan(s, j, e); }
    }
  }

  /** The tokenizer finds exactly the tokens that the line is laid out as. */
  lemma {:induction false} LexExactly(s: string, i: nat, ts: seq<Tok>)
    requires i <= |s|
    ensures Lex(s, i) == ts <==> Laid(s, i, ts)
    decreases |s| - i
  {
    var j := Skip(s, i);
    SkippedBlank(s, i);
    if j == |s| {
      if ts != [] { NoTokens(s, i, ts); }
    } else {
      var (t, e) := TokAt(s, j);
      TokStands(s, t, j, e);
      LexExactly(s, e, Lex(s, e));
      if ts == [] {
        assert !Blank(s[j]);
      } else {
        LexExactly(s, e, ts[1..]);
        if Lex(s, i) == ts {
          assert Blanks(s, i, j) && Stands(s, ts[0], j, e) && Laid(s, e, ts[1..]);
        }
        if Laid(s, i, ts) { LaidFirst(s, i, ts, j, t, e); }
        assert [ts[0]] + ts[1..] == ts;
      }
    }
  }

  lemma NoTokens(s: string, i: nat, ts: seq<Tok>)
    requires i <= |s| && Blanks(s, i, |s|) && ts != []
    ensures !Laid(s, i, ts)
  {
    forall j: nat, e: nat | Blanks(s, i, j)
      ensures !Stands(s, ts[0], j, e)
    {
      if j < |s| { assert Blank(s[j]); }
    }
  }

  lemma LaidFirst(s: string, i: nat, ts: seq<Tok>, j: nat, t: Tok, e: nat)
    requires i <= j < |s| && j == Skip(s, i) && !Blank(s[j]) && TokAt(s, j) == (t, e) && ts != [] && Laid(s, i, ts)
    ensures ts[0] == t && Laid(s, e, ts[1..])
  {
    var j': nat, e': nat :| Blanks(s, i, j') && Stands(s, ts[0], j', e') && Laid(s, e', ts[1..]);
    assert !Blank(s[j']);
    SkipBlanks(s, i, j');
    TokStands(s, ts[0], j, e');
  }

  /** A line that writes a tree out, however it is spaced, has that tree and no other. */
  lemma WrittenLine(s: string, c: Cmd, d: Cmd)
    requires Made(c) && Laid(s, 0, Print(c, 3))
    ensures Derives(Lex(s, 0), d) <==> d == c
  {
    LexExactly(s, 0, Print(c, 3));
    EveryTree(c, d);
  }
}
