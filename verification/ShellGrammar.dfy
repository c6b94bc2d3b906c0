/**
  The command language of user/sh.c: its grammar over tokens, a recursive
  descent over tokens, and that the two agree.

    line := pipe '&'* [';' line]      pipe := exec ['|' pipe]
    exec := '(' line ')' redir* | (word | redir)*
    redir := ('<' | '>' | '>>') word
 */
module ShellGrammar {

  import opened Common

  const MAXARGS: nat := 10

  const O_RDONLY: nat := 0
  const O_WRONLY: nat := 1
  const O_CREATE: nat := 0x200
  const O_TRUNC: nat := 0x400

  /** A symbol, the symbol >>, or the word at [q, e) of the line. */
  datatype Tok = Sym(c: char) | App | Word(q: nat, e: nat)

  datatype Span = Span(q: nat, e: nat)

  // ---- concrete syntax

  datatype Redirect = Redirect(op: Tok, file: Span)
  datatype Item = Arg(word: Span) | Red(r: Redirect)
  datatype ExecX = Simple(items: seq<Item>) | Block(body: Line, rs: seq<Redirect>)
  datatype PipeX = Last(x: ExecX) | Piped(x: ExecX, rest: PipeX)
  datatype Line = Only(p: PipeX, amps: nat) | Then(p: PipeX, amps: nat, next: Line)

  predicate IsOp(t: Tok) {
    t == Sym('<') || t == Sym('>') || t == App
  }

  /** Starts nothing that exec takes in. */
  predicate Stop(t: Tok) {
    t == Sym('|') || t == Sym(')') || t == Sym('&') || t == Sym(';')
  }

  function W(s: Span): Tok {
    Word(s.q, s.e)
  }

  // ---- the tokens of a piece of syntax

  function RedirectsToks(rs: seq<Redirect>): seq<Tok> {
    if rs == [] then [] else [rs[0].op, W(rs[0].file)] + RedirectsToks(rs[1..])
  }

  function ItemsToks(items: seq<Item>): seq<Tok> {
    if items == [] then []
    else (match items[0] case Arg(w) => [W(w)] case Red(r) => [r.op, W(r.file)]) + ItemsToks(items[1..])
  }

  function ExecToks(x: ExecX): seq<Tok> {
    match x
    case Simple(items) => ItemsToks(items)
    case Block(body, rs) => [Sym('(')] + LineToks(body) + [Sym(')')] + RedirectsToks(rs)
  }

  function PipeToks(p: PipeX): seq<Tok> {
    match p
    case Last(x) => ExecToks(x)
    case Piped(x, rest) => ExecToks(x) + [Sym('|')] + PipeToks(rest)
  }

  function Amps(n: nat): seq<Tok> {
    if n == 0 then [] else [Sym('&')] + Amps(n - 1)
  }

  function LineToks(l: Line): seq<Tok> {
    match l
    case Only(p, amps) => PipeToks(p) + Amps(amps)
    case Then(p, amps, next) => PipeToks(p) + Amps(amps) + [Sym(';')] + LineToks(next)
  }

  // ---- the tree of a piece of syntax

  datatype Cmd =
    | Exec(argv: seq<Span>)
    | Redir(cmd: Cmd, file: Span, mode: nat, fd: nat)
    | Pipe(left: Cmd, right: Cmd)
    | List(left: Cmd, right: Cmd)
    | Back(cmd: Cmd)

  function Wrap(c: Cmd, r: Redirect): Cmd {
    if r.op == Sym('<') then Redir(c, r.file, O_RDONLY, 0)
    else if r.op == Sym('>') then Redir(c, r.file, O_WRONLY + O_CREATE + O_TRUNC, 1)
    else Redir(c, r.file, O_WRONLY + O_CREATE, 1)
  }

  /** Each redirection goes around what came before it. */
  function WrapAll(c: Cmd, rs: seq<Redirect>): Cmd
    decreases |rs|
  {
    if rs == [] then c else WrapAll(Wrap(c, rs[0]), rs[1..])
  }

  function Args(items: seq<Item>): seq<Span> {
    if items == [] then [] else (if items[0].Arg? then [items[0].word] else []) + Args(items[1..])
  }

  function Reds(items: seq<Item>): seq<Redirect> {
    if items == [] then [] else (if items[0].Red? then [items[0].r] else []) + Reds(items[1..])
  }

  function ExecTree(x: ExecX): Cmd {
    match x
    case Simple(items) => WrapAll(Exec(Args(items)), Reds(items))
    case Block(body, rs) => WrapAll(LineTree(body), rs)
  }

  function PipeTree(p: PipeX): Cmd {
    match p
    case Last(x) => ExecTree(x)
    case Piped(x, rest) => Pipe(ExecTree(x), PipeTree(rest))
  }

  function Backs(c: Cmd, n: nat): Cmd
    decreases n
  {
    if n == 0 then c else Backs(Back(c), n - 1)
  }

  function LineTree(l: Line): Cmd {
    match l
    case Only(p, amps) => Backs(PipeTree(p), amps)
    case Then(p, amps, next) => List(Backs(PipeTree(p), amps), LineTree(next))
  }

  // ---- what the parser can take: operators in redirections, few enough arguments

  predicate RedirectsOk(rs: seq<Redirect>) {
    forall i :: 0 <= i < |rs| ==> IsOp(rs[i].op)
  }

  predicate ItemsOk(items: seq<Item>) {
    forall i :: 0 <= i < |items| && items[i].Red? ==> IsOp(items[i].r.op)
  }

  predicate ExecOk(x: ExecX) {
    match x
    case Simple(items) => ItemsOk(items) && |Args(items)| < MAXARGS
    case Block(body, rs) => LineOk(body) && RedirectsOk(rs)
  }

  predicate PipeOk(p: PipeX) {
    match p
    case Last(x) => ExecOk(x)
    case Piped(x, rest) => ExecOk(x) && PipeOk(rest)
  }

  predicate LineOk(l: Line) {
    match l
    case Only(p, _) => PipeOk(p)
    case Then(p, _, next) => PipeOk(p) && LineOk(next)
  }

  // ---- recursive descent over tokens

  type Parse<+T> = Option<(T, seq<Tok>)>

  function ParseRedirects(ts: seq<Tok>): (r: Parse<seq<Redirect>>)
    ensures r.Some? ==> |r.value.1| <= |ts|
  {
    if ts == [] || !IsOp(ts[0]) then Some(([], ts))
    else if |ts| < 2 || !ts[1].Word? then None
    else
      match ParseRedirects(ts[2..])
      case None => None
      case Some((rs, rest)) => Some(([Redirect(ts[0], Span(ts[1].q, ts[1].e))] + rs, rest))
  }

  function ParseItems(ts: seq<Tok>, argc: nat): (r: Parse<seq<Item>>)
    ensures r.Some? ==> |r.value.1| <= |ts|
    decreases |ts|
  {
    if ts == [] || Stop(ts[0]) then Some(([], ts))
    else if IsOp(ts[0]) then
      if |ts| < 2 || !ts[1].Word? then None
      else
        match ParseItems(ts[2..], argc)
        case None => None
        case Some((items, rest)) => Some(([Red(Redirect(ts[0], Span(ts[1].q, ts[1].e)))] + items, rest))
    else if !ts[0].Word? || argc + 1 >= MAXARGS then None
    else
      match ParseItems(ts[1..], argc + 1)
      case None => None
      case Some((items, rest)) => Some(([Arg(Span(ts[0].q, ts[0].e))] + items, rest))
  }

  function ParseExec(ts: seq<Tok>): (r: Parse<ExecX>)
    ensures r.Some? ==> |r.value.1| <= |ts|
    decreases |ts|, 0
  {
    if ts != [] && ts[0] == Sym('(') then
      match ParseLine(ts[1..])
      case None => None
      case Some((body, rest)) =>
        if rest == [] || rest[0] != Sym(')') then None
        else
          match ParseRedirects(rest[1..])
          case None => None
          case Some((rs, rest')) => Some((Block(body, rs), rest'))
    else
      match ParseItems(ts, 0)
      case None => None
      case Some((items, rest)) => Some((Simple(items), rest))
  }

  function ParsePipe(ts: seq<Tok>): (r: Parse<PipeX>)
    ensures r.Some? ==> |r.value.1| <= |ts|
    decreases |ts|, 1
  {
    match ParseExec(ts)
    case None => None
    case Some((x, rest)) =>
      if rest == [] || rest[0] != Sym('|') then Some((Last(x), rest))
      else
        match ParsePipe(rest[1..])
        case None => None
        case Some((p, rest')) => Some((Piped(x, p), rest'))
  }

  function CountAmps(ts: seq<Tok>): (n: nat)
    ensures n <= |ts|
  {
    if ts == [] || ts[0] != Sym('&') then 0 else 1 + CountAmps(ts[1..])
  }

  function ParseLine(ts: seq<Tok>): (r: Parse<Line>)
    ensures r.Some? ==> |r.value.1| <= |ts|
    decreases |ts|, 2
  {
    match ParsePipe(ts)
    case None => None
    case Some((p, rest)) =>
      var n := CountAmps(rest);
      var after := rest[n..];
      if after == [] || after[0] != Sym(';') then Some((Only(p, n), after))
      else
        match ParseLine(after[1..])
        case None => None
        case Some((next, rest')) => Some((Then(p, n, next), rest'))
  }

  // ---- what is parsed has the tokens it was parsed from

  lemma Grouped(a: seq<Tok>, b: seq<Tok>, c: seq<Tok>)
    ensures a + (b + c) == a + b + c
  {
  }

  lemma {:induction false} RedirectsSound(ts: seq<Tok>)
    requires ParseRedirects(ts).Some?
    ensures var (rs, rest) := ParseRedirects(ts).value; ts == RedirectsToks(rs) + rest && RedirectsOk(rs) && (rest != [] ==> !IsOp(rest[0]))
  {
    if ts != [] && IsOp(ts[0]) {
      RedirectsSound(ts[2..]);
      var (rs, rest) := ParseRedirects(ts[2..]).value;
      var r := Redirect(ts[0], Span(ts[1].q, ts[1].e));
      RedirectsNext(r, rs);
      assert ts == [ts[0], ts[1]] + ts[2..];
      Grouped([ts[0], ts[1]], RedirectsToks(rs), rest);
      hide RedirectsToks;
    }
  }

  lemma RedirectsNext(r: Redirect, rs: seq<Redirect>)
    ensures RedirectsToks([r] + rs) == [r.op, W(r.file)] + RedirectsToks(rs)
  {
    assert ([r] + rs)[1..] == rs;
  }

  lemma ItemsNext(i: Item, items: seq<Item>)
    ensures ItemsToks([i] + items) == (match i case Arg(w) => [W(w)] case Red(r) => [r.op, W(r.file)]) + ItemsToks(items)
    ensures Args([i] + items) == (if i.Arg? then [i.word] else []) + Args(items)
    ensures Reds([i] + items) == (if i.Red? then [i.r] else []) + Reds(items)
  {
    assert ([i] + items)[1..] == items;
  }

  lemma {:induction false} ItemsSound(ts: seq<Tok>, argc: nat)
    requires ParseItems(ts, argc).Some? && argc < MAXARGS
    ensures var (items, rest) := ParseItems(ts, argc).value;
            ts == ItemsToks(items) + rest && ItemsOk(items) && argc + |Args(items)| < MAXARGS && (rest != [] ==> Stop(rest[0]))
    decreases |ts|
  {
    if ts != [] && !Stop(ts[0]) {
      if IsOp(ts[0]) {
        ItemsSound(ts[2..], argc);
        var (items, rest) := ParseItems(ts[2..], argc).value;
        ItemsNext(Red(Redirect(ts[0], Span(ts[1].q, ts[1].e))), items);
        assert ts == [ts[0], ts[1]] + ts[2..];
        Grouped([ts[0], ts[1]], ItemsToks(items), rest);
        hide ItemsToks, Args;
      } else {
        ItemsSound(ts[1..], argc + 1);
        var (items, rest) := ParseItems(ts[1..], argc + 1).value;
        ItemsNext(Arg(Span(ts[0].q, ts[0].e)), items);
        assert ts == [ts[0]] + ts[1..];
        Grouped([ts[0]], ItemsToks(items), rest);
        hide ItemsToks, Args;
      }
    }
  }

  lemma BlockJoin(ts: seq<Tok>, body: Line, rest: seq<Tok>, rs: seq<Redirect>, rest': seq<Tok>)
    requires ts != [] && ts[0] == Sym('(') && ts[1..] == LineToks(body) + rest
    requires rest != [] && rest[0] == Sym(')') && rest[1..] == RedirectsToks(rs) + rest'
    ensures ts == ExecToks(Block(body, rs)) + rest'
  {
    var b, r := LineToks(body), RedirectsToks(rs);
    hide LineToks, RedirectsToks;
    assert rest == [Sym(')')] + (r + rest');
    assert ts == [Sym('(')] + (b + ([Sym(')')] + (r + rest')));
    assert [Sym('(')] + (b + ([Sym(')')] + (r + rest'))) == [Sym('(')] + b + [Sym(')')] + r + rest';
  }

  lemma {:induction false} ExecSound(ts: seq<Tok>)
    requires ParseExec(ts).Some?
    ensures var (x, rest) := ParseExec(ts).value; ts == ExecToks(x) + rest && ExecOk(x)
    decreases |ts|, 0
  {
    if ts != [] && ts[0] == Sym('(') {
      LineSound(ts[1..]);
      var (body, rest) := ParseLine(ts[1..]).value;
      RedirectsSound(rest[1..]);
      var (rs, rest') := ParseRedirects(rest[1..]).value;
      BlockJoin(ts, body, rest, rs, rest');
      assert ExecOk(Block(body, rs));
      hide ExecToks, ExecOk, LineToks, RedirectsToks;
    } else {
      ItemsSound(ts, 0);
    }
  }

  lemma {:induction false} PipeSound(ts: seq<Tok>)
    requires ParsePipe(ts).Some?
    ensures var (p, rest) := ParsePipe(ts).value; ts == PipeToks(p) + rest && PipeOk(p)
    decreases |ts|, 1
  {
    ExecSound(ts);
    var (x, rest) := ParseExec(ts).value;
    hide ExecToks, ExecOk;
    if rest != [] && rest[0] == Sym('|') {
      PipeSound(rest[1..]);
      assert rest == [Sym('|')] + rest[1..];
    }
  }

  lemma {:induction false} AmpsSound(ts: seq<Tok>)
    ensures ts == Amps(CountAmps(ts)) + ts[CountAmps(ts)..]
  {
    if ts != [] && ts[0] == Sym('&') {
      AmpsSound(ts[1..]);
      assert ts == [ts[0]] + ts[1..];
    }
  }

  lemma LineJoin(ts: seq<Tok>, p: seq<Tok>, a: seq<Tok>, after: seq<Tok>, l: seq<Tok>, rest: seq<Tok>)
    requires ts == p + (a + after) && after != [] && after[0] == Sym(';') && after[1..] == l + rest
    ensures ts == p + a + [Sym(';')] + l + rest
  {
    assert after == [Sym(';')] + (l + rest);
  }

  lemma {:induction false} LineSound(ts: seq<Tok>)
    requires ParseLine(ts).Some?
    ensures var (l, rest) := ParseLine(ts).value; ts == LineToks(l) + rest && LineOk(l)
    decreases |ts|, 2
  {
    PipeSound(ts);
    var (p, rest) := ParsePipe(ts).value;
    var n := CountAmps(rest);
    AmpsSound(rest);
    var after := rest[n..];
    hide PipeToks, PipeOk, Amps, CountAmps, ParsePipe;
    if after != [] && after[0] == Sym(';') {
      LineSound(after[1..]);
      var (next, rest') := ParseLine(after[1..]).value;
      LineJoin(ts, PipeToks(p), Amps(n), after, LineToks(next), rest');
    } else {
      Grouped(PipeToks(p), Amps(n), after);
    }
  }

  // ---- and every piece of syntax is parsed back from its tokens

  lemma Regrouped(a: seq<Tok>, b: seq<Tok>, c: seq<Tok>)
    ensures a + b + c == a + (b + c)
  {
  }

  lemma {:induction false} RedirectsComplete(rs: seq<Redirect>, rest: seq<Tok>)
    requires RedirectsOk(rs) && (rest == [] || !IsOp(rest[0]))
    ensures ParseRedirects(RedirectsToks(rs) + rest) == Some((rs, rest))
  {
    if rs == [] {
      assert RedirectsToks(rs) + rest == rest;
    } else {
      RedirectsComplete(rs[1..], rest);
      var head, tail := [rs[0].op, W(rs[0].file)], RedirectsToks(rs[1..]) + rest;
      Regrouped(head, RedirectsToks(rs[1..]), rest);
      assert (head + tail)[2..] == tail && (head + tail)[0] == rs[0].op && (head + tail)[1] == W(rs[0].file);
      assert [rs[0]] + rs[1..] == rs;
    }
  }

  lemma ParseArg(w: Span, tail: seq<Tok>, argc: nat)
    requires argc + 1 < MAXARGS && ParseItems(tail, argc + 1).Some?
    ensures var (items, rest) := ParseItems(tail, argc + 1).value; ParseItems([W(w)] + tail, argc) == Some(([Arg(w)] + items, rest))
  {
    assert ([W(w)] + tail)[1..] == tail;
  }

  lemma ParseRed(r: Redirect, tail: seq<Tok>, argc: nat)
    requires IsOp(r.op) && ParseItems(tail, argc).Some?
    ensures var (items, rest) := ParseItems(tail, argc).value; ParseItems([r.op, W(r.file)] + tail, argc) == Some(([Red(r)] + items, rest))
  {
    assert ([r.op, W(r.file)] + tail)[2..] == tail;
  }

  lemma {:induction false} ItemsComplete(items: seq<Item>, argc: nat, rest: seq<Tok>)
    requires ItemsOk(items) && argc + |Args(items)| < MAXARGS && (rest == [] || Stop(rest[0]))
    ensures ParseItems(ItemsToks(items) + rest, argc) == Some((items, rest))
    decreases |items|
  {
    if items == [] {
      assert ItemsToks(items) + rest == rest;
    } else {
      var i, tail := items[0], ItemsToks(items[1..]) + rest;
      ItemsNext(i, items[1..]);
      assert [i] + items[1..] == items;
      hide ItemsToks, Args, ParseItems;
      ItemsComplete(items[1..], if i.Arg? then argc + 1 else argc, rest);
      if i.Arg? {
        ParseArg(i.word, tail, argc);
        Regrouped([W(i.word)], ItemsToks(items[1..]), rest);
      } else {
        ParseRed(i.r, tail, argc);
        Regrouped([i.r.op, W(i.r.file)], ItemsToks(items[1..]), rest);
      }
    }
  }

  lemma ItemsStart(items: seq<Item>, rest: seq<Tok>)
    requires ItemsOk(items) && (rest == [] || Stop(rest[0]))
    ensures var ts := ItemsToks(items) + rest; ts == [] || ts[0] != Sym('(')
  {
    if items == [] {
      assert ItemsToks(items) + rest == rest;
    }
  }

  lemma {:induction false} ExecComplete(x: ExecX, rest: seq<Tok>)
    requires ExecOk(x) && (rest == [] || Stop(rest[0]))
    ensures ParseExec(ExecToks(x) + rest) == Some((x, rest))
    decreases x, 0
  {
    match x {
      case Simple(items) =>
        ItemsComplete(items, 0, rest);
        ItemsStart(items, rest);
      case Block(body, rs) =>
        var after := [Sym(')')] + (RedirectsToks(rs) + rest);
        LineComplete(body, after);
        RedirectsComplete(rs, rest);
        var ts := ExecToks(x) + rest;
        BlockSplit(body, rs, rest);
        hide LineToks, RedirectsToks, ExecToks, ParseLine, ParseRedirects;
        assert after[1..] == RedirectsToks(rs) + rest;
    }
  }

  lemma BlockSplit(body: Line, rs: seq<Redirect>, rest: seq<Tok>)
    ensures var ts := ExecToks(Block(body, rs)) + rest;
            ts[0] == Sym('(') && ts[1..] == LineToks(body) + ([Sym(')')] + (RedirectsToks(rs) + rest))
  {
    var b, r := LineToks(body), RedirectsToks(rs);
    hide LineToks, RedirectsToks;
    assert [Sym('(')] + b + [Sym(')')] + r + rest == [Sym('(')] + (b + ([Sym(')')] + (r + rest)));
  }

  lemma PipeStep(ts: seq<Tok>, x: ExecX, r: seq<Tok>, p: PipeX, rest: seq<Tok>)
    requires ParseExec(ts) == Some((x, r)) && r != [] && r[0] == Sym('|') && ParsePipe(r[1..]) == Some((p, rest))
    ensures ParsePipe(ts) == Some((Piped(x, p), rest))
  {
    hide ParseExec, Stop, IsOp;
  }

  lemma PipeSplit(x: ExecX, p: PipeX, rest: seq<Tok>)
    ensures PipeToks(Piped(x, p)) + rest == ExecToks(x) + ([Sym('|')] + (PipeToks(p) + rest))
  {
    var a, b := ExecToks(x), PipeToks(p);
    assert PipeToks(Piped(x, p)) == a + [Sym('|')] + b;
    hide *;
    Regroup(a, [Sym('|')], b, rest);
  }

  lemma RegroupTail(a: seq<Tok>, b: seq<Tok>, c: seq<Tok>, d: seq<Tok>)
    ensures a + (b + c) + d == a + (b + (c + d))
  {
  }

  lemma Regroup(a: seq<Tok>, b: seq<Tok>, c: seq<Tok>, d: seq<Tok>)
    ensures a + b + c + d == a + (b + (c + d))
  {
  }

  lemma {:induction false} PipeComplete(p: PipeX, rest: seq<Tok>)
    requires PipeOk(p) && (rest == [] || (Stop(rest[0]) && rest[0] != Sym('|')))
    ensures ParsePipe(PipeToks(p) + rest) == Some((p, rest))
    decreases p, 1
  {
    match p {
      case Last(x) =>
        ExecComplete(x, rest);
        assert PipeToks(p) == ExecToks(x);
        hide ExecToks, ParseExec, PipeToks;
      case Piped(x, p') =>
        var r := [Sym('|')] + (PipeToks(p') + rest);
        ExecComplete(x, r);
        PipeComplete(p', rest);
        PipeSplit(x, p', rest);
        hide ExecToks, ParseExec, PipeToks, ParsePipe;
        assert r[1..] == PipeToks(p') + rest;
        PipeStep(PipeToks(p) + rest, x, r, p', rest);
    }
  }

  lemma CountNext(tail: seq<Tok>, n: nat)
    requires n <= |tail|
    ensures CountAmps([Sym('&')] + tail) == 1 + CountAmps(tail) && ([Sym('&')] + tail)[n + 1..] == tail[n..]
  {
    assert ([Sym('&')] + tail)[1..] == tail;
  }

  lemma {:induction false} AmpsComplete(n: nat, after: seq<Tok>)
    requires after == [] || after[0] != Sym('&')
    ensures CountAmps(Amps(n) + after) == n && |Amps(n)| == n && (Amps(n) + after)[n..] == after
  {
    if n == 0 {
      assert Amps(0) + after == after;
    } else {
      assert Amps(n) == [Sym('&')] + Amps(n - 1);
      hide Amps, CountAmps;
      AmpsComplete(n - 1, after);
      Regrouped([Sym('&')], Amps(n - 1), after);
      CountNext(Amps(n - 1) + after, n - 1);
    }
  }

  lemma AmpsStart(n: nat, after: seq<Tok>)
    requires after == [] || after[0] == Sym(')') || after[0] == Sym(';')
    ensures var ts := Amps(n) + after; ts == [] || (Stop(ts[0]) && ts[0] != Sym('|'))
  {
    if n == 0 {
      assert Amps(0) + after == after;
    }
  }

  lemma {:induction false} LineComplete(l: Line, rest: seq<Tok>)
    requires LineOk(l) && (rest == [] || rest[0] == Sym(')'))
    ensures ParseLine(LineToks(l) + rest) == Some((l, rest))
    decreases l, 2
  {
    var after := if l.Only? then rest else [Sym(';')] + (LineToks(l.next) + rest);
    AmpsStart(l.amps, after);
    PipeComplete(l.p, Amps(l.amps) + after);
    AmpsComplete(l.amps, after);
    if l.Then? {
      LineComplete(l.next, rest);
    }
    hide PipeToks, ParsePipe, Amps, CountAmps, PipeOk;
    if l.Only? {
      Regrouped(PipeToks(l.p), Amps(l.amps), rest);
    } else {
      Regroup(PipeToks(l.p), Amps(l.amps), [Sym(';')], LineToks(l.next));
      RegroupTail(PipeToks(l.p), Amps(l.amps), [Sym(';')] + LineToks(l.next), rest);
      Regrouped([Sym(';')], LineToks(l.next), rest);
      assert after[1..] == LineToks(l.next) + rest;
    }
  }

  // ---- the main result on tokens

  /** The descent takes in all the tokens exactly when they are those of a line
      of the grammar, and then it finds that line. */
  lemma ParsesGrammar(ts: seq<Tok>, l: Line)
    ensures ParseLine(ts) == Some((l, [])) <==> LineOk(l) && LineToks(l) == ts
  {
    if ParseLine(ts) == Some((l, [])) {
      LineSound(ts);
      assert LineToks(l) + [] == LineToks(l);
    }
    if LineOk(l) && LineToks(l) == ts {
      LineComplete(l, []);
      assert LineToks(l) + [] == ts;
    }
  }

  /** No two lines have the same tokens. */
  lemma Unambiguous(a: Line, b: Line)
    requires LineOk(a) && LineOk(b) && LineToks(a) == LineToks(b)
    ensures a == b
  {
    ParsesGrammar(LineToks(a), a);
    ParsesGrammar(LineToks(a), b);
  }
}
