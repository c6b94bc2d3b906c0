/**
  user/grep.c: the matcher of chapter 9 of The Practice of Programming against
  the meaning of its patterns, and the line buffering of grep. Strings are
  without their terminating NUL.
 */
module Grep {

  const NUL: char := '\0'
  const BUFSIZE: nat := 1024

  // ---- the meaning of patterns

  /** One position of a pattern: a character, or any number of it. */
  datatype Item = One(c: char) | Star(c: char)

  /** A pattern without its leading ^; `atEnd` is the trailing $. */
  datatype Pattern = Pattern(items: seq<Item>, atEnd: bool)

  function Parse(re: string): Pattern {
    if re == "" then Pattern([], false)
    else if |re| >= 2 && re[1] == '*' then var p := Parse(re[2..]); Pattern([Star(re[0])] + p.items, p.atEnd)
    else if re == "$" then Pattern([], true)
    else var p := Parse(re[1..]); Pattern([One(re[0])] + p.items, p.atEnd)
  }

  predicate Fits(c: char, x: char) {
    c == '.' || c == x
  }

  predicate AllFit(c: char, w: string) {
    forall i :: 0 <= i < |w| ==> Fits(c, w[i])
  }

  /** The word `w`, all of it, is one of those the items describe. */
  ghost predicate Describes(items: seq<Item>, w: string)
    decreases |items|
  {
    if items == [] then w == ""
    else match items[0]
      case One(c) => w != "" && Fits(c, w[0]) && Describes(items[1..], w[1..])
      case Star(c) => exists k :: 0 <= k <= |w| && AllFit(c, w[..k]) && Describes(items[1..], w[k..])
  }

  /** The pattern matches at the start of the text. */
  ghost predicate MatchesHere(p: Pattern, text: string) {
    exists n :: 0 <= n <= |text| && Describes(p.items, text[..n]) && (p.atEnd ==> n == |text|)
  }

  /** The pattern matches somewhere in the text, or with ^ at its start. */
  ghost predicate Matches(re: string, text: string) {
    if re != "" && re[0] == '^' then MatchesHere(Parse(re[1..]), text)
    else exists k :: 0 <= k <= |text| && MatchesHere(Parse(re), text[k..])
  }

  // ---- what the matcher's branches rest on

  lemma HereEmpty(text: string)
    ensures MatchesHere(Parse(""), text)
  {
    assert Describes([], text[..0]);
  }

  lemma HereEnd(text: string)
    ensures MatchesHere(Parse("$"), text) <==> text == ""
  {
    if text == "" {
      assert Describes([], text[..0]);
    }
  }

  lemma HereOne(c: char, p: Pattern, text: string)
    ensures MatchesHere(Pattern([One(c)] + p.items, p.atEnd), text) <==> text != "" && Fits(c, text[0]) && MatchesHere(p, text[1..])
  {
    var items := [One(c)] + p.items;
    assert items[1..] == p.items;
    if MatchesHere(Pattern(items, p.atEnd), text) {
      var n :| 0 <= n <= |text| && Describes(items, text[..n]) && (p.atEnd ==> n == |text|);
      assert text[..n][1..] == text[1..][..n - 1];
    }
    if text != "" && Fits(c, text[0]) && MatchesHere(p, text[1..]) {
      var n :| 0 <= n <= |text[1..]| && Describes(p.items, text[1..][..n]) && (p.atEnd ==> n == |text[1..]|);
      assert text[..n + 1][1..] == text[1..][..n];
      assert Describes(items, text[..n + 1]);
    }
  }

  /** `k` of the characters may be skipped by c*. */
  ghost predicate After(c: char, p: Pattern, text: string, k: nat) {
    k <= |text| && AllFit(c, text[..k]) && MatchesHere(p, text[k..])
  }

  ghost predicate StarMatches(c: char, p: Pattern, text: string) {
    exists k: nat :: After(c, p, text, k)
  }

  lemma HereStar(c: char, p: Pattern, text: string)
    ensures MatchesHere(Pattern([Star(c)] + p.items, p.atEnd), text) <==> StarMatches(c, p, text)
  {
    var items := [Star(c)] + p.items;
    assert items[1..] == p.items;
    if MatchesHere(Pattern(items, p.atEnd), text) {
      var n :| 0 <= n <= |text| && Describes(items, text[..n]) && (p.atEnd ==> n == |text|);
      var k :| 0 <= k <= n && AllFit(c, text[..n][..k]) && Describes(p.items, text[..n][k..]);
      assert text[..n][..k] == text[..k] && text[..n][k..] == text[k..][..n - k];
      assert After(c, p, text, k);
    }
    if k: nat :| After(c, p, text, k) {
      var n :| 0 <= n <= |text[k..]| && Describes(p.items, text[k..][..n]) && (p.atEnd ==> n == |text[k..]|);
      assert text[..n + k][..k] == text[..k] && text[..n + k][k..] == text[k..][..n];
      assert Describes(items, text[..n + k]);
    }
  }

  // ---- the matcher

  /** matchhere: whether the pattern matches at the start of the text. */
  method Matchhere(re: string, text: string) returns (b: bool)
    ensures b == MatchesHere(Parse(re), text)
    decreases |re|, 0
  {
    if re == "" {
      HereEmpty(text);
      return true;
    }
    if |re| >= 2 && re[1] == '*' {
      HereStar(re[0], Parse(re[2..]), text);
      b := Matchstar(re[0], re[2..], text);
      return;
    }
    if re == "$" {
      HereEnd(text);
      return text == "";
    }
    HereOne(re[0], Parse(re[1..]), text);
    if text != "" && (re[0] == '.' || re[0] == text[0]) {
      b := Matchhere(re[1..], text[1..]);
      return;
    }
    return false;
  }

  /** matchstar: whether c* and then the pattern match at the start of the text. */
  method Matchstar(c: char, re: string, text: string) returns (b: bool)
    ensures b == StarMatches(c, Parse(re), text)
    decreases |re|, 1
  {
    var k := 0;
    while true
      invariant 0 <= k <= |text| && AllFit(c, text[..k])
      invariant forall j: nat :: j < k ==> !After(c, Parse(re), text, j)
      decreases |text| - k
    {
      var here := Matchhere(re, text[k..]);
      if here {
        assert After(c, Parse(re), text, k);
        return true;
      }
      if !(k < |text| && (text[k] == c || c == '.')) {
        forall j: nat
          ensures !After(c, Parse(re), text, j)
        {
          if j > k && j <= |text| {
            assert text[..j][k] == text[k];
          }
        }
        return false;
      }
      assert text[..k + 1] == text[..k] + [text[k]];
      k := k + 1;
    }
  }

  /** match: whether the pattern matches anywhere in the text. */
  method Match(re: string, text: string) returns (b: bool)
    ensures b == Matches(re, text)
  {
    if re != "" && re[0] == '^' {
      b := Matchhere(re[1..], text);
      return;
    }
    var k := 0;
    while true
      invariant 0 <= k <= |text| && forall j :: 0 <= j < k ==> !MatchesHere(Parse(re), text[j..])
      decreases |text| - k
    {
      var here := Matchhere(re, text[k..]);
      if here {
        return true;
      }
      if k == |text| {
        return false;
      }
      k := k + 1;
    }
  }

  // ---- lines

  /** The index of the first newline, or the length. */
  function FirstNl(s: string): (i: nat)
    ensures i <= |s|
  {
    if s == "" || s[0] == '\n' then 0 else 1 + FirstNl(s[1..])
  }

  lemma {:induction false} FirstNlIs(s: string, i: nat)
    requires i <= |s| && (i < |s| ==> s[i] == '\n') && forall j :: 0 <= j < i ==> s[j] != '\n'
    ensures FirstNl(s) == i
  {
    if i > 0 {
      FirstNlIs(s[1..], i - 1);
    }
  }

  /** The first line, with its newline. */
  function First(s: string): string
    requires FirstNl(s) < |s|
  {
    s[..FirstNl(s) + 1]
  }

  function Later(s: string): (r: string)
    requires FirstNl(s) < |s|
    ensures |r| < |s|
  {
    s[FirstNl(s) + 1..]
  }

  /** The newline-terminated lines. */
  function Lines(s: string): seq<string>
    decreases |s|
  {
    if FirstNl(s) == |s| then [] else [First(s)] + Lines(Later(s))
  }

  /** What follows the last newline. */
  function Rest(s: string): string
    decreases |s|
  {
    if FirstNl(s) == |s| then s else Rest(Later(s))
  }

  /** The lines that match, as grep writes them. */
  ghost function Filtered(re: string, ls: seq<string>): string {
    if ls == [] then "" else (if ls[0] != "" && Matches(re, ls[0][..|ls[0]| - 1]) then ls[0] else "") + Filtered(re, ls[1..])
  }

  /** The lines before the first that does not fit the buffer. */
  function Short(ls: seq<string>): seq<string> {
    if ls == [] || |ls[0]| >= BUFSIZE then [] else [ls[0]] + Short(ls[1..])
  }

  lemma {:induction false} FirstNlJoin(s: string, t: string)
    ensures FirstNl(s + t) == if FirstNl(s) < |s| then FirstNl(s) else |s| + FirstNl(t)
  {
    if s == "" {
      assert s + t == t;
    } else {
      assert (s + t)[1..] == s[1..] + t;
      FirstNlJoin(s[1..], t);
    }
  }

  lemma LinesNext(s: string)
    requires FirstNl(s) < |s|
    ensures Lines(s) == [First(s)] + Lines(Later(s)) && Rest(s) == Rest(Later(s))
  {
    hide FirstNl, First, Later;
  }

  lemma LinesNone(s: string)
    requires FirstNl(s) == |s|
    ensures Lines(s) == [] && Rest(s) == s
  {
  }

  lemma {:induction false} RestNone(s: string)
    ensures FirstNl(Rest(s)) == |Rest(s)|
    decreases |s|
  {
    if FirstNl(s) < |s| {
      RestNone(Later(s));
    }
  }

  function Concat(ls: seq<string>): string {
    if ls == [] then "" else ls[0] + Concat(ls[1..])
  }

  /** One newline, at the end. */
  predicate IsLine(l: string) {
    l != "" && l[|l| - 1] == '\n' && forall i :: 0 <= i < |l| - 1 ==> l[i] != '\n'
  }

  lemma {:induction false} UpToNl(s: string)
    ensures forall i :: 0 <= i < FirstNl(s) ==> s[i] != '\n'
    ensures FirstNl(s) < |s| ==> s[FirstNl(s)] == '\n'
  {
    if s != "" && s[0] != '\n' {
      UpToNl(s[1..]);
      forall i | 0 <= i < FirstNl(s)
        ensures s[i] != '\n'
      {
        if i > 0 { assert s[1..][i - 1] == s[i]; }
      }
    }
  }

  lemma FirstIsLine(s: string)
    requires FirstNl(s) < |s|
    ensures IsLine(First(s)) && First(s) + Later(s) == s
  {
    UpToNl(s);
    CutAt(s, FirstNl(s));
    hide FirstNl;
  }

  lemma CutAt(s: string, n: nat)
    requires n < |s| && s[n] == '\n' && forall i :: 0 <= i < n ==> s[i] != '\n'
    ensures IsLine(s[..n + 1]) && s[..n + 1] + s[n + 1..] == s
  {
  }

  lemma ConcatNext(l: string, ls: seq<string>, rest: string)
    ensures Concat([l] + ls) + rest == l + (Concat(ls) + rest)
  {
    assert ([l] + ls)[1..] == ls;
  }

  /** The lines and what is left over are the input, in order. */
  lemma {:induction false} LinesWhole(s: string)
    ensures Concat(Lines(s)) + Rest(s) == s
    ensures (forall k :: 0 <= k < |Lines(s)| ==> IsLine(Lines(s)[k])) && '\n' !in Rest(s)
    decreases |s|
  {
    hide First, Later, Lines, Rest, IsLine, FirstNl;
    if FirstNl(s) < |s| {
      LinesWhole(Later(s));
      LinesNext(s);
      FirstIsLine(s);
      ConcatNext(First(s), Lines(Later(s)), Rest(s));
    } else {
      LinesNone(s);
      UpToNl(s);
    }
  }

  /** Lines do not depend on where the input was cut. */
  lemma {:induction false} LinesJoin(s: string, t: string)
    ensures Lines(s + t) == Lines(s) + Lines(Rest(s) + t) && Rest(s + t) == Rest(Rest(s) + t)
    decreases |s|
  {
    hide FirstNl, First, Later, Lines, Rest;
    FirstNlJoin(s, t);
    if FirstNl(s) < |s| {
      FirstLater(s, t);
      LinesNext(s);
      LinesNext(s + t);
      LinesJoin(Later(s), t);
      assert [First(s)] + (Lines(Later(s)) + Lines(Rest(s) + t)) == Lines(s) + Lines(Rest(s) + t);
    } else {
      LinesNone(s);
    }
  }

  lemma FirstLater(s: string, t: string)
    requires FirstNl(s) < |s| && FirstNl(s + t) == FirstNl(s)
    ensures First(s + t) == First(s) && Later(s + t) == Later(s) + t
  {
    hide FirstNl;
  }

  lemma {:induction false} FilteredJoin(re: string, a: seq<string>, b: seq<string>)
    ensures Filtered(re, a + b) == Filtered(re, a) + Filtered(re, b)
  {
    if a == [] {
      assert a + b == b;
    } else {
      assert (a + b)[1..] == a[1..] + b;
      FilteredJoin(re, a[1..], b);
    }
  }

  predicate AllShort(ls: seq<string>) {
    forall i :: 0 <= i < |ls| ==> |ls[i]| < BUFSIZE
  }

  lemma {:induction false} ShortJoin(a: seq<string>, b: seq<string>)
    requires AllShort(a)
    ensures Short(a + b) == a + Short(b)
  {
    if a == [] {
      assert a + b == b;
    } else {
      assert (a + b)[1..] == a[1..] + b;
      ShortJoin(a[1..], b);
    }
  }

  lemma {:induction false} LinesShort(s: string)
    requires |s| < BUFSIZE
    ensures AllShort(Lines(s))
    decreases |s|
  {
    if FirstNl(s) < |s| {
      LinesShort(Later(s));
    }
  }

  // ---- the loops

  /** strchr(p, '\n') in the buffer: the first newline before the NUL, or the NUL. */
  method FindNl(buf: array<char>, p: nat, m: nat) returns (q: nat)
    requires buf.Length == BUFSIZE && p <= m < BUFSIZE && buf[m] == NUL && forall i :: p <= i < m ==> buf[i] != NUL
    ensures q == p + FirstNl(buf[p..m]) && (q < m ==> buf[q] == '\n')
  {
    hide FirstNl;
    q := p;
    while buf[q] != NUL && buf[q] != '\n'
      invariant p <= q <= m && forall i :: p <= i < q ==> buf[i] != '\n'
      decreases m - q
    {
      q := q + 1;
    }
    FirstNlIs(buf[p..m], q - p);
  }

  lemma FilteredNext(re: string, s: string)
    requires FirstNl(s) < |s|
    ensures var l := First(s);
            l != "" && Filtered(re, Lines(s)) == (if Matches(re, l[..|l| - 1]) then l else "") + Filtered(re, Lines(Later(s)))
  {
    LinesNext(s);
    assert First(s) != "";
    hide FirstNl, First, Later, Lines, Matches;
    assert ([First(s)] + Lines(Later(s)))[1..] == Lines(Later(s));
  }

  lemma OneLine(re: string, s: string, p: nat, q: nat, n: string)
    requires p <= q < |s| && FirstNl(s[p..]) == q - p && n == if Matches(re, s[p..q]) then s[p..q + 1] else ""
    ensures Filtered(re, Lines(s[p..])) == n + Filtered(re, Lines(s[q + 1..])) && Rest(s[p..]) == Rest(s[q + 1..])
  {
    hide FirstNl, Lines, Matches, Filtered, Rest;
    FilteredNext(re, s[p..]);
    LinesNext(s[p..]);
    assert Later(s[p..]) == s[q + 1..] && First(s[p..]) == s[p..q + 1] && s[p..q + 1][..q - p] == s[p..q];
  }

  /** The inner loop: every line in the buffer is tried, the matching ones are written. */
  method TryLines(re: string, buf: array<char>, m: nat) returns (p: nat, out: string)
    requires buf.Length == BUFSIZE && m < BUFSIZE && buf[m] == NUL && forall i :: 0 <= i < m ==> buf[i] != NUL
    modifies buf
    ensures p <= m && buf[p..m] == Rest(old(buf[..m])) && out == Filtered(re, Lines(old(buf[..m])))
    ensures forall i :: p <= i < m ==> buf[i] == old(buf[i])
  {
    hide FirstNl, Lines, Rest, Filtered, Matches;
    ghost var s := buf[..m];
    p, out := 0, "";
    assert s[0..] == s;
    while true
      invariant p <= m && buf[m] == NUL && (forall i :: p <= i < m ==> buf[i] == s[i] && buf[i] != NUL)
      invariant Rest(s) == Rest(s[p..]) && Filtered(re, Lines(s)) == out + Filtered(re, Lines(s[p..]))
      decreases m - p
    {
      assert buf[p..m] == s[p..];
      var q := FindNl(buf, p, m);
      if q == m {
        LinesNone(s[p..]);
        NoLines(re);
        return;
      }
      assert buf[p..q] == s[p..q] && buf[p..q + 1] == s[p..q + 1];
      var n := TryLine(re, buf, p, q);
      OneLine(re, s, p, q, n);
      assert out + (n + Filtered(re, Lines(s[q + 1..]))) == out + n + Filtered(re, Lines(s[q + 1..]));
      out := out + n;
      p := q + 1;
    }
  }

  lemma NoLines(re: string)
    ensures Filtered(re, []) == ""
  {
  }

  /** One line: cut at its newline, tried, and written if it matches. */
  method TryLine(re: string, buf: array<char>, p: nat, q: nat) returns (out: string)
    requires p <= q < buf.Length && buf[q] == '\n'
    modifies buf
    ensures out == if Matches(re, old(buf[p..q])) then old(buf[p..q + 1]) else ""
    ensures forall i :: 0 <= i < buf.Length && i != q ==> buf[i] == old(buf[i])
  {
    hide Matches;
    ghost var line := buf[p..q];
    out := "";
    buf[q] := NUL;
    assert buf[p..q] == line;
    var hit := Match(re, buf[p..q]);
    if hit {
      buf[q] := '\n';
      out := buf[p..q + 1];
    }
  }

  /** How many bytes a read with this much room returns, when the reader would
      like `want`: at least one, unless there is no room or no more input. */
  function ReadCount(room: nat, left: nat, want: nat): (n: nat)
    ensures n <= room && n <= left && (n == 0 <==> room == 0 || left == 0)
  {
    var most := if room < left then room else left;
    if 1 <= want <= most then want else most
  }

  /** One turn of the loop: the bytes just read finish some lines and begin another. */
  method Turn(re: string, buf: array<char>, m: nat, chunk: string, ghost was: string) returns (m': nat, more: string)
    requires buf.Length == BUFSIZE && m + |chunk| < BUFSIZE && NUL !in buf[..m] && NUL !in chunk && chunk != ""
    requires buf[..m] == Rest(was)
    modifies buf
    ensures m' < BUFSIZE && NUL !in buf[..m'] && buf[..m'] == Rest(was + chunk)
    ensures Filtered(re, Lines(was)) + more == Filtered(re, Lines(was + chunk))
    ensures AllShort(Lines(was)) ==> AllShort(Lines(was + chunk))
  {
    hide FirstNl, Lines, Rest, Filtered, Short, Matches;
    m' := Fill(buf, m, chunk);
    LinesJoin(was, chunk);
    LinesShort(buf[..m']);
    assert forall i :: 0 <= i < m' ==> buf[i] == buf[..m'][i] && buf[..m'][i] != NUL;
    FilteredJoin(re, Lines(was), Lines(buf[..m']));
    var p;
    p, more := TryLines(re, buf, m');
    m' := Slide(buf, p, m');
  }

  /** grep: however the reads cut the input, what is written are the matching
      lines before the first line too long for the buffer. */
  method Grep(re: string, input: string, wants: seq<nat>) returns (out: string)
    requires NUL !in input
    ensures out == Filtered(re, Short(Lines(input)))
  {
    hide FirstNl, Lines, Rest, Filtered, Short, Matches;
    var buf := new char[BUFSIZE](i => NUL);
    var m: nat, pos: nat, turn := 0, 0, 0;
    out := "";
    LinesNone("");
    NoLines(re);
    assert input[..0] == "" && buf[..0] == "";
    while true
      invariant 0 <= m < BUFSIZE && 0 <= pos <= |input| && fresh(buf) && buf.Length == BUFSIZE && NUL !in buf[..m]
      invariant buf[..m] == Rest(input[..pos]) && out == Filtered(re, Lines(input[..pos])) && AllShort(Lines(input[..pos]))
      decreases |input| - pos
    {
      var n := ReadCount(BUFSIZE - m - 1, |input| - pos, if turn < |wants| then wants[turn] else 0);
      turn := turn + 1;
      if n == 0 {
        break;
      }
      assert input[..pos + n] == input[..pos] + input[pos..pos + n];
      var more;
      m, more := Turn(re, buf, m, input[pos..pos + n], input[..pos]);
      out := out + more;
      pos := pos + n;
    }
    assert input == input[..pos] + input[pos..];
    RestNone(input[..pos]);
    LinesJoin(input[..pos], input[pos..]);
    ShortJoin(Lines(input[..pos]), Lines(Rest(input[..pos]) + input[pos..]));
    if pos == |input| {
      assert Rest(input[..pos]) + input[pos..] == Rest(input[..pos]);
      LinesNone(Rest(input[..pos]));
      NoShort();
    } else {
      TooLong(Rest(input[..pos]), input[pos..]);
    }
    assert Lines(input[..pos]) + [] == Lines(input[..pos]);
  }

  lemma NoShort()
    ensures Short([]) == []
  {
  }

  /** A full buffer without a newline begins a line that does not fit. */
  lemma TooLong(r: string, t: string)
    requires |r| == BUFSIZE - 1 && FirstNl(r) == |r|
    ensures Short(Lines(r + t)) == []
  {
    FirstNlJoin(r, t);
    if FirstNl(r + t) < |r + t| {
      LinesNext(r + t);
    } else {
      LinesNone(r + t);
    }
  }

  /** read into the buffer after the first `m` bytes, and the NUL after it. */
  method Fill(buf: array<char>, m: nat, bs: string) returns (m': nat)
    requires buf.Length == BUFSIZE && m + |bs| < BUFSIZE
    modifies buf
    ensures m' == m + |bs| && buf[..m'] == old(buf[..m]) + bs && buf[m'] == NUL
  {
    for i := 0 to |bs|
      invariant buf[..m] == old(buf[..m]) && buf[m..m + i] == bs[..i]
    {
      buf[m + i] := bs[i];
    }
    m' := m + |bs|;
    buf[m'] := NUL;
    assert buf[..m'] == buf[..m] + buf[m..m'];
  }

  /** memmove(buf, p, m - p) */
  method Slide(buf: array<char>, p: nat, m: nat) returns (m': nat)
    requires p <= m <= buf.Length
    modifies buf
    ensures m' == m - p && buf[..m'] == old(buf[p..m])
  {
    m' := m - p;
    for i := 0 to m'
      invariant buf[..i] == old(buf[p..p + i]) && buf[p + i..m] == old(buf[p + i..m])
    {
      assert buf[p + i] == buf[p + i..m][0];
      buf[i] := buf[p + i];
    }
  }

  // ---- when nothing is left out

  lemma {:induction false} ShortAll(ls: seq<string>)
    ensures Short(ls) <= ls && (AllShort(ls) ==> Short(ls) == ls)
    ensures |Short(ls)| < |ls| ==> |ls[|Short(ls)|]| >= BUFSIZE
  {
    if ls != [] && |ls[0]| < BUFSIZE {
      ShortAll(ls[1..]);
    }
  }

  /** grep writes all the matching lines exactly when none of them lies at or
      after the first line that does not fit the buffer; in particular when all
      lines fit. */
  lemma WholeFilter(re: string, input: string)
    ensures Short(Lines(input)) <= Lines(input)
    ensures Filtered(re, Short(Lines(input))) == Filtered(re, Lines(input)) <==>
            Filtered(re, Lines(input)[|Short(Lines(input))|..]) == ""
    ensures AllShort(Lines(input)) ==> Filtered(re, Short(Lines(input))) == Filtered(re, Lines(input))
  {
    var ls := Lines(input);
    ShortAll(ls);
    var k := |Short(ls)|;
    assert ls == Short(ls) + ls[k..];
    FilteredJoin(re, Short(ls), ls[k..]);
    hide Lines, Short, Filtered;
    assert Filtered(re, Short(ls)) + "" == Filtered(re, Short(ls));
  }

  lemma MatchesA()
    ensures Matches("a", "a")
  {
    assert "a"[1..] == "" && "a"[0..] == "a";
    HereOne('a', Parse(""), "a");
    HereEmpty("");
    assert MatchesHere(Parse("a"), "a"[0..]);
  }

  lemma LinesA()
    ensures Lines("a\n") == ["a\n"]
  {
    FirstNlIs("a\n", 1);
    assert First("a\n") == "a\n" && Later("a\n") == "";
    assert Lines("") == [];
  }

  /** A line of 1024 bytes before it hides the line that matches. */
  lemma LongLineHides(long: string)
    requires |long| == BUFSIZE - 1 && forall i :: 0 <= i < |long| ==> long[i] == 'b'
    ensures Filtered("a", Short(Lines(long + "\na\n"))) == "" && Filtered("a", Lines(long + "\na\n")) != ""
  {
    var input := long + "\na\n";
    FirstNlIs(long, |long|);
    TooLong(long, "\na\n");
    FirstNlIs(input, |long|);
    LinesNext(input);
    assert Later(input) == "a\n";
    LinesA();
    MatchesA();
    hide FirstNl, First, Later, Lines, Matches, Short;
    FilteredJoin("a", [First(input)], ["a\n"]);
    FilteredA();
  }

  lemma FilteredA()
    requires Matches("a", "a")
    ensures Filtered("a", ["a\n"]) == "a\n" && Filtered("a", []) == ""
  {
    hide Matches;
    assert "a\n"[..1] == "a" && ["a\n"][1..] == [];
  }
}
