/** The parser inverts the printer: a command printed with every operand in parentheses is
    parsed back to the same command. */
module ShellPrinter {
  import opened ShellGrammar

  /** The command over the words themselves instead of their places in the line. */
  function Read(s: string, c: Cmd<Span>): Cmd<string> {
    match c
    case Exec(argv) => Exec(ReadWords(s, argv))
    case Redir(d, file, out) => Redir(Read(s, d), Text(s, file), out)
    case Pipe(l, r) => Pipe(Read(s, l), Read(s, r))
    case List(l, r) => List(Read(s, l), Read(s, r))
    case Back(d) => Back(Read(s, d))
  }

  function Text(s: string, w: Span): string {
    if w.start <= w.end <= |s| then s[w.start..w.end] else ""
  }

  function ReadWords(s: string, argv: seq<Span>): (ws: seq<string>)
    ensures |ws| == |argv|
  {
    if argv == [] then [] else ReadWords(s, argv[..|argv| - 1]) + [Text(s, argv[|argv| - 1])]
  }

  /** A word the shell can take: not empty, no white space, no symbol, no NUL. */
  ghost predicate GoodWord(w: string) {
    w != "" && forall k :: 0 <= k < |w| ==> WordChar(w[k])
  }

  ghost predicate GoodWords(ws: seq<string>) {
    forall k :: 0 <= k < |ws| ==> GoodWord(ws[k])
  }

  /** Commands with good words and at most MAXARGS - 1 of them to a program. */
  ghost predicate Good(t: Cmd<string>) {
    match t
    case Exec(argv) => |argv| < MAXARGS && GoodWords(argv)
    case Redir(d, file, _) => Good(d) && GoodWord(file)
    case Pipe(l, r) => Good(l) && Good(r)
    case List(l, r) => Good(l) && Good(r)
    case Back(d) => Good(d)
  }

  function ShowWords(ws: seq<string>): string {
    if ws == [] then "" else if |ws| == 1 then ws[0] else ws[0] + " " + ShowWords(ws[1..])
  }

  function Paren(t: Cmd<string>): string
    decreases t, 1
  {
    "(" + Show(t) + ")"
  }

  function Show(t: Cmd<string>): string
    decreases t, 0
  {
    match t
    case Exec(argv) => ShowWords(argv)
    case Redir(d, file, out) => Paren(d) + (if out then ">" else "<") + file
    case Pipe(l, r) => Paren(l) + "|" + Paren(r)
    case List(l, r) => Paren(l) + ";" + Paren(r)
    case Back(d) => Paren(d) + "&"
  }

  // ---------------------------------------------------------------- texts in place

  /** Text t stands at position i of s. The verifier unfolds this, and the other predicates
      written with `Key`, only where `Key` is mentioned. */
  ghost predicate Has(s: string, i: nat, t: string) {
    forall key: int {:trigger Key(key)} :: Key(key) ==> i + |t| <= |s| && s[i..i + |t|] == t
  }

  ghost predicate Key(key: int) {
    true
  }

  lemma HasFits(s: string, i: nat, t: string)
    requires Has(s, i, t)
    ensures i + |t| <= |s| && s[i..i + |t|] == t
  {
    assert Key(0);
  }

  lemma HasParts(s: string, i: nat, a: string, b: string)
    requires Has(s, i, a + b)
    ensures Has(s, i, a) && Has(s, i + |a|, b)
  {
    HasFits(s, i, a + b);
    var t := s[i..i + |a + b|];
    assert t[..|a|] == a && t[|a|..] == b;
    assert s[i..i + |a|] == t[..|a|] && s[i + |a|..i + |a| + |b|] == t[|a|..];
  }

  lemma HasChar(s: string, i: nat, t: string, k: nat)
    requires Has(s, i, t) && k < |t|
    ensures i + k < |s| && s[i + k] == t[k]
  {
    HasFits(s, i, t);
    assert s[i..i + |t|][k] == s[i + k];
  }

  lemma HasBox(s: string, i: nat, a: string)
    requires Has(s, i, "(" + a + ")")
    ensures i + |a| + 1 < |s| && s[i] == '(' && Has(s, i + 1, a) && s[i + |a| + 1] == ')'
  {
    assert "(" + a + ")" == "(" + (a + ")");
    HasParts(s, i, "(", a + ")");
    HasParts(s, i + 1, a, ")");
    HasChar(s, i, "(", 0);
    HasChar(s, i + 1 + |a|, ")", 0);
  }

  /** A parenthesised command at i: its parentheses and, between them, its text. */
  lemma HasParen(s: string, i: nat, t: Cmd<string>)
    requires Has(s, i, Paren(t))
    ensures i + |Show(t)| + 1 < |s| && s[i] == '(' && Has(s, i + 1, Show(t)) && s[i + |Show(t)| + 1] == ')'
  {
    HasBox(s, i, Show(t));
  }

  /** A position where the printer ends a command: the end of the line or a ')'. */
  predicate Stop(s: string, j: nat) {
    j <= |s| && (j < |s| ==> s[j] == ')')
  }

  lemma StopQuiet(s: string, j: nat)
    requires Stop(s, j)
    ensures Skip(s, j) == j && Redirs(s, j) == Ok([], j)
    ensures !Peek(s, j, "|") && !Peek(s, j, "&") && !Peek(s, j, ";")
  {
  }

  /** One-character tokens are taken alone. */
  lemma SymbolToken(s: string, i: nat)
    requires i < |s| && Symbol(s[i]) && (s[i] == '>' ==> Ch(s, i + 1) != '>')
    ensures Skip(s, i) == i && GetToken(s, i) == Token(s[i], i, i + 1, Skip(s, i + 1))
  {
  }

  /** A printed command starts with no white space. */
  lemma ShowStarts(s: string, i: nat, t: Cmd<string>)
    requires Good(t) && Has(s, i, Show(t)) && Stop(s, i + |Show(t)|)
    ensures Skip(s, i) == i
  {
    match t
    case Exec(argv) =>
      if argv != [] {
        WordsStart(argv);
        HasChar(s, i, Show(t), 0);
      }
    case _ =>
      assert Show(t)[0] == '(';
      HasChar(s, i, Show(t), 0);
  }

  lemma WordsStart(ws: seq<string>)
    requires ws != [] && GoodWord(ws[0])
    ensures ShowWords(ws) != "" && WordChar(ShowWords(ws)[0])
  {
    assert ShowWords(ws)[0] == ws[0][0];
  }

  // ---------------------------------------------------------------- words

  lemma WordEndAt(s: string, i: nat, e: nat)
    requires i <= e <= |s| && (forall k :: i <= k < e ==> !White(s[k]) && !Symbol(s[k]))
    requires e < |s| ==> White(s[e]) || Symbol(s[e])
    ensures WordEnd(s, i) == e
    decreases e - i
  {
    if i < e {
      WordEndAt(s, i + 1, e);
    }
  }

  /** A good word followed by a space, a symbol or the end is one token. */
  lemma WordToken(s: string, i: nat, w: string)
    requires GoodWord(w) && Has(s, i, w) && (i + |w| < |s| ==> White(s[i + |w|]) || Symbol(s[i + |w|]))
    ensures i + |w| <= |s|
    ensures Skip(s, i) == i && GetToken(s, i) == Token('a', i, i + |w|, Skip(s, i + |w|))
    ensures Text(s, Span(i, i + |w|)) == w
    ensures !Peek(s, i, "|)&;") && !Peek(s, i, "(") && !Peek(s, i, "<>")
  {
    HasFits(s, i, w);
    forall k | i <= k < i + |w| ensures s[k] == w[k - i] && WordChar(s[k]) {
      HasChar(s, i, w, k - i);
    }
    PlainQuiet(s, i);
    WordEndAt(s, i + 1, i + |w|);
  }

  lemma ReadSnoc(s: string, argv: seq<Span>, w: Span)
    ensures ReadWords(s, argv + [w]) == ReadWords(s, argv) + [Text(s, w)]
  {
    assert (argv + [w])[..|argv|] == argv;
  }

  lemma WordsParts(s: string, i: nat, ws: seq<string>)
    requires |ws| > 1 && Has(s, i, ShowWords(ws))
    ensures |ShowWords(ws)| == |ws[0]| + 1 + |ShowWords(ws[1..])|
    ensures Has(s, i, ws[0]) && i + |ws[0]| < |s| && s[i + |ws[0]|] == ' '
    ensures Has(s, i + |ws[0]| + 1, ShowWords(ws[1..]))
  {
    HasParts(s, i, ws[0] + " ", ShowWords(ws[1..]));
    HasParts(s, i, ws[0], " ");
    HasChar(s, i + |ws[0]|, " ", 0);
  }

  /** No operator stands where a word begins. */
  lemma PlainQuiet(s: string, p: nat)
    requires p < |s| && WordChar(s[p])
    ensures Skip(s, p) == p && Redirs(s, p) == Ok([], p)
    ensures !Peek(s, p, "|)&;") && !Peek(s, p, "(") && !Peek(s, p, "<>")
  {
  }

  lemma WordsQuiet(s: string, i: nat, ws: seq<string>)
    requires ws != [] && GoodWord(ws[0]) && Has(s, i, ShowWords(ws))
    ensures i < |s| && WordChar(s[i]) && Skip(s, i) == i && Redirs(s, i) == Ok([], i) && !Peek(s, i, "(")
  {
    WordsStart(ws);
    HasChar(s, i, ShowWords(ws), 0);
    PlainQuiet(s, i);
  }

  /** Where the words after the first begin. */
  function NextWord(i: nat, ws: seq<string>): nat
    requires ws != []
  {
    i + |ws[0]| + if |ws| == 1 then 0 else 1
  }

  lemma LastWord(s: string, i: nat, ws: seq<string>)
    requires |ws| == 1 && GoodWord(ws[0]) && Has(s, i, ShowWords(ws)) && Stop(s, i + |ShowWords(ws)|)
    ensures var next := i + |ws[0]|;
      && Skip(s, i) == i && GetToken(s, i) == Token('a', i, next, next) && Text(s, Span(i, next)) == ws[0]
      && !Peek(s, i, "|)&;") && Redirs(s, next) == Ok([], next)
      && next + |ShowWords(ws[1..])| == i + |ShowWords(ws)| && Has(s, next, ShowWords(ws[1..]))
  {
    WordToken(s, i, ws[0]);
    StopQuiet(s, i + |ws[0]|);
  }

  lemma InnerWord(s: string, i: nat, ws: seq<string>)
    requires |ws| > 1 && GoodWord(ws[0]) && GoodWord(ws[1]) && Has(s, i, ShowWords(ws))
    ensures var next := i + |ws[0]| + 1;
      && i + |ws[0]| < |s| && Skip(s, i) == i && GetToken(s, i) == Token('a', i, i + |ws[0]|, next)
      && Text(s, Span(i, i + |ws[0]|)) == ws[0] && !Peek(s, i, "|)&;") && Redirs(s, next) == Ok([], next)
      && next + |ShowWords(ws[1..])| == i + |ShowWords(ws)| && Has(s, next, ShowWords(ws[1..]))
  {
    WordsParts(s, i, ws);
    WordsQuiet(s, i + |ws[0]| + 1, ws[1..]);
    SpacedToken(s, i, ws[0], i + |ws[0]| + 1);
  }

  lemma SpacedToken(s: string, i: nat, w: string, next: nat)
    requires GoodWord(w) && Has(s, i, w) && next == i + |w| + 1 <= |s| && s[i + |w|] == ' ' && Skip(s, next) == next
    ensures Skip(s, i) == i && GetToken(s, i) == Token('a', i, i + |w|, next)
    ensures Text(s, Span(i, i + |w|)) == w && !Peek(s, i, "|)&;")
  {
    WordToken(s, i, w);
  }

  /** The first printed word is a token, no redirection follows it, and the others stand
      after the space. */
  lemma ArgsWord(s: string, i: nat, ws: seq<string>, next: nat)
    requires ws != [] && GoodWords(ws) && next == NextWord(i, ws)
    requires Has(s, i, ShowWords(ws)) && Stop(s, i + |ShowWords(ws)|)
    ensures Skip(s, i) == i && GetToken(s, i) == Token('a', i, i + |ws[0]|, next)
    ensures Text(s, Span(i, i + |ws[0]|)) == ws[0] && !Peek(s, i, "|)&;")
    ensures next <= |s| && Redirs(s, next) == Ok([], next)
    ensures Has(s, next, ShowWords(ws[1..])) && next + |ShowWords(ws[1..])| == i + |ShowWords(ws)|
  {
    if |ws| == 1 {
      LastWord(s, i, ws);
    } else {
      InnerWord(s, i, ws);
    }
  }

  lemma ArgsEnd(s: string, i: nat, argv: seq<Span>)
    requires Stop(s, i)
    ensures Args(s, i, argv, []) == Ok(Exec(argv), i)
  {
  }

  /** What the loop of `parseexec` makes of the rest of the words. */
  ghost predicate ArgsGive(s: string, i: nat, argv: seq<Span>, c: Cmd<Span>, end: nat) {
    forall key: int {:trigger Key(key)} :: Key(key) ==> i <= |s| && Args(s, i, argv, []) == Ok(c, end)
  }

  lemma ArgsStep(s: string, i: nat, argv: seq<Span>, span: Span, next: nat, c: Cmd<Span>, end: nat)
    requires i <= |s| && next <= |s| && Skip(s, i) == i && !Peek(s, i, "|)&;") && |argv| + 1 < MAXARGS
    requires GetToken(s, i) == Token('a', span.start, span.end, next) && Redirs(s, next) == Ok([], next)
    requires ArgsGive(s, next, argv + [span], c, end)
    ensures ArgsGive(s, i, argv, c, end)
  {
    assert Key(0);
    var none: seq<Redirect> := [];
    assert none + none == none;
  }

  /** One turn of the loop over the printed words. */
  lemma ArgsAdvance(s: string, i: nat, ws: seq<string>, argv: seq<Span>, span: Span, next: nat, c: Cmd<Span>, end: nat)
    requires ws != [] && GoodWords(ws) && |argv| + |ws| < MAXARGS && Has(s, i, ShowWords(ws))
    requires Stop(s, end) && end == i + |ShowWords(ws)| && span == Span(i, i + |ws[0]|) && next == NextWord(i, ws)
    requires ArgsGive(s, next, argv + [span], c, end)
    ensures ArgsGive(s, i, argv, c, end)
  {
    ArgsWord(s, i, ws, next);
    ArgsStep(s, i, argv, span, next, c, end);
  }

  /** The words after the first, where they stand. */
  lemma ArgsRest(s: string, i: nat, ws: seq<string>, argv: seq<Span>, span: Span, next: nat, end: nat)
    requires ws != [] && GoodWords(ws) && Has(s, i, ShowWords(ws))
    requires Stop(s, end) && end == i + |ShowWords(ws)| && span == Span(i, i + |ws[0]|) && next == NextWord(i, ws)
    ensures GoodWords(ws[1..]) && Has(s, next, ShowWords(ws[1..])) && end == next + |ShowWords(ws[1..])|
    ensures ReadWords(s, argv + [span]) + ws[1..] == ReadWords(s, argv) + ws
  {
    ArgsWord(s, i, ws, next);
    ReadSnoc(s, argv, span);
    Regroup(ReadWords(s, argv), ws);
  }

  lemma Regroup(a: seq<string>, ws: seq<string>)
    requires ws != []
    ensures a + [ws[0]] + ws[1..] == a + ws
  {
  }

  /** The words printed from i on are added to those already read. */
  lemma {:induction false} ArgsShow(s: string, i: nat, ws: seq<string>, argv: seq<Span>, end: nat)
    returns (all: seq<Span>)
    requires GoodWords(ws) && |argv| + |ws| < MAXARGS
    requires Has(s, i, ShowWords(ws)) && Stop(s, end) && end == i + |ShowWords(ws)|
    ensures ArgsGive(s, i, argv, Exec(all), end) && ReadWords(s, all) == ReadWords(s, argv) + ws
    decreases |ws|
  {
    if ws == [] {
      all := argv;
      ArgsEnd(s, i, argv);
    } else {
      var span, next := Span(i, i + |ws[0]|), NextWord(i, ws);
      ArgsRest(s, i, ws, argv, span, next, end);
      all := ArgsShow(s, next, ws[1..], argv + [span], end);
      ArgsAdvance(s, i, ws, argv, span, next, Exec(all), end);
    }
  }

  // ---------------------------------------------------------------- parentheses

  /** After a closing parenthesis the printer puts the end, or one of these. */
  predicate Joint(s: string, p: nat) {
    p <= |s| && (p < |s| ==> s[p] == '|' || s[p] == '&' || s[p] == ';' || s[p] == ')')
  }

  lemma JointQuiet(s: string, p: nat)
    requires Joint(s, p)
    ensures Skip(s, p) == p && Redirs(s, p) == Ok([], p)
    ensures Peek(s, p, "|") <==> p < |s| && s[p] == '|'
    ensures Peek(s, p, "&") <==> p < |s| && s[p] == '&'
    ensures Peek(s, p, ";") <==> p < |s| && s[p] == ';'
  {
  }

  // What each parsing function does when the pieces it meets are known.

  /** Each parser's result. */
  ghost predicate Execs(s: string, i: nat, c: Cmd<Span>, end: nat) {
    forall key: int {:trigger Key(key)} :: Key(key) ==> i <= |s| && ParseExec(s, i) == Ok(c, end)
  }

  ghost predicate Pipes(s: string, i: nat, c: Cmd<Span>, end: nat) {
    forall key: int {:trigger Key(key)} :: Key(key) ==> i <= |s| && ParsePipe(s, i) == Ok(c, end)
  }

  ghost predicate Lines(s: string, i: nat, c: Cmd<Span>, end: nat) {
    forall key: int {:trigger Key(key)} :: Key(key) ==> i <= |s| && ParseLine(s, i) == Ok(c, end)
  }

  lemma BlockStep(s: string, i: nat, c: Cmd<Span>, q: nat, rs: seq<Redirect>, end: nat)
    requires i < q < |s| && s[i] == '(' && s[q] == ')' && Skip(s, i + 1) == i + 1 && Skip(s, q + 1) == q + 1
    requires Lines(s, i + 1, c, q) && Redirs(s, q + 1) == Ok(rs, end)
    ensures Execs(s, i, Wrap(c, rs), end)
  {
    assert Key(0);
    SymbolToken(s, i);
    SymbolToken(s, q);
    assert Peek(s, i, "(") && Peek(s, q, ")");
    assert ParseBlock(s, i) == Ok(Wrap(c, rs), end);
  }

  lemma BoxStep(s: string, i: nat, c: Cmd<Span>, q: nat, p: nat, rs: seq<Redirect>, end: nat)
    requires i < q < p == q + 1 <= |s| && s[i] == '(' && s[q] == ')' && Skip(s, i + 1) == i + 1
    requires Lines(s, i + 1, c, q) && Skip(s, p) == p && Redirs(s, p) == Ok(rs, end)
    ensures Execs(s, i, Wrap(c, rs), end)
  {
    BlockStep(s, i, c, q, rs, end);
  }

  lemma ExecStep(s: string, i: nat, c: Cmd<Span>, end: nat)
    requires i <= |s| && Skip(s, i) == i && !Peek(s, i, "(") && Redirs(s, i) == Ok([], i) && ArgsGive(s, i, [], c, end)
    ensures Execs(s, i, c, end)
  {
    assert Key(0);
  }

  lemma RedirStep(s: string, p: nat, out: bool, end: nat)
    requires p + 1 < end <= |s| && s[p] == (if out then '>' else '<') && Skip(s, p + 1) == p + 1 && s[p + 1] != '>'
    requires GetToken(s, p + 1) == Token('a', p + 1, end, end) && Redirs(s, end) == Ok([], end)
    ensures Skip(s, p) == p && Redirs(s, p) == Ok([Redirect(Span(p + 1, end), out)], end)
  {
    SymbolToken(s, p);
    assert Peek(s, p, "<>");
    var r := Redirect(Span(p + 1, end), out);
    assert [r] + [] == [r];
  }

  lemma PipeStep(s: string, i: nat, c: Cmd<Span>, p: nat, d: Cmd<Span>, end: nat)
    requires i <= p < |s| && s[p] == '|' && Skip(s, p + 1) == p + 1
    requires Execs(s, i, c, p) && Pipes(s, p + 1, d, end)
    ensures Pipes(s, i, Pipe(c, d), end)
  {
    assert Key(0);
    SymbolToken(s, p);
    JointQuiet(s, p);
  }

  lemma PipeAlone(s: string, i: nat, c: Cmd<Span>, p: nat)
    requires i <= |s| && Execs(s, i, c, p) && Joint(s, p) && (p < |s| ==> s[p] != '|')
    ensures Pipes(s, i, c, p)
  {
    assert Key(0);
    JointQuiet(s, p);
  }

  lemma ListStep(s: string, i: nat, c: Cmd<Span>, p: nat, d: Cmd<Span>, end: nat)
    requires i <= p < |s| && s[p] == ';' && Skip(s, p + 1) == p + 1
    requires Pipes(s, i, c, p) && Lines(s, p + 1, d, end)
    ensures Lines(s, i, List(c, d), end)
  {
    assert Key(0);
    SymbolToken(s, p);
    JointQuiet(s, p);
    assert Backs(s, p, c) == (c, p);
  }

  lemma BackStep(s: string, i: nat, c: Cmd<Span>, p: nat)
    requires i <= p < |s| && s[p] == '&' && Stop(s, p + 1) && Pipes(s, i, c, p)
    ensures Lines(s, i, Back(c), p + 1)
  {
    assert Key(0);
    SymbolToken(s, p);
    JointQuiet(s, p);
    JointQuiet(s, p + 1);
    assert Backs(s, p + 1, Back(c)) == (Back(c), p + 1);
    assert Backs(s, p, c) == (Back(c), p + 1);
  }

  lemma LineAlone(s: string, i: nat, c: Cmd<Span>, p: nat)
    requires i <= |s| && Pipes(s, i, c, p) && Stop(s, p)
    ensures Lines(s, i, c, p)
  {
    assert Key(0);
    JointQuiet(s, p);
    assert Backs(s, p, c) == (c, p);
  }

  // ---------------------------------------------------------------- the printed command

  /** Between i and p stands a command c in parentheses. */
  ghost predicate Boxed(s: string, i: nat, p: nat, c: Cmd<Span>) {
    i + 1 < p <= |s| && s[i] == '(' && s[p - 1] == ')' && Skip(s, i + 1) == i + 1 && Lines(s, i + 1, c, p - 1)
  }

  lemma BoxAlone(s: string, i: nat, p: nat, c: Cmd<Span>)
    requires Boxed(s, i, p, c) && Joint(s, p)
    ensures Execs(s, i, c, p) && Skip(s, i) == i
  {
    SymbolToken(s, i);
    JointQuiet(s, p);
    BoxStep(s, i, c, p - 1, p, [], p);
  }

  lemma BoxLine(s: string, i: nat, p: nat, c: Cmd<Span>)
    requires Boxed(s, i, p, c) && Stop(s, p)
    ensures Skip(s, i) == i && Pipes(s, i, c, p) && Lines(s, i, c, p)
  {
    BoxAlone(s, i, p, c);
    PipeAlone(s, i, c, p);
    LineAlone(s, i, c, p);
  }

  lemma PipeBoxes(s: string, i: nat, p: nat, m: nat, end: nat, c: Cmd<Span>, d: Cmd<Span>)
    requires Boxed(s, i, p, c) && p < |s| && s[p] == '|' && m == p + 1 && Boxed(s, m, end, d) && Stop(s, end)
    ensures Lines(s, i, Pipe(c, d), end)
  {
    BoxAlone(s, i, p, c);
    BoxLine(s, m, end, d);
    PipeStep(s, i, c, p, d, end);
    LineAlone(s, i, Pipe(c, d), end);
  }

  lemma ListBoxes(s: string, i: nat, p: nat, m: nat, end: nat, c: Cmd<Span>, d: Cmd<Span>)
    requires Boxed(s, i, p, c) && p < |s| && s[p] == ';' && m == p + 1 && Boxed(s, m, end, d) && Stop(s, end)
    ensures Lines(s, i, List(c, d), end)
  {
    BoxAlone(s, i, p, c);
    PipeAlone(s, i, c, p);
    BoxLine(s, m, end, d);
    ListStep(s, i, c, p, d, end);
  }

  lemma BackBox(s: string, i: nat, p: nat, c: Cmd<Span>)
    requires Boxed(s, i, p, c) && p < |s| && s[p] == '&' && Stop(s, p + 1)
    ensures Lines(s, i, Back(c), p + 1)
  {
    BoxAlone(s, i, p, c);
    PipeAlone(s, i, c, p);
    BackStep(s, i, c, p);
  }

  lemma RedirFile(s: string, p: nat, file: string, out: bool, end: nat)
    requires p < |s| && s[p] == (if out then '>' else '<') && end == p + 1 + |file|
    requires GoodWord(file) && Has(s, p + 1, file) && Stop(s, end)
    ensures Skip(s, p) == p && Redirs(s, p) == Ok([Redirect(Span(p + 1, end), out)], end)
    ensures Text(s, Span(p + 1, end)) == file
  {
    HasChar(s, p + 1, file, 0);
    WordToken(s, p + 1, file);
    StopQuiet(s, end);
    FileStep(s, p, out, end);
  }

  lemma FileStep(s: string, p: nat, out: bool, end: nat)
    requires p + 1 < end <= |s| && s[p] == (if out then '>' else '<') && WordChar(s[p + 1])
    requires GetToken(s, p + 1) == Token('a', p + 1, end, Skip(s, end)) && Skip(s, end) == end
      && Redirs(s, end) == Ok([], end)
    ensures Skip(s, p) == p && Redirs(s, p) == Ok([Redirect(Span(p + 1, end), out)], end)
  {
    PlainQuiet(s, p + 1);
    RedirStep(s, p, out, end);
  }

  lemma RedirBox(s: string, i: nat, p: nat, c: Cmd<Span>, file: string, out: bool, end: nat)
    requires Boxed(s, i, p, c) && p < |s| && s[p] == (if out then '>' else '<') && end == p + 1 + |file|
    requires GoodWord(file) && Has(s, p + 1, file) && Stop(s, end)
    ensures Lines(s, i, Redir(c, Span(p + 1, end), out), end) && Text(s, Span(p + 1, end)) == file
  {
    RedirFile(s, p, file, out, end);
    RedirLine(s, i, p, c, Redirect(Span(p + 1, end), out), end);
  }

  lemma RedirLine(s: string, i: nat, p: nat, c: Cmd<Span>, r: Redirect, end: nat)
    requires Boxed(s, i, p, c) && Skip(s, p) == p && Redirs(s, p) == Ok([r], end) && Stop(s, end)
    ensures Lines(s, i, Redir(c, r.file, r.out), end)
  {
    RedirExec(s, i, p, c, r, end);
    ExecAlone(s, i, Redir(c, r.file, r.out), end);
  }

  lemma RedirExec(s: string, i: nat, p: nat, c: Cmd<Span>, r: Redirect, end: nat)
    requires Boxed(s, i, p, c) && Skip(s, p) == p && Redirs(s, p) == Ok([r], end)
    ensures Execs(s, i, Redir(c, r.file, r.out), end)
  {
    WrapOne(c, r);
    BoxStep(s, i, c, p - 1, p, [r], end);
  }

  lemma WrapOne(c: Cmd<Span>, r: Redirect)
    ensures Wrap(c, [r]) == Redir(c, r.file, r.out)
  {
    assert Wrap(Redir(c, r.file, r.out), []) == Wrap(c, [r]);
  }

  lemma ExecLine(s: string, i: nat, argv: seq<string>, end: nat) returns (c: Cmd<Span>)
    requires GoodWords(argv) && |argv| < MAXARGS && Has(s, i, ShowWords(argv)) && Stop(s, end)
      && end == i + |ShowWords(argv)|
    ensures Lines(s, i, c, end) && Read(s, c) == Exec(argv)
  {
    ExecQuiet(s, i, argv);
    var all := ArgsShow(s, i, argv, [], end);
    c := Exec(all);
    assert ReadWords(s, []) + argv == argv;
    ExecStep(s, i, c, end);
    ExecAlone(s, i, c, end);
  }

  lemma ExecAlone(s: string, i: nat, c: Cmd<Span>, end: nat)
    requires i <= |s| && Execs(s, i, c, end) && Stop(s, end)
    ensures Lines(s, i, c, end)
  {
    PipeAlone(s, i, c, end);
    LineAlone(s, i, c, end);
  }

  lemma ExecQuiet(s: string, i: nat, argv: seq<string>)
    requires GoodWords(argv) && Has(s, i, ShowWords(argv)) && Stop(s, i + |ShowWords(argv)|)
    ensures i <= |s| && Skip(s, i) == i && !Peek(s, i, "(") && Redirs(s, i) == Ok([], i)
  {
    if argv == [] {
      StopQuiet(s, i);
    } else {
      WordsQuiet(s, i, argv);
    }
  }

  /** Two parenthesised commands with one symbol between them. */
  lemma TwoParts(s: string, i: nat, p: nat, m: nat, l: string, op: string, r: string)
    requires |op| == 1 && Has(s, i, l + op + r) && p == i + |l| && m == p + 1
    ensures Has(s, i, l) && p < |s| && s[p] == op[0] && Has(s, m, r)
  {
    HasParts(s, i, l + op, r);
    HasParts(s, i, l, op);
    HasChar(s, i + |l|, op, 0);
  }

  /** a is the good command t in parentheses. */
  ghost predicate Prints(t: Cmd<string>, a: string) {
    forall key: int {:trigger Key(key)} :: Key(key) ==> Good(t) && a == Paren(t)
  }

  /** A printed command is parsed back to itself, wherever it stands. */
  lemma {:induction false} LineShow(s: string, i: nat, t: Cmd<string>) returns (c: Cmd<Span>)
    requires Good(t) && Has(s, i, Show(t)) && Stop(s, i + |Show(t)|)
    ensures Lines(s, i, c, i + |Show(t)|) && Read(s, c) == t
    decreases t, 1
  {
    match t
    case Exec(argv) =>
      c := ExecLine(s, i, argv, i + |ShowWords(argv)|);
    case Redir(d, file, out) =>
      c := RedirShow(s, i, d, if out then ">" else "<", file, out, Paren(d));
    case Back(d) =>
      c := BackShow(s, i, d, Paren(d));
    case Pipe(l, r) =>
      c := PipeShow(s, i, l, r, Paren(l), Paren(r));
    case List(l, r) =>
      c := ListShow(s, i, l, r, Paren(l), Paren(r));
  }

  lemma RedirShow(s: string, i: nat, d: Cmd<string>, op: string, file: string, out: bool, a: string)
    returns (c: Cmd<Span>)
    requires Prints(d, a) && GoodWord(file) && Has(s, i, a + op + file) && Stop(s, i + |a| + 1 + |file|)
    requires |op| == 1 && op[0] == if out then '>' else '<'
    ensures Lines(s, i, c, i + |a| + 1 + |file|) && Read(s, c) == Redir(d, file, out)
    decreases d, 3
  {
    var p, end := i + |a|, i + |a| + 1 + |file|;
    TwoParts(s, i, p, p + 1, a, op, file);
    var inner := ParenShow(s, i, p, d, a);
    RedirBox(s, i, p, inner, file, out, end);
    c := Redir(inner, Span(p + 1, end), out);
  }

  lemma BackShow(s: string, i: nat, d: Cmd<string>, a: string) returns (c: Cmd<Span>)
    requires Prints(d, a) && Has(s, i, a + "&") && Stop(s, i + |a| + 1)
    ensures Lines(s, i, c, i + |a| + 1) && Read(s, c) == Back(d)
    decreases d, 3
  {
    var p := i + |a|;
    HasParts(s, i, a, "&");
    HasChar(s, p, "&", 0);
    var inner := ParenShow(s, i, p, d, a);
    BackBox(s, i, p, inner);
    c := Back(inner);
  }

  lemma PipeShow(s: string, i: nat, l: Cmd<string>, r: Cmd<string>, a: string, b: string) returns (c: Cmd<Span>)
    requires Prints(l, a) && Prints(r, b) && Has(s, i, a + "|" + b) && Stop(s, i + |a| + 1 + |b|)
    ensures Lines(s, i, c, i + |a| + 1 + |b|) && Read(s, c) == Pipe(l, r)
    decreases Pipe(l, r), 0
  {
    var p, m, end := i + |a|, i + |a| + 1, i + |a| + 1 + |b|;
    TwoParts(s, i, p, m, a, "|", b);
    var left := ParenShow(s, i, p, l, a);
    var right := ParenShow(s, m, end, r, b);
    PipeBoxes(s, i, p, m, end, left, right);
    c := Pipe(left, right);
  }

  lemma ListShow(s: string, i: nat, l: Cmd<string>, r: Cmd<string>, a: string, b: string) returns (c: Cmd<Span>)
    requires Prints(l, a) && Prints(r, b) && Has(s, i, a + ";" + b) && Stop(s, i + |a| + 1 + |b|)
    ensures Lines(s, i, c, i + |a| + 1 + |b|) && Read(s, c) == List(l, r)
    decreases List(l, r), 0
  {
    var p, m, end := i + |a|, i + |a| + 1, i + |a| + 1 + |b|;
    TwoParts(s, i, p, m, a, ";", b);
    var left := ParenShow(s, i, p, l, a);
    var right := ParenShow(s, m, end, r, b);
    ListBoxes(s, i, p, m, end, left, right);
    c := List(left, right);
  }

  lemma ParenShow(s: string, i: nat, p: nat, t: Cmd<string>, a: string) returns (c: Cmd<Span>)
    requires Prints(t, a) && Has(s, i, a) && p == i + |a|
    ensures Boxed(s, i, p, c) && Read(s, c) == t
    decreases t, 2
  {
    assert Key(0);
    HasParen(s, i, t);
    ShowStarts(s, i + 1, t);
    c := LineShow(s, i + 1, t);
  }

  /** The parser inverts the printer, and leaves nothing of the line over. */
  lemma ParsePrint(t: Cmd<string>)
    requires Good(t)
    ensures ParseCmd(Show(t)).Ok? && Read(Show(t), ParseCmd(Show(t)).value) == t
  {
    var s := Show(t);
    assert s[0..|s|] == s;
    var c := LineShow(s, 0, t);
    assert Key(0);
  }

  // ---------------------------------------------------------------- any accepted line

  /** A C string has no NUL but the one at its end. */
  predicate CString(s: string) {
    forall k :: 0 <= k < |s| ==> s[k] != '\0'
  }

  lemma WholeGood(s: string, w: Span)
    requires CString(s) && WholeWord(s, w)
    ensures GoodWord(Text(s, w))
  {
    forall k | 0 <= k < |Text(s, w)| ensures WordChar(Text(s, w)[k]) {
      assert Text(s, w)[k] == s[w.start + k];
    }
  }

  lemma {:induction false} WordsGood(s: string, argv: seq<Span>)
    requires CString(s) && forall k :: 0 <= k < |argv| ==> WholeWord(s, argv[k])
    ensures GoodWords(ReadWords(s, argv))
  {
    if argv != [] {
      var n := |argv| - 1;
      WordsGood(s, argv[..n]);
      WholeGood(s, argv[n]);
    }
  }

  lemma {:induction false} TreeGood(s: string, c: Cmd<Span>)
    requires CString(s) && WholeWords(s, c)
    ensures Good(Read(s, c))
  {
    match c
    case Exec(argv) => WordsGood(s, argv);
    case Redir(d, file, _) =>
      TreeGood(s, d);
      WholeGood(s, file);
    case Pipe(l, r) =>
      TreeGood(s, l);
      TreeGood(s, r);
    case List(l, r) =>
      TreeGood(s, l);
      TreeGood(s, r);
    case Back(d) => TreeGood(s, d);
  }

  /** What the parser makes of any line can be printed and is read back as itself. */
  lemma Reparse(s: string)
    requires CString(s) && ParseCmd(s).Ok?
    ensures var t := Read(s, ParseCmd(s).value);
      Good(t) && ParseCmd(Show(t)).Ok? && Read(Show(t), ParseCmd(Show(t)).value) == t
  {
    LineWhole(s, 0);
    TreeGood(s, ParseCmd(s).value);
    ParsePrint(Read(s, ParseCmd(s).value));
  }
}
