/** What the shell's parser computes, as functions of the command line and a position in
    it: tokens, the recursive descent, and the tree of spans it builds. A C string is the
    sequence of its characters; its terminating NUL stands at the end. */
module ShellGrammar {

  /** Where a word stands in the line: from `start` up to `end`. */
  datatype Span = Span(start: nat, end: nat)

  /** A command over words W. `out` tells `>` and `>>`, which the parser does not keep
      apart, from `<`. */
  datatype Cmd<W> =
    | Exec(argv: seq<W>)
    | Redir(cmd: Cmd<W>, file: W, out: bool)
    | Pipe(left: Cmd<W>, right: Cmd<W>)
    | List(left: Cmd<W>, right: Cmd<W>)
    | Back(cmd: Cmd<W>)

  datatype Redirect = Redirect(file: Span, out: bool)

  /** The parser's result and the new position, or the message of its panic. */
  datatype Parse<T> = Ok(value: T, pos: nat) | Err(message: string)

  const MAXARGS: nat := 10

  // ---------------------------------------------------------------- characters and tokens

  predicate White(c: char) {
    c == ' ' || c == '\t' || c == '\r' || c == '\n' || c == '\U{000B}'
  }

  predicate Symbol(c: char) {
    c == '<' || c == '|' || c == '>' || c == '&' || c == ';' || c == '(' || c == ')'
  }

  const WHITESPACE: string := " \t\r\n\U{000B}"
  const SYMBOLS: string := "<|>&;()"

  /** White space and symbols are the characters of the shell's two tables. */
  lemma Characters(c: char)
    ensures White(c) <==> c in WHITESPACE
    ensures Symbol(c) <==> c in SYMBOLS
  {
    assert WHITESPACE == [' ', '\t', '\r', '\n', '\U{000B}'];
    assert SYMBOLS == ['<', '|', '>', '&', ';', '(', ')'];
  }

  predicate WordChar(c: char) {
    !White(c) && !Symbol(c) && c != '\0'
  }

  function Ch(s: string, i: nat): char {
    if i < |s| then s[i] else '\0'
  }

  function Skip(s: string, i: nat): (j: nat)
    requires i <= |s|
    ensures i <= j <= |s| && (j < |s| ==> !White(s[j])) && forall k :: i <= k < j ==> White(s[k])
    decreases |s| - i
  {
    if i < |s| && White(s[i]) then Skip(s, i + 1) else i
  }

  /** The end of the run of characters that are neither white nor symbols. */
  function WordEnd(s: string, i: nat): (j: nat)
    requires i <= |s|
    ensures i <= j <= |s| && forall k :: i <= k < j ==> !White(s[k]) && !Symbol(s[k])
    ensures j < |s| ==> White(s[j]) || Symbol(s[j])
    decreases |s| - i
  {
    if i < |s| && !White(s[i]) && !Symbol(s[i]) then WordEnd(s, i + 1) else i
  }

  datatype Token = Token(kind: char, start: nat, end: nat, next: nat)

  /** `gettoken`: kind is 0 at the end, '+' for `>>`, 'a' for a word. */
  function GetToken(s: string, i: nat): (t: Token)
    requires i <= |s|
    ensures i <= t.start <= t.end <= t.next <= |s| && (t.kind != '\0' ==> i < t.next)
  {
    var q := Skip(s, i);
    var c := Ch(s, q);
    if c == '\0' then Token('\0', q, q, Skip(s, q))
    else if c == '>' && Ch(s, q + 1) == '>' then Token('+', q, q + 2, Skip(s, q + 2))
    else if Symbol(c) then Token(c, q, q + 1, Skip(s, q + 1))
    else
      var e := WordEnd(s, q + 1);
      Token('a', q, e, Skip(s, e))
  }

  /** `peek`: whether the next character after white space is one of toks. */
  predicate Peek(s: string, i: nat, toks: string)
    requires i <= |s|
  {
    Ch(s, Skip(s, i)) != '\0' && Ch(s, Skip(s, i)) in toks
  }

  // ---------------------------------------------------------------- the descent

  /** `parseredirs`, as the list of redirections in front. */
  function Redirs(s: string, i: nat): (r: Parse<seq<Redirect>>)
    requires i <= |s|
    ensures r.Ok? ==> i <= r.pos <= |s|
    decreases |s| - i
  {
    if !Peek(s, i, "<>") then Ok([], Skip(s, i))
    else
      var t := GetToken(s, Skip(s, i));
      var f := GetToken(s, t.next);
      if f.kind != 'a' then Err("missing file for redirection")
      else match Redirs(s, f.next)
        case Err(m) => Err(m)
        case Ok(rest, pos) => Ok([Redirect(Span(f.start, f.end), t.kind != '<')] + rest, pos)
  }

  /** The redirections wrap the command, the first one innermost. */
  function Wrap(c: Cmd<Span>, rs: seq<Redirect>): Cmd<Span>
    decreases |rs|
  {
    if rs == [] then c else Wrap(Redir(c, rs[0].file, rs[0].out), rs[1..])
  }

  /** The loop of `parseexec`: words so far and redirections so far, the latter wrapping
      the very node whose words are still being added. */
  function Args(s: string, i: nat, argv: seq<Span>, rs: seq<Redirect>): (r: Parse<Cmd<Span>>)
    requires i <= |s|
    ensures r.Ok? ==> i <= r.pos <= |s|
    decreases |s| - i
  {
    if Peek(s, i, "|)&;") then Ok(Wrap(Exec(argv), rs), Skip(s, i))
    else
      var t := GetToken(s, Skip(s, i));
      if t.kind == '\0' then Ok(Wrap(Exec(argv), rs), t.next)
      else if t.kind != 'a' then Err("syntax")
      else if |argv| + 1 >= MAXARGS then Err("too many args")
      else match Redirs(s, t.next)
        case Err(m) => Err(m)
        case Ok(more, pos) => Args(s, pos, argv + [Span(t.start, t.end)], rs + more)
  }

  function ParseExec(s: string, i: nat): (r: Parse<Cmd<Span>>)
    requires i <= |s|
    ensures r.Ok? ==> i <= r.pos <= |s|
    decreases |s| - i, 1
  {
    if Peek(s, i, "(") then ParseBlock(s, Skip(s, i))
    else match Redirs(s, Skip(s, i))
      case Err(m) => Err(m)
      case Ok(rs, pos) => Args(s, pos, [], rs)
  }

  function ParseBlock(s: string, i: nat): (r: Parse<Cmd<Span>>)
    requires i <= |s|
    ensures r.Ok? ==> i <= r.pos <= |s|
    decreases |s| - i, 0
  {
    if !Peek(s, i, "(") then Err("parseblock")
    else match ParseLine(s, GetToken(s, Skip(s, i)).next)
      case Err(m) => Err(m)
      case Ok(c, pos) =>
        if !Peek(s, pos, ")") then Err("syntax - missing )")
        else match Redirs(s, GetToken(s, Skip(s, pos)).next)
          case Err(m) => Err(m)
          case Ok(rs, end) => Ok(Wrap(c, rs), end)
  }

  function ParsePipe(s: string, i: nat): (r: Parse<Cmd<Span>>)
    requires i <= |s|
    ensures r.Ok? ==> i <= r.pos <= |s|
    decreases |s| - i, 2
  {
    match ParseExec(s, i)
    case Err(m) => Err(m)
    case Ok(c, pos) =>
      if !Peek(s, pos, "|") then Ok(c, Skip(s, pos))
      else match ParsePipe(s, GetToken(s, Skip(s, pos)).next)
        case Err(m) => Err(m)
        case Ok(d, end) => Ok(Pipe(c, d), end)
  }

  /** The loop of `parseline` over '&'. */
  function Backs(s: string, i: nat, c: Cmd<Span>): (r: (Cmd<Span>, nat))
    requires i <= |s|
    ensures i <= r.1 <= |s|
    decreases |s| - i
  {
    if Peek(s, i, "&") then Backs(s, GetToken(s, Skip(s, i)).next, Back(c)) else (c, Skip(s, i))
  }

  function ParseLine(s: string, i: nat): (r: Parse<Cmd<Span>>)
    requires i <= |s|
    ensures r.Ok? ==> i <= r.pos <= |s|
    decreases |s| - i, 3
  {
    match ParsePipe(s, i)
    case Err(m) => Err(m)
    case Ok(p, pos) =>
      var (c, k) := Backs(s, pos, p);
      if !Peek(s, k, ";") then Ok(c, Skip(s, k))
      else match ParseLine(s, GetToken(s, Skip(s, k)).next)
        case Err(m) => Err(m)
        case Ok(d, end) => Ok(List(c, d), end)
  }

  /** `parsecmd` before it terminates the words. */
  function ParseCmd(s: string): (r: Parse<Cmd<Span>>)
    ensures r.Ok? ==> r.pos == |s|
  {
    match ParseLine(s, 0)
    case Err(m) => Err(m)
    case Ok(c, pos) => if Skip(s, pos) != |s| then Err("syntax") else Ok(c, |s|)
  }

  // ---------------------------------------------------------------- where words end

  /** The span is one whole word: no white space or symbol in it, and one, or the end of
      the line, right after it. */
  ghost predicate WholeWord(s: string, w: Span) {
    && w.start < w.end <= |s|
    && (forall k :: w.start <= k < w.end ==> !White(s[k]) && !Symbol(s[k]))
    && (w.end < |s| ==> White(s[w.end]) || Symbol(s[w.end]))
  }

  /** Every word of the tree is whole, and no program has MAXARGS of them. */
  ghost predicate WholeWords(s: string, c: Cmd<Span>) {
    match c
    case Exec(argv) => |argv| < MAXARGS && forall i :: 0 <= i < |argv| ==> WholeWord(s, argv[i])
    case Redir(d, file, _) => WholeWords(s, d) && WholeWord(s, file)
    case Pipe(l, r) => WholeWords(s, l) && WholeWords(s, r)
    case List(l, r) => WholeWords(s, l) && WholeWords(s, r)
    case Back(d) => WholeWords(s, d)
  }

  ghost predicate WholeFiles(s: string, rs: seq<Redirect>) {
    forall i :: 0 <= i < |rs| ==> WholeWord(s, rs[i].file)
  }

  lemma TokenWhole(s: string, i: nat)
    requires i <= |s| && GetToken(s, i).kind == 'a'
    ensures WholeWord(s, Span(GetToken(s, i).start, GetToken(s, i).end))
  {
  }

  lemma {:induction false} RedirsWhole(s: string, i: nat)
    requires i <= |s| && Redirs(s, i).Ok?
    ensures WholeFiles(s, Redirs(s, i).value)
    decreases |s| - i
  {
    if Peek(s, i, "<>") {
      var t := GetToken(s, Skip(s, i));
      TokenWhole(s, t.next);
      RedirsWhole(s, GetToken(s, t.next).next);
    }
  }

  lemma {:induction false} WrapWhole(s: string, c: Cmd<Span>, rs: seq<Redirect>)
    requires WholeWords(s, c) && WholeFiles(s, rs)
    ensures WholeWords(s, Wrap(c, rs))
    decreases |rs|
  {
    if rs != [] {
      WrapWhole(s, Redir(c, rs[0].file, rs[0].out), rs[1..]);
    }
  }

  lemma {:induction false} ArgsWhole(s: string, i: nat, argv: seq<Span>, rs: seq<Redirect>)
    requires i <= |s| && WholeWords(s, Exec(argv)) && WholeFiles(s, rs) && Args(s, i, argv, rs).Ok?
    ensures WholeWords(s, Args(s, i, argv, rs).value)
    decreases |s| - i
  {
    var t := GetToken(s, Skip(s, i));
    if Peek(s, i, "|)&;") || t.kind == '\0' {
      WrapWhole(s, Exec(argv), rs);
    } else {
      TokenWhole(s, Skip(s, i));
      RedirsWhole(s, t.next);
      var more := Redirs(s, t.next);
      ArgsWhole(s, more.pos, argv + [Span(t.start, t.end)], rs + more.value);
    }
  }

  lemma {:induction false} ExecWhole(s: string, i: nat)
    requires i <= |s| && ParseExec(s, i).Ok?
    ensures WholeWords(s, ParseExec(s, i).value)
    decreases |s| - i, 1
  {
    if Peek(s, i, "(") {
      BlockWhole(s, Skip(s, i));
    } else {
      RedirsWhole(s, Skip(s, i));
      ArgsWhole(s, Redirs(s, Skip(s, i)).pos, [], Redirs(s, Skip(s, i)).value);
    }
  }

  lemma {:induction false} BlockWhole(s: string, i: nat)
    requires i <= |s| && ParseBlock(s, i).Ok?
    ensures WholeWords(s, ParseBlock(s, i).value)
    decreases |s| - i, 0
  {
    var j := GetToken(s, Skip(s, i)).next;
    LineWhole(s, j);
    var c := ParseLine(s, j);
    var k := GetToken(s, Skip(s, c.pos)).next;
    RedirsWhole(s, k);
    WrapWhole(s, c.value, Redirs(s, k).value);
  }

  lemma {:induction false} PipeWhole(s: string, i: nat)
    requires i <= |s| && ParsePipe(s, i).Ok?
    ensures WholeWords(s, ParsePipe(s, i).value)
    decreases |s| - i, 2
  {
    ExecWhole(s, i);
    var pos := ParseExec(s, i).pos;
    if Peek(s, pos, "|") {
      PipeWhole(s, GetToken(s, Skip(s, pos)).next);
    }
  }

  lemma {:induction false} BacksWhole(s: string, i: nat, c: Cmd<Span>)
    requires i <= |s| && WholeWords(s, c)
    ensures WholeWords(s, Backs(s, i, c).0)
    decreases |s| - i
  {
    if Peek(s, i, "&") {
      BacksWhole(s, GetToken(s, Skip(s, i)).next, Back(c));
    }
  }

  /** Every word in the tree the parser builds is a whole word of the line, and a program has
      fewer than MAXARGS. */
  lemma {:induction false} LineWhole(s: string, i: nat)
    requires i <= |s| && ParseLine(s, i).Ok?
    ensures WholeWords(s, ParseLine(s, i).value)
    decreases |s| - i, 3
  {
    PipeWhole(s, i);
    var p := ParsePipe(s, i);
    BacksWhole(s, p.pos, p.value);
    var k := Backs(s, p.pos, p.value).1;
    if Peek(s, k, ";") {
      LineWhole(s, GetToken(s, Skip(s, k)).next);
    }
  }
}
