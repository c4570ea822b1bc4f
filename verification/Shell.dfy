/** The shell's parser as it runs: a cursor moved along the line, loops that take tokens,
    and NULs written over the ends of the words. Each method computes the function of
    module ShellGrammar with the same name. */
module Shell {
  import G = ShellGrammar
  import opened ShellGrammar
  import opened ShellPrinter

  datatype Result<T> = Done(value: T) | Panic(message: string)

  /** The result and the new cursor are those of the function. */
  predicate Agrees<T(==)>(f: Parse<T>, r: Result<T>, ps: nat) {
    match f
    case Ok(v, pos) => r == Done(v) && ps == pos
    case Err(m) => r == Panic(m)
  }

  /** What `parseredirs` makes of the command it is given. */
  function Wrapped(c: Cmd<Span>, r: Parse<seq<Redirect>>): Parse<Cmd<Span>> {
    match r
    case Ok(rs, pos) => Ok(Wrap(c, rs), pos)
    case Err(m) => Err(m)
  }

  lemma WrapFirst(c: Cmd<Span>, r: Redirect, rest: Parse<seq<Redirect>>)
    ensures rest.Ok? ==> Wrap(c, [r] + rest.value) == Wrap(Redir(c, r.file, r.out), rest.value)
  {
    if rest.Ok? {
      assert ([r] + rest.value)[1..] == rest.value;
    }
  }

  /** The command with the words of its program replaced: `parseexec` keeps adding words
      to the node that the redirections around it have wrapped. */
  function WithArgs(c: Cmd<Span>, argv: seq<Span>): Cmd<Span> {
    match c
    case Redir(d, file, out) => Redir(WithArgs(d, argv), file, out)
    case _ => Exec(argv)
  }

  lemma {:induction false} WithArgsWrap(c: Cmd<Span>, rs: seq<Redirect>, argv: seq<Span>)
    ensures WithArgs(Wrap(c, rs), argv) == Wrap(WithArgs(c, argv), rs)
    decreases |rs|
  {
    if rs != [] {
      WithArgsWrap(Redir(c, rs[0].file, rs[0].out), rs[1..], argv);
    }
  }

  lemma {:induction false} WrapTwice(c: Cmd<Span>, rs: seq<Redirect>, more: seq<Redirect>)
    ensures Wrap(Wrap(c, rs), more) == Wrap(c, rs + more)
    decreases |rs|
  {
    if rs == [] {
      assert rs + more == more;
    } else {
      WrapTwice(Redir(c, rs[0].file, rs[0].out), rs[1..], more);
      assert (rs + more)[1..] == rs[1..] + more;
    }
  }

  // One turn of each loop, on the functions.

  lemma SkipAgain(s: string, i: nat)
    requires i <= |s|
    ensures Skip(s, Skip(s, i)) == Skip(s, i) && Redirs(s, Skip(s, i)) == Redirs(s, i)
    ensures forall argv, rs :: Args(s, Skip(s, i), argv, rs) == Args(s, i, argv, rs)
  {
    assert Skip(s, Skip(s, i)) == Skip(s, i);
  }

  lemma RedirsTurn(s: string, i: nat, c: Cmd<Span>)
    requires i <= |s| && Skip(s, i) == i && G.Peek(s, i, "<>")
    ensures var t := G.GetToken(s, i); var f := G.GetToken(s, t.next);
      if f.kind != 'a' then Redirs(s, i) == Err("missing file for redirection")
      else Wrapped(c, Redirs(s, i)) == Wrapped(Redir(c, Span(f.start, f.end), t.kind != '<'), Redirs(s, f.next))
  {
    var t := G.GetToken(s, i);
    var f := G.GetToken(s, t.next);
    if f.kind == 'a' {
      WrapFirst(c, Redirect(Span(f.start, f.end), t.kind != '<'), Redirs(s, f.next));
    }
  }

  lemma ArgsTurn(s: string, i: nat, argv: seq<Span>, rs: seq<Redirect>)
    requires i <= |s| && Skip(s, i) == i && !G.Peek(s, i, "|)&;")
    ensures var t := G.GetToken(s, i);
      if t.kind == '\0' then Args(s, i, argv, rs) == Ok(Wrap(Exec(argv), rs), t.next)
      else if t.kind != 'a' then Args(s, i, argv, rs) == Err("syntax")
      else if |argv| + 1 >= MAXARGS then Args(s, i, argv, rs) == Err("too many args")
      else if Redirs(s, t.next).Err? then Args(s, i, argv, rs) == Err(Redirs(s, t.next).message)
      else (Args(s, i, argv, rs)
        == Args(s, Redirs(s, t.next).pos, argv + [Span(t.start, t.end)], rs + Redirs(s, t.next).value))
  {
  }

  class Parser {
    const s: string
    var ps: nat

    constructor (s: string)
      ensures this.s == s && ps == 0
    {
      this.s, ps := s, 0;
    }

    /** The characters of the C string, NUL at its end. */
    function At(i: nat): char {
      if i < |s| then s[i] else '\0'
    }

    method GetToken() returns (ret: char, q: nat, eq: nat)
      requires ps <= |s|
      modifies this
      ensures G.GetToken(s, old(ps)) == Token(ret, q, eq, ps) && old(ps) <= ps <= |s|
    {
      var i := SkipWhite(ps);
      q, ret := i, At(i);
      if At(i) == '\0' {
      } else if Symbol(At(i)) && At(i) != '>' {
        i := i + 1;
      } else if At(i) == '>' {
        i := i + 1;
        if At(i) == '>' {
          ret := '+';
          i := i + 1;
        }
      } else {
        ret := 'a';
        i := WordScan(i);
      }
      eq := i;
      ps := SkipWhite(i);
    }

    method SkipWhite(start: nat) returns (i: nat)
      requires start <= |s|
      ensures i == Skip(s, start)
    {
      i := start;
      while i < |s| && White(s[i])
        invariant i <= |s| && Skip(s, i) == Skip(s, start)
      {
        i := i + 1;
      }
    }

    method WordScan(start: nat) returns (i: nat)
      requires start < |s| && !White(s[start]) && !Symbol(s[start])
      ensures i == WordEnd(s, start + 1)
    {
      i := start;
      while i < |s| && !White(s[i]) && !Symbol(s[i])
        invariant i <= |s| && WordEnd(s, i) == WordEnd(s, start)
      {
        i := i + 1;
      }
    }

    method Peek(toks: string) returns (found: bool)
      requires ps <= |s|
      modifies this
      ensures ps == Skip(s, old(ps)) && found == G.Peek(s, old(ps), toks)
    {
      ps := SkipWhite(ps);
      found := At(ps) != '\0' && At(ps) in toks;
    }

    method ParseRedirs(cmd: Cmd<Span>) returns (r: Result<Cmd<Span>>)
      requires ps <= |s|
      modifies this
      ensures old(ps) <= ps <= |s| && Agrees(Wrapped(cmd, Redirs(s, old(ps))), r, ps)
    {
      var c := cmd;
      SkipAgain(s, ps);
      var more := Peek("<>");
      while more
        invariant old(ps) <= ps <= |s| && Skip(s, ps) == ps && more == G.Peek(s, ps, "<>")
        invariant Wrapped(c, Redirs(s, ps)) == Wrapped(cmd, Redirs(s, old(ps)))
        decreases |s| - ps
      {
        RedirsTurn(s, ps, c);
        var tok, _, _ := GetToken();
        var kind, q, eq := GetToken();
        if kind != 'a' {
          return Panic("missing file for redirection");
        }
        SkipAgain(s, ps);
        if tok == '<' {
          c := Redir(c, Span(q, eq), false);
        } else {
          c := Redir(c, Span(q, eq), true);
        }
        more := Peek("<>");
      }
      r := Done(c);
    }

    method ParseLine() returns (r: Result<Cmd<Span>>)
      requires ps <= |s|
      modifies this
      ensures ps <= |s| && Agrees(G.ParseLine(s, old(ps)), r, ps)
      decreases |s| - ps, 3
    {
      var start := ps;
      r := ParsePipe();
      if r.Panic? {
        return;
      }
      var c := r.value;
      c := ParseBacks(c);
      var list := Peek(";");
      if list {
        var _, _, _ := GetToken();
        var rest := ParseLine();
        if rest.Panic? {
          return rest;
        }
        c := List(c, rest.value);
      }
      r := Done(c);
    }

    /** The loop of `parseline` over '&'. */
    method ParseBacks(cmd: Cmd<Span>) returns (c: Cmd<Span>)
      requires ps <= |s|
      modifies this
      ensures ps <= |s| && (c, ps) == Backs(s, old(ps), cmd)
    {
      c := cmd;
      var back := Peek("&");
      while back
        invariant ps <= |s| && Skip(s, ps) == ps && back == G.Peek(s, ps, "&")
        invariant Backs(s, ps, c) == Backs(s, old(ps), cmd)
        decreases |s| - ps
      {
        var _, _, _ := GetToken();
        c := Back(c);
        back := Peek("&");
      }
    }

    method ParsePipe() returns (r: Result<Cmd<Span>>)
      requires ps <= |s|
      modifies this
      ensures ps <= |s| && Agrees(G.ParsePipe(s, old(ps)), r, ps)
      decreases |s| - ps, 2
    {
      r := ParseExec();
      if r.Panic? {
        return;
      }
      var c := r.value;
      var pipe := Peek("|");
      if pipe {
        var _, _, _ := GetToken();
        var rest := ParsePipe();
        if rest.Panic? {
          return rest;
        }
        c := Pipe(c, rest.value);
      }
      r := Done(c);
    }

    method ParseBlock() returns (r: Result<Cmd<Span>>)
      requires ps <= |s|
      modifies this
      ensures ps <= |s| && Agrees(G.ParseBlock(s, old(ps)), r, ps)
      decreases |s| - ps, 0
    {
      var open := Peek("(");
      if !open {
        return Panic("parseblock");
      }
      var _, _, _ := GetToken();
      r := ParseLine();
      if r.Panic? {
        return;
      }
      var close := Peek(")");
      if !close {
        return Panic("syntax - missing )");
      }
      var _, _, _ := GetToken();
      r := ParseRedirs(r.value);
    }

    method ParseExec() returns (r: Result<Cmd<Span>>)
      requires ps <= |s|
      modifies this
      ensures ps <= |s| && Agrees(G.ParseExec(s, old(ps)), r, ps)
      decreases |s| - ps, 1
    {
      var block := Peek("(");
      if block {
        r := ParseBlock();
        return;
      }
      r := ParseRedirs(Exec([]));
      if r.Done? {
        ghost var rs := Redirs(s, Skip(s, old(ps))).value;
        r := ParseArgs(r.value, rs);
      }
    }

    /** The loop of `parseexec`; `first` is the empty program in the redirections before it. */
    method ParseArgs(first: Cmd<Span>, ghost rs: seq<Redirect>) returns (r: Result<Cmd<Span>>)
      requires ps <= |s| && first == Wrap(Exec([]), rs)
      modifies this
      ensures ps <= |s| && Agrees(Args(s, old(ps), [], rs), r, ps)
    {
      var ret := first;
      var argv: seq<Span> := [];
      ghost var all := rs;
      SkipAgain(s, ps);
      var stop := Peek("|)&;");
      while !stop
        invariant ps <= |s| && Skip(s, ps) == ps && stop == G.Peek(s, ps, "|)&;")
        invariant ret == Wrap(Exec(argv), all) && Args(s, ps, argv, all) == Args(s, old(ps), [], rs)
        decreases |s| - ps
      {
        ArgsTurn(s, ps, argv, all);
        var tok, q, eq := GetToken();
        if tok == '\0' {
          break;
        }
        if tok != 'a' {
          return Panic("syntax");
        }
        argv := argv + [Span(q, eq)];
        if |argv| >= MAXARGS {
          return Panic("too many args");
        }
        r, all := AddArg(ret, argv, all);
        if r.Panic? {
          return;
        }
        ret := r.value;
        SkipAgain(s, ps);
        stop := Peek("|)&;");
      }
      r := Done(ret);
    }

    /** The word just read goes into the program, and the redirections after it around it. */
    method AddArg(ret: Cmd<Span>, argv: seq<Span>, ghost rs: seq<Redirect>)
      returns (r: Result<Cmd<Span>>, ghost all: seq<Redirect>)
      requires ps <= |s| && argv != [] && ret == Wrap(Exec(argv[..|argv| - 1]), rs)
      modifies this
      ensures old(ps) <= ps <= |s|
      ensures match Redirs(s, old(ps))
        case Ok(more, pos) => r == Done(Wrap(Exec(argv), all)) && all == rs + more && ps == pos
        case Err(m) => r == Panic(m)
    {
      WithArgsWrap(Exec(argv[..|argv| - 1]), rs, argv);
      all := rs;
      r := ParseRedirs(WithArgs(ret, argv));
      if r.Done? {
        ghost var more := Redirs(s, old(ps)).value;
        WrapTwice(Exec(argv), rs, more);
        all := rs + more;
      }
    }
  }

  // ---------------------------------------------------------------- ending the words

  /** The C string at position i of the buffer. */
  function CString(b: seq<char>, i: nat): string
    decreases |b| - i
  {
    if i < |b| && b[i] != '\0' then [b[i]] + CString(b, i + 1) else ""
  }

  /** The positions just past the words of the command. */
  function Ends(c: Cmd<Span>): set<nat> {
    match c
    case Exec(argv) => set i: nat | i < |argv| :: argv[i].end
    case Redir(d, file, _) => Ends(d) + {file.end}
    case Pipe(l, r) => Ends(l) + Ends(r)
    case List(l, r) => Ends(l) + Ends(r)
    case Back(d) => Ends(d)
  }

  /** The command as `runcmd` reads it: every word is the C string at its start. */
  function Named(b: seq<char>, c: Cmd<Span>): Cmd<string> {
    match c
    case Exec(argv) => Exec(NamedWords(b, argv))
    case Redir(d, file, out) => Redir(Named(b, d), CString(b, file.start), out)
    case Pipe(l, r) => Pipe(Named(b, l), Named(b, r))
    case List(l, r) => List(Named(b, l), Named(b, r))
    case Back(d) => Back(Named(b, d))
  }

  function NamedWords(b: seq<char>, argv: seq<Span>): seq<string> {
    if argv == [] then [] else NamedWords(b, argv[..|argv| - 1]) + [CString(b, argv[|argv| - 1].start)]
  }

  /** b is the line s with NULs at the positions of `ends` and at its end. */
  ghost predicate Terminated(s: string, b: seq<char>, ends: set<nat>) {
    && |b| == |s| + 1
    && forall p :: 0 <= p <= |s| ==> b[p] == if p in ends || p == |s| then '\0' else s[p]
  }

  /** Ends of whole words lie at the end of the line or on white space and symbols. */
  ghost predicate Outside(s: string, ends: set<nat>) {
    forall e :: e in ends ==> e <= |s| && (e < |s| ==> White(s[e]) || Symbol(s[e]))
  }

  lemma {:induction false} EndsOutside(s: string, c: Cmd<Span>)
    requires WholeWords(s, c)
    ensures Outside(s, Ends(c))
  {
    match c
    case Exec(_) =>
    case Redir(d, _, _) => EndsOutside(s, d);
    case Pipe(l, r) =>
      EndsOutside(s, l);
      EndsOutside(s, r);
    case List(l, r) =>
      EndsOutside(s, l);
      EndsOutside(s, r);
    case Back(d) => EndsOutside(s, d);
  }

  /** A whole word reads the same in the terminated buffer. */
  lemma {:induction false} WordSurvives(s: string, b: seq<char>, ends: set<nat>, w: Span, i: nat)
    requires Terminated(s, b, ends) && Outside(s, ends) && WholeWord(s, w) && w.end in ends && '\0' !in s
    requires w.start <= i <= w.end
    ensures CString(b, i) == s[i..w.end]
    decreases w.end - i
  {
    if i < w.end {
      assert s[i] in s;
      WordSurvives(s, b, ends, w, i + 1);
      assert s[i..w.end] == [s[i]] + s[i + 1..w.end];
    }
  }

  lemma {:induction false} WordsSurvive(s: string, b: seq<char>, ends: set<nat>, argv: seq<Span>)
    requires Terminated(s, b, ends) && Outside(s, ends) && '\0' !in s
    requires forall i :: 0 <= i < |argv| ==> WholeWord(s, argv[i]) && argv[i].end in ends
    ensures NamedWords(b, argv) == ReadWords(s, argv)
    decreases |argv|
  {
    if argv != [] {
      var w := argv[|argv| - 1];
      WordSurvives(s, b, ends, w, w.start);
      WordsSurvive(s, b, ends, argv[..|argv| - 1]);
    }
  }

  /** Writing NULs over the ends of all the words leaves every word of the command as it
      was recognised, because no end lies inside a word. */
  lemma {:induction false} CommandSurvives(s: string, b: seq<char>, ends: set<nat>, c: Cmd<Span>)
    requires Terminated(s, b, ends) && Outside(s, ends) && '\0' !in s && WholeWords(s, c) && Ends(c) <= ends
    ensures Named(b, c) == Read(s, c)
  {
    match c
    case Exec(argv) =>
      forall i: nat | i < |argv| ensures argv[i].end in ends {
        assert argv[i].end in Ends(c);
      }
      WordsSurvive(s, b, ends, argv);
    case Redir(d, file, _) =>
      CommandSurvives(s, b, ends, d);
      WordSurvives(s, b, ends, file, file.start);
    case Pipe(l, r) =>
      CommandSurvives(s, b, ends, l);
      CommandSurvives(s, b, ends, r);
    case List(l, r) =>
      CommandSurvives(s, b, ends, l);
      CommandSurvives(s, b, ends, r);
    case Back(d) =>
      CommandSurvives(s, b, ends, d);
  }

  /** NULs are written at the ends of the words, and nowhere else. */
  method NulTerminate(buf: array<char>, c: Cmd<Span>)
    requires forall e :: e in Ends(c) ==> e < buf.Length
    modifies buf
    ensures forall p :: 0 <= p < buf.Length ==> buf[p] == if p in Ends(c) then '\0' else old(buf[p])
    decreases c
  {
    match c {
      case Exec(argv) =>
        var i := 0;
        while i < |argv|
          invariant i <= |argv|
          invariant forall p :: 0 <= p < buf.Length ==>
            buf[p] == if exists j :: 0 <= j < i && argv[j].end == p then '\0' else old(buf[p])
        {
          assert argv[i].end in Ends(c);
          buf[argv[i].end] := '\0';
          i := i + 1;
        }
      case Redir(d, file, _) =>
        assert Ends(c) == Ends(d) + {file.end};
        NulTerminate(buf, d);
        buf[file.end] := '\0';
      case Pipe(l, r) =>
        assert Ends(c) == Ends(l) + Ends(r);
        NulTerminate(buf, l);
        NulTerminate(buf, r);
      case List(l, r) =>
        assert Ends(c) == Ends(l) + Ends(r);
        NulTerminate(buf, l);
        NulTerminate(buf, r);
      case Back(d) =>
        assert Ends(c) == Ends(d);
        NulTerminate(buf, d);
    }
  }

  /** `parsecmd`: the whole line is consumed, and the words of the command, read as C
      strings from the buffer, are the ones the parser recognised. */
  method ParseCmd(buf: array<char>) returns (r: Result<Cmd<Span>>)
    requires buf.Length > 0 && buf[buf.Length - 1] == '\0' && '\0' !in buf[..buf.Length - 1]
    modifies buf
    ensures var s := old(buf[..buf.Length - 1]);
      match G.ParseCmd(s)
      case Ok(c, _) => r == Done(c) && Named(buf[..], c) == Read(s, c)
      case Err(m) => r == Panic(m) && buf[..] == old(buf[..])
  {
    var s := buf[..buf.Length - 1];
    var parser := new Parser(s);
    r := parser.ParseLine();
    if r.Panic? {
      return;
    }
    var _ := parser.Peek("");
    if parser.ps != |s| {
      return Panic("syntax");
    }
    var c := r.value;
    LineWhole(s, 0);
    EndsOutside(s, c);
    NulTerminate(buf, c);
    CommandSurvives(s, buf[..], Ends(c), c);
  }

  lemma {:induction false} WordsHaveNoNul(ws: seq<string>)
    requires GoodWords(ws)
    ensures '\0' !in ShowWords(ws)
    decreases |ws|
  {
    if ws != [] {
      assert GoodWord(ws[0]);
      assert '\0' !in ws[0];
      if |ws| > 1 {
        forall k | 0 <= k < |ws[1..]| ensures GoodWord(ws[1..][k]) {
          assert ws[1..][k] == ws[k + 1];
        }
        WordsHaveNoNul(ws[1..]);
      }
    }
  }

  lemma {:induction false} ShowHasNoNul(t: Cmd<string>)
    requires Good(t)
    ensures '\0' !in Show(t) && '\0' !in Paren(t)
  {
    match t
    case Exec(argv) => WordsHaveNoNul(argv);
    case Redir(d, _, _) => ShowHasNoNul(d);
    case Pipe(l, r) =>
      ShowHasNoNul(l);
      ShowHasNoNul(r);
    case List(l, r) =>
      ShowHasNoNul(l);
      ShowHasNoNul(r);
    case Back(d) => ShowHasNoNul(d);
  }

  /** Typed in printed form, a good command is what `runcmd` gets. */
  lemma PrintedCommandRuns(t: Cmd<string>, b: seq<char>)
    requires Good(t) && G.ParseCmd(Show(t)).Ok?
    requires Terminated(Show(t), b, Ends(G.ParseCmd(Show(t)).value))
    ensures Named(b, G.ParseCmd(Show(t)).value) == t
  {
    var s, c := Show(t), G.ParseCmd(Show(t)).value;
    ShowHasNoNul(t);
    ParsePrint(t);
    LineWhole(s, 0);
    EndsOutside(s, c);
    CommandSurvives(s, b, Ends(c), c);
  }
}
