/** The parser takes every line of the grammar of module ShellTokens, so that it accepts
    exactly those, whatever white space stands between the tokens. */
module ShellAccepts {
  import opened ShellGrammar
  import opened ShellTokens
  import opened ShellPrinter

  /** The tokens y stand at i, followed by rest. */
  predicate Stands(s: string, i: nat, y: seq<Item>, rest: seq<Item>) {
    i <= |s| && Items(s, i) == y + rest
  }

  /** No word and no redirection comes next. */
  predicate Quiet(rest: seq<Item>) {
    First(rest) in {'\0', '|', '&', ';', ')'}
  }

  predicate NoRedirect(rest: seq<Item>) {
    First(rest) !in {'<', '>', '+'}
  }

  lemma StandsToken(s: string, i: nat, it: Item, more: seq<Item>, rest: seq<Item>)
    requires Stands(s, i, [it] + more, rest)
    ensures Kind(s, i) == First([it]) && it == ItemOf(GetToken(s, i)) && Kind(s, i) != '\0'
    ensures GetToken(s, Skip(s, i)) == GetToken(s, i) && Stands(s, GetToken(s, i).next, more, rest)
  {
    Skipped(s, i);
    FirstKind(s, i);
    HeadTail(it, more, rest);
  }

  lemma HeadTail(it: Item, more: seq<Item>, rest: seq<Item>)
    ensures var all := [it] + more + rest; all != [] && all[0] == it && all[1..] == more + rest
  {
  }

  lemma StandsSplit(s: string, i: nat, a: seq<Item>, b: seq<Item>, rest: seq<Item>)
    ensures Stands(s, i, a + b, rest) <==> Stands(s, i, a, b + rest)
  {
    assert a + b + rest == a + (b + rest);
  }

  // ---------------------------------------------------------------- programs

  lemma ModeFirst(m: Mode)
    ensures !NoRedirect([ModeSign(m)]) && ModeSign(m).Sign? && (ModeSign(m).kind != '<') == (m != In)
  {
  }

  lemma {:induction false} RedirsTake(s: string, i: nat, parts: seq<Part>, rest: seq<Item>)
    requires AllTo(parts) && Stands(s, i, PartsItems(parts), rest) && NoRedirect(rest)
    ensures Redirs(s, i).Ok? && Redirs(s, i).value == Files(parts) && Stands(s, Redirs(s, i).pos, [], rest)
    decreases |parts|
  {
    PeekKind(s, i);
    Skipped(s, i);
    FirstKind(s, i);
    if parts == [] {
      assert [] + rest == rest;
    } else {
      var p := parts[0];
      ModeFirst(p.mode);
      var t := GetToken(s, Skip(s, i));
      var f := GetToken(s, t.next);
      RedirectStands(s, i, p, PartsItems(parts[1..]), rest);
      RedirsTake(s, f.next, parts[1..], rest);
      assert [Redirect(Span(f.start, f.end), t.kind != '<')] + Files(parts[1..]) == Files(parts);
    }
  }

  lemma RedirectStands(s: string, i: nat, p: Part, more: seq<Item>, rest: seq<Item>)
    requires p.To? && Stands(s, i, PartItems(p) + more, rest)
    ensures var t := GetToken(s, Skip(s, i)); var f := GetToken(s, t.next);
      && Peek(s, i, "<>") && f.kind == 'a' && Span(f.start, f.end) == p.file && (t.kind != '<') == (p.mode != In)
      && Stands(s, f.next, more, rest)
  {
    ModeFirst(p.mode);
    TwoItems(ModeSign(p.mode), Word(p.file), more);
    StandsToken(s, i, ModeSign(p.mode), [Word(p.file)] + more, rest);
    StandsToken(s, GetToken(s, i).next, Word(p.file), more, rest);
    PeekKind(s, i);
  }

  lemma TwoItems(a: Item, b: Item, more: seq<Item>)
    ensures [a, b] + more == [a] + ([b] + more)
  {
  }

  /** The redirections in front of the first word. */
  function Front(parts: seq<Part>): (n: nat)
    ensures n <= |parts| && AllTo(parts[..n]) && (n < |parts| ==> parts[n].Arg?)
  {
    if parts == [] || parts[0].Arg? then 0
    else
      assert forall k :: 0 < k < |parts| ==> parts[k] == parts[1..][k - 1];
      1 + Front(parts[1..])
  }

  lemma FrontIs(parts: seq<Part>)
    ensures var n := Front(parts);
      && PartsItems(parts) == PartsItems(parts[..n]) + PartsItems(parts[n..])
      && Files(parts) == Files(parts[..n]) + Files(parts[n..]) && Words(parts) == Words(parts[n..])
  {
    var n := Front(parts);
    assert parts == parts[..n] + parts[n..];
    PartsJoin(parts[..n], parts[n..]);
    NoWords(parts[..n]);
  }

  lemma {:induction false} NoWords(parts: seq<Part>)
    requires AllTo(parts)
    ensures Words(parts) == []
  {
    if parts != [] {
      NoWords(parts[1..]);
    }
  }

  lemma PartsFirst(parts: seq<Part>, rest: seq<Item>)
    ensures First(PartsItems(parts) + rest) ==
      if parts == [] then First(rest) else if parts[0].Arg? then 'a' else ModeSign(parts[0].mode).kind
  {
    if parts == [] {
      assert [] + rest == rest;
    }
  }

  lemma FrontTake(s: string, i: nat, parts: seq<Part>, rest: seq<Item>)
    requires Stands(s, i, PartsItems(parts), rest) && Quiet(rest)
    ensures var r, back := Redirs(s, i), parts[Front(parts)..];
      && r.Ok? && Stands(s, r.pos, PartsItems(back), rest)
      && Words(parts) == Words(back) && Files(parts) == r.value + Files(back)
  {
    var n := Front(parts);
    var front, back := parts[..n], parts[n..];
    FrontIs(parts);
    StandsSplit(s, i, PartsItems(front), PartsItems(back), rest);
    PartsFirst(back, rest);
    RedirsTake(s, i, front, PartsItems(back) + rest);
    StandsSplit(s, Redirs(s, i).pos, [], PartsItems(back), rest);
    assert [] + PartsItems(back) == PartsItems(back);
  }

  lemma {:induction false} ArgsTake(s: string, i: nat, argv: seq<Span>, rs: seq<Redirect>, parts: seq<Part>,
          rest: seq<Item>)
    requires Stands(s, i, PartsItems(parts), rest) && Quiet(rest) && (parts != [] ==> parts[0].Arg?)
    requires |argv| + |Words(parts)| < MAXARGS
    ensures var r := Args(s, i, argv, rs);
      && r.Ok? && r.value == Wrap(Exec(argv + Words(parts)), rs + Files(parts)) && Stands(s, r.pos, [], rest)
    decreases |parts|
  {
    if parts == [] {
      ArgsStop(s, i, argv, rs, rest);
      Unit(argv);
      Unit(rs);
    } else {
      var t, n := GetToken(s, i), Front(parts[1..]);
      var back := parts[1..][n..];
      ArgStands(s, i, parts, n, rest);
      var more := Redirs(s, t.next);
      var w := Span(t.start, t.end);
      ArgsTake(s, more.pos, argv + [w], rs + more.value, back, rest);
      Assoc(argv, [w], Words(back));
      Assoc(rs, more.value, Files(back));
    }
  }

  lemma ArgsStop(s: string, i: nat, argv: seq<Span>, rs: seq<Redirect>, rest: seq<Item>)
    requires Stands(s, i, [], rest) && Quiet(rest)
    ensures var r := Args(s, i, argv, rs);
      r.Ok? && r.value == Wrap(Exec(argv), rs) && Stands(s, r.pos, [], rest)
  {
    assert [] + rest == rest;
    FirstKind(s, i);
    PeekKind(s, i);
    Skipped(s, i);
    if Kind(s, i) == '\0' {
      assert Items(s, GetToken(s, i).next) == [];
    }
  }

  /** The loop takes the next word and the redirections after it. */
  lemma ArgStands(s: string, i: nat, parts: seq<Part>, n: nat, rest: seq<Item>)
    requires parts != [] && parts[0].Arg? && n == Front(parts[1..])
    requires Stands(s, i, PartsItems(parts), rest) && Quiet(rest)
    ensures var t, back := GetToken(s, i), parts[1..][n..]; var more := Redirs(s, t.next);
      && GetToken(s, Skip(s, i)) == t && !Peek(s, i, "|)&;") && t.kind == 'a'
      && more.Ok? && Stands(s, more.pos, PartsItems(back), rest)
      && Words(parts) == [Span(t.start, t.end)] + Words(back) && Files(parts) == more.value + Files(back)
  {
    StandsToken(s, i, Word(parts[0].at), PartsItems(parts[1..]), rest);
    PeekKind(s, i);
    FrontTake(s, GetToken(s, i).next, parts[1..], rest);
  }

  /** The parsing function r has taken a form with that tree and left the rest. */
  predicate Gives(s: string, r: Parse<Cmd<Span>>, c: Cmd<Span>, rest: seq<Item>) {
    r.Ok? && r.value == c && Stands(s, r.pos, [], rest)
  }

  lemma ProgramTake(s: string, i: nat, parts: seq<Part>, rest: seq<Item>)
    requires Stands(s, i, PartsItems(parts), rest) && Quiet(rest) && |Words(parts)| < MAXARGS
    ensures Gives(s, ParseExec(s, i), Tree(Program(parts)), rest)
  {
    var back := parts[Front(parts)..];
    PartsFirst(parts, rest);
    FirstKind(s, i);
    PeekKind(s, i);
    Skipped(s, i);
    FrontTake(s, Skip(s, i), parts, rest);
    var rs := Redirs(s, Skip(s, i));
    ArgsTake(s, rs.pos, [], rs.value, back, rest);
    assert [] + Words(back) == Words(back);
  }

  // ---------------------------------------------------------------- the other forms

  lemma {:induction false} ExecTake(s: string, i: nat, f: Form, rest: seq<Item>)
    requires IsUnit(f) && Fits(f) && Stands(s, i, Written(f), rest) && Quiet(rest)
    ensures Gives(s, ParseExec(s, i), Tree(f), rest)
    decreases f, 0
  {
    match f
    case Program(parts) => ProgramTake(s, i, parts, rest);
    case Group(b, redirs) =>
      Opened(s, i, Written(b), PartsItems(redirs), rest);
      var j := GetToken(s, Skip(s, i)).next;
      LineTake(s, j, b, [Sign(')')] + (PartsItems(redirs) + rest));
      Closed(s, i, j, b, redirs, rest);
    case _ =>
  }

  lemma Opened(s: string, i: nat, b: seq<Item>, rs: seq<Item>, rest: seq<Item>)
    requires Stands(s, i, [Sign('(')] + b + [Sign(')')] + rs, rest)
    ensures Peek(s, i, "(") && GetToken(s, Skip(s, Skip(s, i))) == GetToken(s, i) == GetToken(s, Skip(s, i))
    ensures Peek(s, Skip(s, i), "(")
    ensures Stands(s, GetToken(s, i).next, b, [Sign(')')] + (rs + rest))
  {
    assert [Sign('(')] + b + [Sign(')')] + rs == [Sign('(')] + (b + ([Sign(')')] + rs));
    StandsToken(s, i, Sign('('), b + ([Sign(')')] + rs), rest);
    PeekKind(s, i);
    Skipped(s, i);
    StandsSplit(s, GetToken(s, i).next, b, [Sign(')')] + rs, rest);
    assert [Sign(')')] + rs + rest == [Sign(')')] + (rs + rest);
  }

  lemma Closed(s: string, i: nat, j: nat, b: Form, redirs: seq<Part>, rest: seq<Item>)
    requires i <= |s| && Peek(s, i, "(") && Peek(s, Skip(s, i), "(") && j == GetToken(s, Skip(s, Skip(s, i))).next
    requires AllTo(redirs) && Quiet(rest)
    requires Gives(s, ParseLine(s, j), Tree(b), [Sign(')')] + (PartsItems(redirs) + rest))
    ensures Gives(s, ParseExec(s, i), Tree(Group(b, redirs)), rest)
  {
    var p := ParseLine(s, j).pos;
    var after := PartsItems(redirs) + rest;
    StandsSplit(s, p, [], [Sign(')')], after);
    assert [] + [Sign(')')] == [Sign(')')] + [];
    StandsToken(s, p, Sign(')'), [], after);
    PeekKind(s, p);
    var k := GetToken(s, p).next;
    StandsSplit(s, k, [], PartsItems(redirs), rest);
    assert [] + PartsItems(redirs) == PartsItems(redirs);
    RedirsTake(s, k, redirs, rest);
  }

  lemma {:induction false} PipeTake(s: string, i: nat, f: Form, rest: seq<Item>)
    requires IsPipe(f) && Fits(f) && Stands(s, i, Written(f), rest) && Quiet(rest) && First(rest) != '|'
    ensures Gives(s, ParsePipe(s, i), Tree(f), rest)
    decreases f, 1
  {
    if f.Piped? {
      var l, r := f.left, f.right;
      StandsSplit(s, i, Written(l) + [Sign('|')], Written(r), rest);
      StandsSplit(s, i, Written(l), [Sign('|')], Written(r) + rest);
      ExecTake(s, i, l, [Sign('|')] + (Written(r) + rest));
      var pos := ParseExec(s, i).pos;
      Next(s, pos, '|', Written(r), rest);
      PipeTake(s, GetToken(s, Skip(s, pos)).next, r, rest);
    } else {
      ExecTake(s, i, f, rest);
      Ends(s, ParseExec(s, i).pos, rest);
    }
  }

  /** The operator o is next, and then y. */
  lemma Next(s: string, pos: nat, o: char, y: seq<Item>, rest: seq<Item>)
    requires Stands(s, pos, [], [Sign(o)] + (y + rest)) && (o == '|' || o == ';' || o == '&')
    ensures Peek(s, pos, [o]) && Stands(s, GetToken(s, Skip(s, pos)).next, y, rest)
  {
    assert [] + ([Sign(o)] + (y + rest)) == [Sign(o)] + y + rest;
    StandsToken(s, pos, Sign(o), y, rest);
    PeekKind(s, pos);
    assert "|" == ['|'] && ";" == [';'] && "&" == ['&'];
  }

  /** None of the operators that is not next. */
  lemma Ends(s: string, pos: nat, rest: seq<Item>)
    requires Stands(s, pos, [], rest)
    ensures Peek(s, pos, "|") <==> First(rest) == '|'
    ensures Peek(s, pos, "&") <==> First(rest) == '&'
    ensures Peek(s, pos, ";") <==> First(rest) == ';'
    ensures Stands(s, Skip(s, pos), [], rest)
  {
    assert [] + rest == rest;
    FirstKind(s, pos);
    PeekKind(s, pos);
    Skipped(s, pos);
  }

  lemma Ampersand(s: string, k: nat, c: Cmd<Span>, rest: seq<Item>) returns (q: nat)
    requires Stands(s, k, [], [Sign('&')] + rest)
    ensures Stands(s, q, [], rest) && Backs(s, k, c) == Backs(s, q, Back(c))
  {
    assert [] + rest == rest;
    Next(s, k, '&', [], rest);
    q := GetToken(s, Skip(s, k)).next;
  }

  /** A pipeline and the ampersands after it: the loop over '&' has come to q with the tree. */
  lemma {:induction false} JobTake(s: string, i: nat, f: Form, rest: seq<Item>) returns (q: nat)
    requires IsJob(f) && Fits(f) && Stands(s, i, Written(f), rest) && Quiet(rest) && First(rest) != '|'
    ensures ParsePipe(s, i).Ok? && Stands(s, q, [], rest)
    ensures Backs(s, ParsePipe(s, i).pos, ParsePipe(s, i).value) == Backs(s, q, Tree(f))
    decreases f, 2
  {
    if f.Spawned? {
      StandsSplit(s, i, Written(f.body), [Sign('&')], rest);
      var k := JobTake(s, i, f.body, [Sign('&')] + rest);
      q := Ampersand(s, k, Tree(f.body), rest);
    } else {
      JobForm(f);
      PipeTake(s, i, f, rest);
      q := ParsePipe(s, i).pos;
    }
  }

  /** From a position where a line of the grammar stands, up to the end or a ')', the parser
      takes it and builds its tree. */
  lemma {:induction false} LineTake(s: string, i: nat, f: Form, rest: seq<Item>)
    requires IsLine(f) && Fits(f) && Stands(s, i, Written(f), rest) && First(rest) in {'\0', ')'}
    ensures Gives(s, ParseLine(s, i), Tree(f), rest)
    decreases f, 3
  {
    var job := if f.Then? then f.left else f;
    if f.Then? {
      StandsSplit(s, i, Written(job) + [Sign(';')], Written(f.right), rest);
      StandsSplit(s, i, Written(job), [Sign(';')], Written(f.right) + rest);
    }
    var after := if f.Then? then [Sign(';')] + (Written(f.right) + rest) else rest;
    var q := JobTake(s, i, job, after);
    Ends(s, q, after);
    var p := ParsePipe(s, i);
    assert Backs(s, p.pos, p.value) == (Tree(job), Skip(s, q));
    LineEnds(s, i, Tree(job), Skip(s, q));
    Ends(s, Skip(s, q), after);
    if f.Then? {
      Next(s, Skip(s, q), ';', Written(f.right), rest);
      LineTake(s, GetToken(s, Skip(s, Skip(s, q))).next, f.right, rest);
    }
  }

  // ---------------------------------------------------------------- the whole line

  /** The line s is written as f. */
  predicate Reads(s: string, f: Form) {
    IsLine(f) && Fits(f) && Written(f) == Items(s, 0)
  }

  lemma AtEnd(s: string, pos: nat)
    requires CString(s) && pos <= |s|
    ensures Items(s, pos) == [] <==> Skip(s, pos) == |s|
  {
    assert Ch(s, Skip(s, pos)) == '\0' <==> Skip(s, pos) == |s|;
  }

  /** The parser accepts a line if and only if its tokens form a line of the grammar, with
      fewer than MAXARGS words to a program, and then returns the tree of that line. */
  lemma Accepted(s: string, c: Cmd<Span>)
    requires CString(s)
    ensures ParseCmd(s) == Ok(c, |s|) <==> exists f :: Reads(s, f) && Tree(f) == c
  {
    if ParseCmd(s).Ok? {
      var f := LineForm(s, 0);
      var r := ParseLine(s, 0);
      TakesIs(s, 0, Written(f), r.pos);
      AtEnd(s, r.pos);
      assert Reads(s, f) && Tree(f) == ParseCmd(s).value;
    }
    forall f | Reads(s, f) ensures ParseCmd(s) == Ok(Tree(f), |s|) {
      Taken(s, f);
    }
  }

  lemma Taken(s: string, f: Form)
    requires CString(s) && Reads(s, f)
    ensures ParseCmd(s) == Ok(Tree(f), |s|)
  {
    Unit(Written(f));
    LineTake(s, 0, f, []);
    AtEnd(s, ParseLine(s, 0).pos);
  }
}
