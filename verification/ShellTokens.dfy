/** The grammar of command lines over their tokens, apart from the parser: what a line of each
    form consists of and which tree it stands for. The parser accepts exactly the lines of
    this grammar and builds exactly their trees. */
module ShellTokens {
  import opened ShellGrammar

  // ---------------------------------------------------------------- the tokens of a line

  /** A word at its place in the line, or an operator; '+' is `>>`. */
  datatype Item = Word(at: Span) | Sign(kind: char)

  function ItemOf(t: Token): Item {
    if t.kind == 'a' then Word(Span(t.start, t.end)) else Sign(t.kind)
  }

  /** The tokens from position i on, in order. */
  function Items(s: string, i: nat): seq<Item>
    requires i <= |s|
    decreases |s| - i
  {
    var t := GetToken(s, i);
    if t.kind == '\0' then [] else [ItemOf(t)] + Items(s, t.next)
  }

  /** The text of a token: with white space alone before and after it, a `>>`, a single symbol
      or a whole word, as long as possible. */
  lemma TokenText(s: string, i: nat)
    requires i <= |s|
    ensures var t := GetToken(s, i);
      && (forall k :: i <= k < t.start || t.end <= k < t.next ==> White(s[k]))
      && (t.start < |s| ==> !White(s[t.start])) && (t.next < |s| ==> !White(s[t.next]))
      && match t.kind
         case '\0' => Ch(s, t.start) == '\0' && t.end == t.start
         case 'a' => WholeWord(s, Span(t.start, t.end)) && s[t.start] != '\0'
         case '+' => s[t.start..t.end] == ">>"
         case k => Symbol(k) && s[t.start..t.end] == [k] && (k == '>' ==> Ch(s, t.end) != '>')
  {
    var t := GetToken(s, i);
    if t.kind == '+' {
      assert s[t.start..t.end] == [s[t.start], s[t.start + 1]];
    }
  }

  // ---------------------------------------------------------------- forms

  datatype Mode = In | Out | Append

  /** A piece of a program: a word or a redirection. */
  datatype Part = Arg(at: Span) | To(mode: Mode, file: Span)

  /** What was written, parentheses included. */
  datatype Form =
    | Program(parts: seq<Part>)
    | Group(body: Form, redirs: seq<Part>)
    | Piped(left: Form, right: Form)
    | Spawned(body: Form)
    | Then(left: Form, right: Form)

  predicate AllTo(parts: seq<Part>) {
    forall k :: 0 <= k < |parts| ==> parts[k].To?
  }

  /** A program, or a line in parentheses with redirections after it. */
  predicate IsUnit(f: Form)
    decreases f, 0
  {
    f.Program? || (f.Group? && AllTo(f.redirs) && IsLine(f.body))
  }

  predicate IsPipe(f: Form)
    decreases f, 1
  {
    if f.Piped? then IsUnit(f.left) && IsPipe(f.right) else IsUnit(f)
  }

  predicate IsJob(f: Form)
    decreases f, 2
  {
    if f.Spawned? then IsJob(f.body) else IsPipe(f)
  }

  predicate IsLine(f: Form)
    decreases f, 3
  {
    if f.Then? then IsJob(f.left) && IsLine(f.right) else IsJob(f)
  }

  /** Each form by its kind. */
  lemma JobForm(f: Form)
    requires IsJob(f)
    ensures !f.Then? && IsLine(f) && (f.Spawned? || IsPipe(f))
  {
    assert f.Then? ==> !IsPipe(f);
  }

  function Words(parts: seq<Part>): seq<Span> {
    if parts == [] then [] else (if parts[0].Arg? then [parts[0].at] else []) + Words(parts[1..])
  }

  function Files(parts: seq<Part>): seq<Redirect> {
    if parts == [] then []
    else (if parts[0].To? then [Redirect(parts[0].file, parts[0].mode != In)] else []) + Files(parts[1..])
  }

  /** Every program has fewer than MAXARGS words. */
  predicate Fits(f: Form) {
    match f
    case Program(parts) => |Words(parts)| < MAXARGS
    case Group(b, _) => Fits(b)
    case Piped(l, r) => Fits(l) && Fits(r)
    case Spawned(b) => Fits(b)
    case Then(l, r) => Fits(l) && Fits(r)
  }

  function ModeSign(m: Mode): Item {
    Sign(if m == In then '<' else if m == Out then '>' else '+')
  }

  function PartItems(p: Part): seq<Item> {
    match p
    case Arg(w) => [Word(w)]
    case To(m, file) => [ModeSign(m), Word(file)]
  }

  function PartsItems(parts: seq<Part>): seq<Item> {
    if parts == [] then [] else PartItems(parts[0]) + PartsItems(parts[1..])
  }

  /** The tokens a form is written with. */
  function Written(f: Form): seq<Item> {
    match f
    case Program(parts) => PartsItems(parts)
    case Group(b, redirs) => [Sign('(')] + Written(b) + [Sign(')')] + PartsItems(redirs)
    case Piped(l, r) => Written(l) + [Sign('|')] + Written(r)
    case Spawned(b) => Written(b) + [Sign('&')]
    case Then(l, r) => Written(l) + [Sign(';')] + Written(r)
  }

  /** The tree a form stands for. */
  function Tree(f: Form): Cmd<Span> {
    match f
    case Program(parts) => Wrap(Exec(Words(parts)), Files(parts))
    case Group(b, redirs) => Wrap(Tree(b), Files(redirs))
    case Piped(l, r) => Pipe(Tree(l), Tree(r))
    case Spawned(b) => Back(Tree(b))
    case Then(l, r) => List(Tree(l), Tree(r))
  }

  lemma Unit<T>(a: seq<T>)
    ensures a + [] == a
  {
  }

  lemma Assoc<T>(a: seq<T>, b: seq<T>, c: seq<T>)
    ensures a + b + c == a + (b + c)
  {
  }

  lemma {:induction false} ItemsJoin(a: seq<Part>, b: seq<Part>)
    ensures PartsItems(a + b) == PartsItems(a) + PartsItems(b)
  {
    if a == [] {
      assert a + b == b;
    } else {
      assert (a + b)[1..] == a[1..] + b;
      ItemsJoin(a[1..], b);
      Assoc(PartItems(a[0]), PartsItems(a[1..]), PartsItems(b));
    }
  }

  lemma {:induction false} WordsJoin(a: seq<Part>, b: seq<Part>)
    ensures Words(a + b) == Words(a) + Words(b)
  {
    if a == [] {
      assert a + b == b;
    } else {
      assert (a + b)[1..] == a[1..] + b;
      WordsJoin(a[1..], b);
      Assoc(if a[0].Arg? then [a[0].at] else [], Words(a[1..]), Words(b));
    }
  }

  lemma {:induction false} FilesJoin(a: seq<Part>, b: seq<Part>)
    ensures Files(a + b) == Files(a) + Files(b)
  {
    if a == [] {
      assert a + b == b;
    } else {
      assert (a + b)[1..] == a[1..] + b;
      FilesJoin(a[1..], b);
      Assoc(if a[0].To? then [Redirect(a[0].file, a[0].mode != In)] else [], Files(a[1..]), Files(b));
    }
  }

  lemma PartsJoin(a: seq<Part>, b: seq<Part>)
    ensures PartsItems(a + b) == PartsItems(a) + PartsItems(b)
    ensures Words(a + b) == Words(a) + Words(b) && Files(a + b) == Files(a) + Files(b)
  {
    ItemsJoin(a, b);
    WordsJoin(a, b);
    FilesJoin(a, b);
  }

  lemma PartsOne(p: Part)
    ensures PartsItems([p]) == PartItems(p)
    ensures Words([p]) == if p.Arg? then [p.at] else []
    ensures Files([p]) == if p.To? then [Redirect(p.file, p.mode != In)] else []
  {
    assert [p][1..] == [];
  }

  // ---------------------------------------------------------------- peek and the next token

  /** The kind of the next token. */
  function Kind(s: string, i: nat): char
    requires i <= |s|
  {
    GetToken(s, i).kind
  }

  lemma Skipped(s: string, i: nat)
    requires i <= |s|
    ensures Skip(s, Skip(s, i)) == Skip(s, i) && GetToken(s, Skip(s, i)) == GetToken(s, i)
    ensures Items(s, Skip(s, i)) == Items(s, i)
  {
  }

  /** What `peek` sees is the next token. */
  lemma PeekKind(s: string, i: nat)
    requires i <= |s|
    ensures Peek(s, i, "|") <==> Kind(s, i) == '|'
    ensures Peek(s, i, "&") <==> Kind(s, i) == '&'
    ensures Peek(s, i, ";") <==> Kind(s, i) == ';'
    ensures Peek(s, i, "(") <==> Kind(s, i) == '('
    ensures Peek(s, i, ")") <==> Kind(s, i) == ')'
    ensures Peek(s, i, "<>") <==> Kind(s, i) == '<' || Kind(s, i) == '>' || Kind(s, i) == '+'
    ensures Peek(s, i, "|)&;") <==> Kind(s, i) == '|' || Kind(s, i) == ')' || Kind(s, i) == '&' || Kind(s, i) == ';'
    ensures Kind(s, i) in {'\0', 'a', '|', '&', ';', '(', ')', '<', '>', '+'}
  {
  }

  /** The first of some tokens. */
  function First(items: seq<Item>): char {
    if items == [] then '\0' else if items[0].Word? then 'a' else items[0].kind
  }

  lemma FirstKind(s: string, i: nat)
    requires i <= |s|
    ensures First(Items(s, i)) == Kind(s, i)
    ensures Items(s, i) != [] ==>
      && Items(s, i)[0] == ItemOf(GetToken(s, i))
      && Items(s, i)[1..] == Items(s, GetToken(s, i).next)
  {
  }

  // ---------------------------------------------------------------- what a parse has taken

  /** From i up to pos stand the tokens y. The verifier unfolds this only where `Eye` is
      mentioned. */
  ghost predicate Takes(s: string, i: nat, y: seq<Item>, pos: nat) {
    forall key: int {:trigger Eye(key)} :: Eye(key) ==>
      i <= |s| && pos <= |s| && Items(s, i) == y + Items(s, pos)
  }

  ghost predicate Eye(key: int) {
    true
  }

  lemma TakesIs(s: string, i: nat, y: seq<Item>, pos: nat)
    requires Takes(s, i, y, pos)
    ensures i <= |s| && pos <= |s| && Items(s, i) == y + Items(s, pos)
  {
    assert Eye(0);
  }

  lemma TakesTwo(s: string, i: nat, a: seq<Item>, j: nat, b: seq<Item>, k: nat)
    requires Takes(s, i, a, j) && Takes(s, j, b, k)
    ensures Takes(s, i, a + b, k)
  {
    TakesIs(s, i, a, j);
    TakesIs(s, j, b, k);
    assert a + (b + Items(s, k)) == a + b + Items(s, k);
  }

  lemma TakesThree(s: string, i: nat, a: seq<Item>, j: nat, b: seq<Item>, k: nat, c: seq<Item>, end: nat)
    requires Takes(s, i, a, j) && Takes(s, j, b, k) && Takes(s, k, c, end)
    ensures Takes(s, i, a + b + c, end)
  {
    TakesTwo(s, i, a, j, b, k);
    TakesTwo(s, i, a + b, k, c, end);
  }

  lemma TakesNone(s: string, i: nat)
    requires i <= |s|
    ensures Takes(s, i, [], i)
  {
  }

  /** A parse may begin before white space and end after it. */
  lemma TakesAround(s: string, i: nat, y: seq<Item>, pos: nat)
    requires i <= |s| && pos <= |s|
    ensures Takes(s, Skip(s, i), y, pos) <==> Takes(s, i, y, pos)
    ensures Takes(s, i, y, Skip(s, pos)) <==> Takes(s, i, y, pos)
  {
    Skipped(s, i);
    Skipped(s, pos);
    assert Eye(0);
  }

  lemma TakesToken(s: string, i: nat)
    requires i <= |s| && Kind(s, i) != '\0'
    ensures Takes(s, i, [ItemOf(GetToken(s, i))], GetToken(s, i).next)
    ensures GetToken(s, Skip(s, i)) == GetToken(s, i)
  {
    Skipped(s, i);
  }

  // ---------------------------------------------------------------- what the parser accepts has a form

  function ModeOf(kind: char): Mode {
    if kind == '<' then In else if kind == '>' then Out else Append
  }

  lemma OneRedirect(s: string, i: nat, t: Token, f: Token)
    requires i <= |s| && Peek(s, i, "<>") && t == GetToken(s, Skip(s, i)) && f == GetToken(s, t.next) && f.kind == 'a'
    ensures Takes(s, i, PartItems(To(ModeOf(t.kind), Span(f.start, f.end))), f.next)
    ensures (t.kind != '<') == (ModeOf(t.kind) != In)
  {
    PeekKind(s, i);
    TakesToken(s, i);
    TakesToken(s, t.next);
    TakesTwo(s, i, [ItemOf(t)], t.next, [ItemOf(f)], f.next);
    assert [ItemOf(t)] + [ItemOf(f)] == PartItems(To(ModeOf(t.kind), Span(f.start, f.end)));
  }

  lemma {:induction false} RedirsForm(s: string, i: nat) returns (parts: seq<Part>)
    requires i <= |s| && Redirs(s, i).Ok?
    ensures AllTo(parts) && Files(parts) == Redirs(s, i).value && Words(parts) == []
    ensures Takes(s, i, PartsItems(parts), Redirs(s, i).pos)
    decreases |s| - i
  {
    if Peek(s, i, "<>") {
      var t := GetToken(s, Skip(s, i));
      var f := GetToken(s, t.next);
      OneRedirect(s, i, t, f);
      var p := To(ModeOf(t.kind), Span(f.start, f.end));
      var rest := RedirsForm(s, f.next);
      TakesTwo(s, i, PartItems(p), f.next, PartsItems(rest), Redirs(s, f.next).pos);
      parts := [p] + rest;
      PartsOne(p);
      PartsJoin([p], rest);
    } else {
      parts := [];
      TakesNone(s, i);
      TakesAround(s, i, [], i);
    }
  }

  /** The parts of a program, those before position i already known. */
  lemma {:induction false} ArgsForm(s: string, i0: nat, i: nat, before: seq<Part>) returns (parts: seq<Part>)
    requires i <= |s| && Takes(s, i0, PartsItems(before), i) && |Words(before)| < MAXARGS
    requires Args(s, i, Words(before), Files(before)).Ok?
    ensures var r := Args(s, i, Words(before), Files(before));
      && r.value == Wrap(Exec(Words(parts)), Files(parts)) && |Words(parts)| < MAXARGS
      && Takes(s, i0, PartsItems(parts), r.pos)
    decreases |s| - i
  {
    var t := GetToken(s, Skip(s, i));
    Skipped(s, i);
    if Peek(s, i, "|)&;") || t.kind == '\0' {
      parts := before;
      TakesIs(s, i0, PartsItems(before), i);
      TakesAround(s, i0, PartsItems(before), i);
      ArgsEnd(s, i, Words(before), Files(before));
    } else {
      var more := Redirs(s, t.next);
      var next := ArgForm(s, i0, i, before, t);
      parts := ArgsForm(s, i0, more.pos, next);
    }
  }

  lemma ArgsEnd(s: string, i: nat, argv: seq<Span>, rs: seq<Redirect>)
    requires i <= |s| && (Peek(s, i, "|)&;") || GetToken(s, Skip(s, i)).kind == '\0')
    ensures var r := Args(s, i, argv, rs);
      r == Ok(Wrap(Exec(argv), rs), r.pos) && (r.pos == Skip(s, i) || r.pos == GetToken(s, i).next)
  {
    Skipped(s, i);
  }

  lemma ArgAdded(before: seq<Part>, w: Part, more: seq<Part>)
    requires w.Arg? && AllTo(more) && Words(more) == []
    ensures Words(before + [w] + more) == Words(before) + [w.at]
    ensures Files(before + [w] + more) == Files(before) + Files(more)
    ensures PartsItems(before + [w] + more) == PartsItems(before) + PartItems(w) + PartsItems(more)
  {
    PartsOne(w);
    PartsJoin(before, [w]);
    PartsJoin(before + [w], more);
    Unit(Files(before));
    Unit(Words(before) + [w.at]);
  }

  lemma ArgForm(s: string, i0: nat, i: nat, before: seq<Part>, t: Token) returns (parts: seq<Part>)
    requires i <= |s| && Takes(s, i0, PartsItems(before), i) && t == GetToken(s, i) && t.kind == 'a'
    requires Redirs(s, t.next).Ok?
    ensures Words(parts) == Words(before) + [Span(t.start, t.end)]
    ensures Files(parts) == Files(before) + Redirs(s, t.next).value
    ensures Takes(s, i0, PartsItems(parts), Redirs(s, t.next).pos)
  {
    var w := Arg(Span(t.start, t.end));
    var more := RedirsForm(s, t.next);
    TakesToken(s, i);
    TakesThree(s, i0, PartsItems(before), i, PartItems(w), t.next, PartsItems(more), Redirs(s, t.next).pos);
    ArgAdded(before, w, more);
    parts := before + [w] + more;
  }

  /** What each parsing function has made of the tokens it took. */
  ghost predicate Parsed(s: string, i: nat, r: Parse<Cmd<Span>>, f: Form) {
    r.Ok? && Fits(f) && Tree(f) == r.value && Takes(s, i, Written(f), r.pos)
  }

  lemma {:induction false} ExecForm(s: string, i: nat) returns (f: Form)
    requires i <= |s| && ParseExec(s, i).Ok?
    ensures IsUnit(f) && Parsed(s, i, ParseExec(s, i), f)
    decreases |s| - i, 1
  {
    if Peek(s, i, "(") {
      f := BlockForm(s, Skip(s, i));
      TakesAround(s, i, Written(f), ParseExec(s, i).pos);
    } else {
      f := ProgramForm(s, i);
    }
  }

  lemma ProgramForm(s: string, i: nat) returns (f: Form)
    requires i <= |s| && !Peek(s, i, "(") && ParseExec(s, i).Ok?
    ensures f.Program? && Parsed(s, i, ParseExec(s, i), f)
  {
    var before := RedirsForm(s, Skip(s, i));
    var r := Redirs(s, Skip(s, i));
    TakesAround(s, i, PartsItems(before), r.pos);
    var parts := ArgsForm(s, i, r.pos, before);
    f := Program(parts);
  }

  lemma {:induction false} BlockForm(s: string, i: nat) returns (f: Form)
    requires i <= |s| && ParseBlock(s, i).Ok?
    ensures f.Group? && IsUnit(f) && Parsed(s, i, ParseBlock(s, i), f)
    decreases |s| - i, 0
  {
    var j := GetToken(s, Skip(s, i)).next;
    var b := LineForm(s, j);
    var p := ParseLine(s, j).pos;
    var k := GetToken(s, Skip(s, p)).next;
    var redirs := RedirsForm(s, k);
    f := Group(b, redirs);
    Enclosed(s, i, j, Written(b), p, k, PartsItems(redirs), Redirs(s, k).pos);
  }

  lemma Enclosed(s: string, i: nat, j: nat, b: seq<Item>, p: nat, k: nat, rs: seq<Item>, end: nat)
    requires i <= |s| && p <= |s| && Peek(s, i, "(") && Peek(s, p, ")")
    requires j == GetToken(s, Skip(s, i)).next && k == GetToken(s, Skip(s, p)).next
    requires Takes(s, j, b, p) && Takes(s, k, rs, end)
    ensures Takes(s, i, [Sign('(')] + b + [Sign(')')] + rs, end)
  {
    PeekKind(s, i);
    PeekKind(s, p);
    TakesToken(s, i);
    TakesToken(s, p);
    TakesTwo(s, i, [Sign('(')], j, b, p);
    TakesThree(s, i, [Sign('(')] + b, p, [Sign(')')], k, rs, end);
  }

  /** A part, the operator o and another part. */
  lemma Joined(s: string, i: nat, a: seq<Item>, p: nat, o: char, k: nat, b: seq<Item>, end: nat)
    requires p <= |s| && Kind(s, p) == o && (o == '|' || o == ';') && k == GetToken(s, Skip(s, p)).next
    requires Takes(s, i, a, p) && Takes(s, k, b, end)
    ensures Takes(s, i, a + [Sign(o)] + b, end)
  {
    TakesToken(s, p);
    TakesThree(s, i, a, p, [Sign(o)], k, b, end);
  }

  lemma {:induction false} PipeForm(s: string, i: nat) returns (f: Form)
    requires i <= |s| && ParsePipe(s, i).Ok?
    ensures IsPipe(f) && Parsed(s, i, ParsePipe(s, i), f)
    decreases |s| - i, 2
  {
    f := ExecForm(s, i);
    var c := ParseExec(s, i);
    PeekKind(s, c.pos);
    if Peek(s, c.pos, "|") {
      var k := GetToken(s, Skip(s, c.pos)).next;
      var g := PipeForm(s, k);
      Joined(s, i, Written(f), c.pos, '|', k, Written(g), ParsePipe(s, k).pos);
      f := Piped(f, g);
    } else {
      TakesAround(s, i, Written(f), c.pos);
    }
  }

  lemma {:induction false} BacksForm(s: string, i0: nat, i: nat, f0: Form) returns (f: Form)
    requires i <= |s| && IsJob(f0) && Fits(f0) && Takes(s, i0, Written(f0), i)
    ensures var (c, pos) := Backs(s, i, Tree(f0));
      IsJob(f) && Fits(f) && Tree(f) == c && Takes(s, i0, Written(f), pos)
    decreases |s| - i
  {
    PeekKind(s, i);
    TakesIs(s, i0, Written(f0), i);
    TakesAround(s, i0, Written(f0), i);
    if Peek(s, i, "&") {
      var k := GetToken(s, Skip(s, i)).next;
      TakesToken(s, i);
      TakesTwo(s, i0, Written(f0), i, [Sign('&')], k);
      f := BacksForm(s, i0, k, Spawned(f0));
    } else {
      f := f0;
    }
  }

  /** A line that ends before a ';', and one that goes on. */
  lemma LineEnds(s: string, i: nat, c: Cmd<Span>, q: nat)
    requires i <= |s| && ParsePipe(s, i).Ok? && Backs(s, ParsePipe(s, i).pos, ParsePipe(s, i).value) == (c, q)
    ensures !Peek(s, q, ";") ==> ParseLine(s, i) == Ok(c, Skip(s, q))
    ensures Peek(s, q, ";") ==>
      var d := ParseLine(s, GetToken(s, Skip(s, q)).next);
      ParseLine(s, i) == if d.Ok? then Ok(List(c, d.value), d.pos) else d
  {
  }

  /** What the parser accepts, from any position, is a line of the grammar, and its result is
      the tree of that line. */
  lemma {:induction false} LineForm(s: string, i: nat) returns (f: Form)
    requires i <= |s| && ParseLine(s, i).Ok?
    ensures IsLine(f) && Parsed(s, i, ParseLine(s, i), f)
    decreases |s| - i, 3
  {
    var p := ParsePipe(s, i);
    var g := PipeForm(s, i);
    f := BacksForm(s, i, p.pos, g);
    var (c, q) := Backs(s, p.pos, p.value);
    LineEnds(s, i, c, q);
    PeekKind(s, q);
    if Peek(s, q, ";") {
      var k := GetToken(s, Skip(s, q)).next;
      var h := LineForm(s, k);
      Joined(s, i, Written(f), q, ';', k, Written(h), ParseLine(s, k).pos);
      assert ParseLine(s, i) == Ok(List(c, Tree(h)), ParseLine(s, k).pos);
      f := Then(f, h);
    } else {
      TakesAround(s, i, Written(f), q);
      JobForm(f);
    }
  }
}
