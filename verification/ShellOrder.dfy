/** What the tree of a line has to do with its tokens: nothing is lost, made up or moved but
    redirections, which come after the program they redirect, and without parentheses `|`
    binds tighter than `&` and `&` tighter than `;`. */
module ShellOrder {
  import opened ShellGrammar
  import opened ShellTokens

  // ---------------------------------------------------------------- the order of words and operators

  function WordItems(argv: seq<Span>): (items: seq<Item>)
    ensures |items| == |argv| && forall k :: 0 <= k < |argv| ==> items[k] == Word(argv[k])
  {
    if argv == [] then [] else [Word(argv[0])] + WordItems(argv[1..])
  }

  function RedirItems(rs: seq<Redirect>): seq<Item> {
    if rs == [] then [] else [Sign(if rs[0].out then '>' else '<'), Word(rs[0].file)] + RedirItems(rs[1..])
  }

  /** The words and operators of a tree from left to right. */
  function InOrder(c: Cmd<Span>): seq<Item> {
    match c
    case Exec(argv) => WordItems(argv)
    case Redir(d, file, out) => InOrder(d) + [Sign(if out then '>' else '<'), Word(file)]
    case Pipe(l, r) => InOrder(l) + [Sign('|')] + InOrder(r)
    case List(l, r) => InOrder(l) + [Sign(';')] + InOrder(r)
    case Back(d) => InOrder(d) + [Sign('&')]
  }

  predicate IsRedirect(it: Item) {
    it.Sign? && (it.kind == '<' || it.kind == '>' || it.kind == '+')
  }

  function Plain(kind: char): char {
    if kind == '+' then '>' else kind
  }

  /** The tokens with the redirections of each program, in order, moved behind its words,
      `>>` as `>`, and the parentheses left out. `ws` and `rs` hold what has been met of the
      program at hand. */
  function Settled(items: seq<Item>, ws: seq<Item>, rs: seq<Item>): seq<Item> {
    if items == [] then ws + rs
    else if items[0].Word? then Settled(items[1..], ws + [items[0]], rs)
    else if IsRedirect(items[0]) && |items| > 1 then
      Settled(items[2..], ws, rs + [Sign(Plain(items[0].kind)), items[1]])
    else
      ws + rs + Visible(items[0]) + Settled(items[1..], [], [])
  }

  function Visible(it: Item): seq<Item> {
    if it == Sign('(') || it == Sign(')') then [] else [it]
  }

  lemma {:induction false} WrapOrder(c: Cmd<Span>, rs: seq<Redirect>)
    ensures InOrder(Wrap(c, rs)) == InOrder(c) + RedirItems(rs)
    decreases |rs|
  {
    if rs == [] {
      Unit(InOrder(c));
    } else {
      WrapOrder(Redir(c, rs[0].file, rs[0].out), rs[1..]);
      Assoc(InOrder(c), [Sign(if rs[0].out then '>' else '<'), Word(rs[0].file)], RedirItems(rs[1..]));
    }
  }

  /** An operator other than a redirection comes next, or nothing. */
  predicate Flushes(rest: seq<Item>) {
    rest == [] || (rest[0].Sign? && !IsRedirect(rest[0]))
  }

  lemma Flush(ws: seq<Item>, rs: seq<Item>, rest: seq<Item>)
    requires Flushes(rest)
    ensures Settled(rest, ws, rs) == ws + rs + Settled(rest, [], [])
  {
    if rest == [] {
      assert [] + [] == Settled(rest, [], []);
      Unit(ws + rs);
    } else {
      Assoc(ws + rs, Visible(rest[0]), Settled(rest[1..], [], []));
      assert [] + [] + Visible(rest[0]) == Visible(rest[0]);
    }
  }

  lemma PartSettled(p: Part, more: seq<Item>, ws: seq<Item>, rs: seq<Item>)
    ensures Settled(PartItems(p) + more, ws, rs) ==
      Settled(more, ws + WordItems(Words([p])), rs + RedirItems(Files([p])))
  {
    var all := PartItems(p) + more;
    PartsOne(p);
    match p
    case Arg(w) =>
      assert all[1..] == more && WordItems([w]) == [Word(w)];
      Unit(rs);
    case To(m, file) =>
      assert all[2..] == more && all[0] == ModeSign(m) && all[1] == Word(file);
      RedirOne(Redirect(file, m != In));
      Unit(ws);
  }

  lemma RedirOne(r: Redirect)
    ensures RedirItems([r]) == [Sign(if r.out then '>' else '<'), Word(r.file)]
  {
    assert [r][1..] == [];
  }

  lemma {:induction false} RedirJoin(a: seq<Redirect>, b: seq<Redirect>)
    ensures RedirItems(a + b) == RedirItems(a) + RedirItems(b)
  {
    if a == [] {
      assert a + b == b;
    } else {
      assert (a + b)[1..] == a[1..] + b;
      RedirJoin(a[1..], b);
    }
  }

  /** The parts of a program settle into its words and then its redirections. */
  lemma {:induction false} PartsSettled(parts: seq<Part>, rest: seq<Item>, ws: seq<Item>, rs: seq<Item>)
    requires Flushes(rest)
    ensures Settled(PartsItems(parts) + rest, ws, rs) ==
      ws + WordItems(Words(parts)) + (rs + RedirItems(Files(parts))) + Settled(rest, [], [])
  {
    if parts == [] {
      assert [] + rest == rest;
      Unit(ws);
      Unit(rs);
      Flush(ws, rs, rest);
    } else {
      var p, more := parts[0], parts[1..];
      Assoc(PartItems(p), PartsItems(more), rest);
      PartSettled(p, PartsItems(more) + rest, ws, rs);
      var w, r := WordItems(Words([p])), RedirItems(Files([p]));
      PartsSettled(more, rest, ws + w, rs + r);
      FirstPart(parts);
      Assoc(ws, w, WordItems(Words(more)));
      Assoc(rs, r, RedirItems(Files(more)));
    }
  }

  lemma FirstPart(parts: seq<Part>)
    requires parts != []
    ensures WordItems(Words(parts)) == WordItems(Words([parts[0]])) + WordItems(Words(parts[1..]))
    ensures RedirItems(Files(parts)) == RedirItems(Files([parts[0]])) + RedirItems(Files(parts[1..]))
  {
    assert [parts[0]] + parts[1..] == parts;
    PartsJoin([parts[0]], parts[1..]);
    RedirJoin(Files([parts[0]]), Files(parts[1..]));
    WordJoin(Words([parts[0]]), Words(parts[1..]));
  }

  lemma WordJoin(a: seq<Span>, b: seq<Span>)
    ensures WordItems(a + b) == WordItems(a) + WordItems(b)
  {
  }

  /** The tokens of the form, followed by rest, settle into the tree's and then the rest's. */
  ghost predicate Settles(f: Form, rest: seq<Item>) {
    Settled(Written(f) + rest, [], []) == InOrder(Tree(f)) + Settled(rest, [], [])
  }

  lemma SignSettled(o: char, rest: seq<Item>)
    requires !IsRedirect(Sign(o))
    ensures Flushes([Sign(o)] + rest)
    ensures Settled([Sign(o)] + rest, [], []) == Visible(Sign(o)) + Settled(rest, [], [])
  {
    assert ([Sign(o)] + rest)[1..] == rest;
    assert [] + [] + Visible(Sign(o)) == Visible(Sign(o));
  }

  lemma ProgramSettles(parts: seq<Part>, rest: seq<Item>)
    requires Flushes(rest)
    ensures Settles(Program(parts), rest)
  {
    PartsSettled(parts, rest, [], []);
    WrapOrder(Exec(Words(parts)), Files(parts));
    assert [] + WordItems(Words(parts)) == WordItems(Words(parts));
    assert [] + RedirItems(Files(parts)) == RedirItems(Files(parts));
  }

  /** A group: what is inside, then its redirections. */
  lemma GroupSettles(b: Form, redirs: seq<Part>, rest: seq<Item>)
    requires AllTo(redirs) && Flushes(rest) && Settles(b, [Sign(')')] + (PartsItems(redirs) + rest))
    ensures Settles(Group(b, redirs), rest)
  {
    var after := [Sign(')')] + (PartsItems(redirs) + rest);
    Regroup(Written(b), PartsItems(redirs), rest);
    SignSettled('(', Written(b) + after);
    SignSettled(')', PartsItems(redirs) + rest);
    PartsSettled(redirs, rest, [], []);
    NoWordsIn(redirs);
    WrapOrder(Tree(b), Files(redirs));
    var rs, end := RedirItems(Files(redirs)), Settled(rest, [], []);
    assert [] + [] + ([] + rs) == rs;
    Empty(Settled(Written(b) + after, [], []));
    Empty(rs + end);
    Assoc(InOrder(Tree(b)), rs, end);
  }

  lemma Empty(a: seq<Item>)
    ensures [] + a == a
  {
  }

  lemma Regroup(b: seq<Item>, rs: seq<Item>, rest: seq<Item>)
    ensures [Sign('(')] + b + [Sign(')')] + rs + rest == [Sign('(')] + (b + ([Sign(')')] + (rs + rest)))
  {
  }

  lemma {:induction false} NoWordsIn(parts: seq<Part>)
    requires AllTo(parts)
    ensures Words(parts) == []
  {
    if parts != [] {
      NoWordsIn(parts[1..]);
    }
  }

  /** Two forms with an operator between them. */
  lemma TwoSettle(l: Form, o: char, r: Form, rest: seq<Item>)
    requires o == '|' || o == ';'
    requires Settles(l, [Sign(o)] + (Written(r) + rest)) && Settles(r, rest)
    ensures Settled(Written(l) + [Sign(o)] + Written(r) + rest, [], []) ==
      InOrder(Tree(l)) + [Sign(o)] + InOrder(Tree(r)) + Settled(rest, [], [])
  {
    Regroup4(Written(l), [Sign(o)], Written(r), rest);
    SignSettled(o, Written(r) + rest);
    Regroup4(InOrder(Tree(l)), [Sign(o)], InOrder(Tree(r)), Settled(rest, [], []));
  }

  lemma Regroup4(a: seq<Item>, b: seq<Item>, c: seq<Item>, d: seq<Item>)
    ensures a + b + c + d == a + (b + (c + d))
  {
  }

  lemma BackSettles(b: Form, rest: seq<Item>)
    requires Settles(b, [Sign('&')] + rest)
    ensures Settles(Spawned(b), rest)
  {
    Assoc(Written(b), [Sign('&')], rest);
    SignSettled('&', rest);
    Assoc(InOrder(Tree(b)), [Sign('&')], Settled(rest, [], []));
  }

  lemma {:induction false} UnitSettles(f: Form, rest: seq<Item>)
    requires IsUnit(f) && Flushes(rest)
    ensures Settles(f, rest)
    decreases f, 0
  {
    match f
    case Program(parts) => ProgramSettles(parts, rest);
    case Group(b, redirs) =>
      LineSettles(b, [Sign(')')] + (PartsItems(redirs) + rest));
      GroupSettles(b, redirs, rest);
    case _ =>
  }

  lemma {:induction false} PipeSettles(f: Form, rest: seq<Item>)
    requires IsPipe(f) && Flushes(rest)
    ensures Settles(f, rest)
    decreases f, 1
  {
    if f.Piped? {
      UnitSettles(f.left, [Sign('|')] + (Written(f.right) + rest));
      PipeSettles(f.right, rest);
      TwoSettle(f.left, '|', f.right, rest);
    } else {
      UnitSettles(f, rest);
    }
  }

  lemma {:induction false} JobSettles(f: Form, rest: seq<Item>)
    requires IsJob(f) && Flushes(rest)
    ensures Settles(f, rest)
    decreases f, 2
  {
    if f.Spawned? {
      JobSettles(f.body, [Sign('&')] + rest);
      BackSettles(f.body, rest);
    } else {
      PipeSettles(f, rest);
    }
  }

  lemma {:induction false} LineSettles(f: Form, rest: seq<Item>)
    requires IsLine(f) && Flushes(rest)
    ensures Settles(f, rest)
    decreases f, 3
  {
    if f.Then? {
      JobSettles(f.left, [Sign(';')] + (Written(f.right) + rest));
      LineSettles(f.right, rest);
      TwoSettle(f.left, ';', f.right, rest);
    } else {
      JobSettles(f, rest);
    }
  }

  /** The words and operators of an accepted line's tree, read from left to right, are the
      tokens of the line in their order, but for the parentheses and with the redirections of
      each program after its words. */
  lemma NothingLostOrAdded(s: string)
    requires ParseCmd(s).Ok?
    ensures InOrder(ParseCmd(s).value) == Settled(Items(s, 0), [], [])
  {
    var f := WholeForm(s);
    LineSettles(f, []);
    Unit(Written(f));
    Unit(InOrder(Tree(f)));
    assert Settled([], [], []) == [];
  }

  lemma WholeForm(s: string) returns (f: Form)
    requires ParseCmd(s).Ok?
    ensures IsLine(f) && Tree(f) == ParseCmd(s).value && Written(f) == Items(s, 0)
  {
    f := LineForm(s, 0);
    var r := ParseLine(s, 0);
    TakesIs(s, 0, Written(f), r.pos);
    assert Items(s, r.pos) == [] by {
      assert Skip(s, r.pos) == |s|;
    }
    Unit(Written(f));
  }

  // ---------------------------------------------------------------- grouping without parentheses

  /** One program in its redirections. */
  predicate FlatProgram(c: Cmd<Span>) {
    match c
    case Exec(_) => true
    case Redir(d, _, _) => FlatProgram(d)
    case _ => false
  }

  /** Programs joined by `|`, grouped to the right. */
  predicate FlatPipe(c: Cmd<Span>) {
    if c.Pipe? then FlatProgram(c.left) && FlatPipe(c.right) else FlatProgram(c)
  }

  /** Each `&` takes the whole pipeline. */
  predicate FlatJob(c: Cmd<Span>) {
    if c.Back? then FlatJob(c.cmd) else FlatPipe(c)
  }

  /** Jobs joined by `;`, grouped to the right. */
  predicate FlatLine(c: Cmd<Span>) {
    if c.List? then FlatJob(c.left) && FlatLine(c.right) else FlatJob(c)
  }

  lemma {:induction false} WrapFlat(c: Cmd<Span>, rs: seq<Redirect>)
    requires FlatProgram(c)
    ensures FlatProgram(Wrap(c, rs))
    decreases |rs|
  {
    if rs != [] {
      WrapFlat(Redir(c, rs[0].file, rs[0].out), rs[1..]);
    }
  }

  lemma GroupOpens(f: Form)
    ensures f.Group? ==> Sign('(') in Written(f)
  {
    if f.Group? {
      assert Written(f)[0] == Sign('(');
    }
  }

  lemma UnitFlat(f: Form)
    requires IsUnit(f) && Sign('(') !in Written(f)
    ensures f.Program? && FlatProgram(Tree(f))
  {
    GroupOpens(f);
    WrapFlat(Exec(Words(f.parts)), Files(f.parts));
  }

  lemma {:induction false} PipeFlat(f: Form)
    requires IsPipe(f) && Sign('(') !in Written(f)
    ensures FlatPipe(Tree(f))
  {
    if f.Piped? {
      assert forall it :: it in Written(f.left) || it in Written(f.right) ==> it in Written(f);
      UnitFlat(f.left);
      PipeFlat(f.right);
    } else {
      UnitFlat(f);
      NotPiped(Tree(f));
    }
  }

  lemma NotPiped(c: Cmd<Span>)
    requires FlatProgram(c)
    ensures !c.Pipe? && !c.Back? && !c.List?
  {
  }

  lemma {:induction false} JobFlat(f: Form)
    requires IsJob(f) && Sign('(') !in Written(f)
    ensures FlatJob(Tree(f)) && !Tree(f).List?
  {
    if f.Spawned? {
      assert forall it :: it in Written(f.body) ==> it in Written(f);
      JobFlat(f.body);
    } else {
      PipeFlat(f);
      if !Tree(f).Pipe? {
        NotPiped(Tree(f));
      }
    }
  }

  lemma {:induction false} LineFlat(f: Form)
    requires IsLine(f) && Sign('(') !in Written(f)
    ensures FlatLine(Tree(f))
  {
    if f.Then? {
      assert forall it :: it in Written(f.left) || it in Written(f.right) ==> it in Written(f);
      JobFlat(f.left);
      LineFlat(f.right);
    } else {
      JobFlat(f);
    }
  }

  /** Without parentheses the tree is a list of jobs, each a pipeline of programs, whatever
      white space stands between the tokens. */
  lemma Grouping(s: string)
    requires ParseCmd(s).Ok? && Sign('(') !in Items(s, 0)
    ensures FlatLine(ParseCmd(s).value)
  {
    var f := WholeForm(s);
    LineFlat(f);
  }
}
