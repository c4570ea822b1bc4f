/** The matcher of `grep`, against the language its patterns denote. A C string is the
    sequence of its characters; the terminating NUL is the end of the sequence. */
module Regexp {

  /** One character, or any number of them; '.' stands for every character. */
  datatype Item = One(c: char) | Star(c: char)

  /** `start` and `end` say that the match is anchored at that end of the text. */
  datatype Regex = Regex(start: bool, items: seq<Item>, end: bool)

  // ---------------------------------------------------------------- what a pattern means

  /** A star applies to whatever character is before it, '^', '$' and '*' included; '^' is
      an anchor only in front and '$' only as the last character. */
  function Parse(re: string): Regex {
    if |re| > 0 && re[0] == '^' then Regex(true, Items(re[1..]), Anchored(re[1..]))
    else Regex(false, Items(re), Anchored(re))
  }

  function Items(re: string): seq<Item> {
    if re == "" then []
    else if |re| > 1 && re[1] == '*' then [Star(re[0])] + Items(re[2..])
    else if re == "$" then []
    else [One(re[0])] + Items(re[1..])
  }

  predicate Anchored(re: string) {
    if re == "" then false
    else if |re| > 1 && re[1] == '*' then Anchored(re[2..])
    else if re == "$" then true
    else Anchored(re[1..])
  }

  function Print(r: Regex): string {
    (if r.start then "^" else "") + PrintItems(r.items) + if r.end then "$" else ""
  }

  function PrintItems(items: seq<Item>): string {
    if items == [] then ""
    else (if items[0].One? then [items[0].c] else [items[0].c, '*']) + PrintItems(items[1..])
  }

  /** The reading accounts for every character of the pattern. */
  lemma {:induction false} ParseComplete(re: string)
    ensures Print(Parse(re)) == re
  {
    ItemsComplete(if |re| > 0 && re[0] == '^' then re[1..] else re);
  }

  lemma {:induction false} ItemsComplete(re: string)
    ensures PrintItems(Items(re)) + (if Anchored(re) then "$" else "") == re
  {
    if |re| > 1 && re[1] == '*' {
      ItemsComplete(re[2..]);
      assert Items(re)[1..] == Items(re[2..]);
    } else if re != "" && re != "$" {
      ItemsComplete(re[1..]);
      assert Items(re)[1..] == Items(re[1..]);
    }
  }

  predicate Fits(c: char, x: char) {
    c == '.' || c == x
  }

  predicate AllFit(c: char, s: string, k: nat) {
    k <= |s| && forall i :: 0 <= i < k ==> Fits(c, s[i])
  }

  /** s is a concatenation of strings of the items, in order. */
  ghost predicate In(items: seq<Item>, s: string) {
    if items == [] then s == ""
    else if items[0].One? then s != "" && Fits(items[0].c, s[0]) && In(items[1..], s[1..])
    else exists k: nat :: AllFit(items[0].c, s, k) && In(items[1..], s[k..])
  }

  ghost predicate Cut(a: seq<Item>, b: seq<Item>, s: string, k: nat) {
    k <= |s| && In(a, s[..k]) && In(b, s[k..])
  }

  lemma InFrom(items: seq<Item>, s: string, i: nat)
    requires items != [] && AllFit(items[0].c, s, i) && (items[0].One? ==> i == 1) && In(items[1..], s[i..])
    ensures In(items, s)
  {
  }

  /** A dot is any one character, another character itself. */
  lemma OneMeans(c: char, s: string)
    ensures In([One(c)], s) <==> if c == '.' then |s| == 1 else s == [c]
  {
    assert [One(c)][1..] == [];
    if |s| == 1 {
      assert s[1..] == "" && s == [s[0]];
    }
  }

  /** The star of a dot is any string, that of another character any number of it. */
  lemma StarMeans(c: char, s: string)
    ensures In([Star(c)], s) <==> c == '.' || forall i :: 0 <= i < |s| ==> s[i] == c
  {
    assert [Star(c)][1..] == [];
    assert s[|s|..] == "";
    assert AllFit(c, s, |s|) ==> In([Star(c)], s);
  }

  lemma Slices(s: string, i: nat, m: nat)
    requires i + m <= |s|
    ensures s[i + m..] == s[i..][m..] && s[..i + m][i..] == s[i..][..m]
  {
  }

  lemma CutMore(a: seq<Item>, b: seq<Item>, s: string, i: nat, m: nat)
    requires a != [] && AllFit(a[0].c, s, i) && (a[0].One? ==> i == 1) && Cut(a[1..], b, s[i..], m)
    ensures Cut(a, b, s, i + m)
  {
    Slices(s, i, m);
    InFrom(a, s[..i + m], i);
  }

  lemma {:induction false} FindCut(a: seq<Item>, b: seq<Item>, s: string) returns (k: nat)
    requires In(a + b, s)
    ensures Cut(a, b, s, k)
  {
    if a == [] {
      assert a + b == b && s[0..] == s;
      k := 0;
    } else {
      assert (a + b)[0] == a[0] && (a + b)[1..] == a[1..] + b;
      var i: nat := 1;
      if a[0].Star? {
        i :| AllFit(a[0].c, s, i) && In(a[1..] + b, s[i..]);
      }
      var m := FindCut(a[1..], b, s[i..]);
      CutMore(a, b, s, i, m);
      k := i + m;
    }
  }

  lemma {:induction false} JoinCut(a: seq<Item>, b: seq<Item>, s: string, k: nat)
    requires Cut(a, b, s, k)
    ensures In(a + b, s)
  {
    if a == [] {
      assert a + b == b && s[0..] == s;
    } else {
      assert (a + b)[0] == a[0] && (a + b)[1..] == a[1..] + b;
      var i: nat := 1;
      if a[0].Star? {
        i :| AllFit(a[0].c, s[..k], i) && In(a[1..], s[..k][i..]);
        assert AllFit(a[0].c, s, i);
      }
      Slices(s, i, k - i);
      JoinCut(a[1..], b, s[i..], k - i);
      InFrom(a + b, s, i);
    }
  }

  /** The language of two lists of items one after the other is the concatenation of
      their languages. */
  lemma InConcat(a: seq<Item>, b: seq<Item>, s: string)
    ensures In(a + b, s) <==> exists k: nat :: Cut(a, b, s, k)
  {
    if In(a + b, s) {
      var k := FindCut(a, b, s);
      assert Cut(a, b, s, k);
    }
    if k: nat :| Cut(a, b, s, k) {
      JoinCut(a, b, s, k);
    }
  }

  /** Some stretch of the text, at the ends the anchors ask for, is in the language. */
  ghost predicate Matches(r: Regex, text: string) {
    exists i: nat, j: nat :: Stretch(r, text, i, j)
  }

  ghost predicate Stretch(r: Regex, text: string, i: nat, j: nat) {
    && i <= j <= |text| && (r.start ==> i == 0) && (r.end ==> j == |text|)
    && In(r.items, text[i..j])
  }

  // ---------------------------------------------------------------- the matcher

  /** Some prefix of the text is in the language; all of it when the pattern ends in '$'. */
  ghost predicate Here(re: string, text: string) {
    exists j: nat :: Prefix(re, text, j)
  }

  ghost predicate Prefix(re: string, text: string, j: nat) {
    j <= |text| && (Anchored(re) ==> j == |text|) && In(Items(re), text[..j])
  }

  lemma HereOne(re: string, text: string)
    requires re != "" && re != "$" && !(|re| > 1 && re[1] == '*')
    ensures Here(re, text) <==> text != "" && Fits(re[0], text[0]) && Here(re[1..], text[1..])
  {
    assert Items(re)[0] == One(re[0]) && Items(re)[1..] == Items(re[1..]);
    if text != "" {
      forall j: nat | 0 < j <= |text| ensures text[..j][1..] == text[1..][..j - 1] && text[..j][0] == text[0] {
      }
      if Here(re, text) {
        var j: nat :| Prefix(re, text, j);
        assert Prefix(re[1..], text[1..], j - 1);
      }
      if Fits(re[0], text[0]) && Here(re[1..], text[1..]) {
        var j: nat :| Prefix(re[1..], text[1..], j);
        assert text[..j + 1][1..] == text[1..][..j];
        assert Prefix(re, text, j + 1);
      }
    }
  }

  /** The text matches c*re from k characters on. */
  ghost predicate StarHere(c: char, re: string, text: string, k: nat) {
    AllFit(c, text, k) && Here(re, text[k..])
  }

  lemma HereStar(re: string, text: string)
    requires |re| > 1 && re[1] == '*'
    ensures Here(re, text) <==> exists k: nat :: StarHere(re[0], re[2..], text, k)
  {
    assert Items(re)[0] == Star(re[0]) && Items(re)[1..] == Items(re[2..]);
    if Here(re, text) {
      var j: nat :| Prefix(re, text, j);
      var k: nat :| AllFit(re[0], text[..j], k) && In(Items(re[2..]), text[..j][k..]);
      assert text[..j][k..] == text[k..][..j - k];
      assert Prefix(re[2..], text[k..], j - k);
      assert AllFit(re[0], text, k);
      assert StarHere(re[0], re[2..], text, k);
    }
    if k: nat :| StarHere(re[0], re[2..], text, k) {
      var j: nat :| Prefix(re[2..], text[k..], j);
      assert text[..k + j][k..] == text[k..][..j];
      assert AllFit(re[0], text[..k + j], k);
      assert Prefix(re, text, k + j);
    }
  }

  /** matchhere: search for re at the beginning of the text. */
  method MatchHere(re: string, text: string) returns (r: bool)
    ensures r <==> Here(re, text)
    decreases |re|, 0
  {
    if re == "" {
      assert text[..0] == "" && Prefix(re, text, 0);
      return true;
    }
    if |re| > 1 && re[1] == '*' {
      HereStar(re, text);
      r := MatchStar(re[0], re[2..], text);
      return;
    }
    if re == "$" {
      assert Here(re, text) <==> Prefix(re, text, |text|);
      return text == "";
    }
    HereOne(re, text);
    if text != "" && (re[0] == '.' || re[0] == text[0]) {
      r := MatchHere(re[1..], text[1..]);
      return;
    }
    return false;
  }

  /** matchstar: search for c*re at the beginning of the text. */
  method MatchStar(c: char, re: string, text: string) returns (r: bool)
    ensures r <==> exists k: nat :: StarHere(c, re, text, k)
    decreases |re|, 1
  {
    var t := text;
    ghost var k := 0;
    while true
      invariant k <= |text| && t == text[k..] && AllFit(c, text, k)
      invariant forall i: nat :: i < k ==> !StarHere(c, re, text, i)
      decreases |t|
    {
      var here := MatchHere(re, t);
      if here {
        assert StarHere(c, re, text, k);
        return true;
      }
      if t == "" || !(t[0] == c || c == '.') {
        assert forall i: nat :: i > k ==> !AllFit(c, text, i);
        return false;
      }
      t, k := t[1..], k + 1;
    }
  }

  /** match: search for re anywhere in the text. */
  method Match(re: string, text: string) returns (r: bool)
    ensures r <==> Matches(Parse(re), text)
  {
    if |re| > 0 && re[0] == '^' {
      r := MatchHere(re[1..], text);
      HereAt(re, text, 0);
      assert text[0..] == text;
      return;
    }
    var t := text;
    ghost var k := 0;
    while true
      invariant k <= |text| && t == text[k..]
      invariant forall i: nat :: i < k ==> !Here(re, text[i..])
      decreases |t|
    {
      var here := MatchHere(re, t);
      HereAt(re, text, k);
      if here {
        return true;
      }
      if t == "" {
        if i: nat, j: nat :| Stretch(Parse(re), text, i, j) {
          HereAt(re, text, i);
        }
        return false;
      }
      t, k := t[1..], k + 1;
    }
  }

  lemma HereAt(re: string, text: string, i: nat)
    requires i <= |text| && ((|re| > 0 && re[0] == '^') ==> i == 0)
    ensures var body := if |re| > 0 && re[0] == '^' then re[1..] else re;
      Here(body, text[i..]) <==> exists j: nat :: Stretch(Parse(re), text, i, j)
  {
    var body := if |re| > 0 && re[0] == '^' then re[1..] else re;
    if Here(body, text[i..]) {
      var j: nat :| Prefix(body, text[i..], j);
      assert text[i..][..j] == text[i..i + j];
      assert Stretch(Parse(re), text, i, i + j);
    }
    if j: nat :| Stretch(Parse(re), text, i, j) {
      assert text[i..][..j - i] == text[i..j];
      assert Prefix(body, text[i..], j - i);
    }
  }
}
