/** How many frames it takes to map a stretch of pages, one for each page and one for each
    page table that is not there yet. */
module FramesNeeded {
  import opened Basics
  import opened PageTables

  /** The numbers of the page tables that process id has. */
  function Tabled(dirs: map<nat, Dir>, id: nat): set<nat> {
    if id in dirs then dirs[id].Keys else {}
  }

  /** dirs' has the tables of dirs, and table pd of process id. */
  ghost predicate WithTableAt(dirs: map<nat, Dir>, dirs': map<nat, Dir>, id: nat, pd: nat) {
    forall jd {:trigger Tabled(dirs', jd)} ::
      Tabled(dirs', jd) == if jd == id then Tabled(dirs, jd) + {pd} else Tabled(dirs, jd)
  }

  ghost predicate SameTables(dirs: map<nat, Dir>, dirs': map<nat, Dir>) {
    forall jd {:trigger Tabled(dirs', jd)} :: Tabled(dirs', jd) == Tabled(dirs, jd)
  }

  /** When the pages from p on are mapped in order, page w is the first in its table. */
  predicate NewTable(dirs: map<nat, Dir>, id: nat, p: nat, w: nat) {
    w / NPTENTRIES !in Tabled(dirs, id) && (w == p || w % NPTENTRIES == 0)
  }

  /** The frames it takes to map the pages from p up to w. */
  function Cost(dirs: map<nat, Dir>, id: nat, p: nat, w: nat): nat {
    if w <= p then 0 else Cost(dirs, id, p, w - 1) + 1 + if NewTable(dirs, id, p, w - 1) then 1 else 0
  }

  /** dirs' has the tables of id that mapping the pages from p up to w leaves. */
  ghost predicate TablesMade(dirs: map<nat, Dir>, dirs': map<nat, Dir>, id: nat, p: nat, w: nat) {
    forall pd: nat :: pd in Tabled(dirs', id) <==>
      pd in Tabled(dirs, id) || (p < w && p / NPTENTRIES <= pd <= (w - 1) / NPTENTRIES)
  }

  lemma SameTable(w: nat)
    requires w > 0
    ensures (w - 1) / NPTENTRIES == w / NPTENTRIES <==> w % NPTENTRIES != 0
    ensures (w - 1) / NPTENTRIES <= w / NPTENTRIES <= (w - 1) / NPTENTRIES + 1
  {
  }

  lemma TableOrder(p: nat, w: nat)
    requires p <= w
    ensures p / NPTENTRIES <= w / NPTENTRIES
  {
  }

  /** Page w finds its table there unless it is the one that pays for it. */
  lemma TableNext(dirs: map<nat, Dir>, dirs': map<nat, Dir>, id: nat, p: nat, w: nat)
    requires TablesMade(dirs, dirs', id, p, w) && p <= w
    ensures w / NPTENTRIES in Tabled(dirs', id) <==> !NewTable(dirs, id, p, w)
  {
    TableOrder(p, w);
    if p < w {
      SameTable(w);
    }
  }

  lemma TablesStep(dirs: map<nat, Dir>, dirs': map<nat, Dir>, dirs'': map<nat, Dir>, id: nat, p: nat, w: nat)
    requires TablesMade(dirs, dirs', id, p, w) && p <= w && WithTableAt(dirs', dirs'', id, w / NPTENTRIES)
    ensures TablesMade(dirs, dirs'', id, p, w + 1)
  {
    TableOrder(p, w);
    assert Tabled(dirs'', id) == Tabled(dirs', id) + {w / NPTENTRIES};
    if p < w {
      SameTable(w);
    }
  }

  /** More pages cost more frames. */
  lemma {:induction false} CostMore(dirs: map<nat, Dir>, id: nat, p: nat, w: nat, q: nat)
    requires p <= w <= q
    ensures Cost(dirs, id, p, w) + (q - w) <= Cost(dirs, id, p, q)
    decreases q
  {
    if w < q {
      CostMore(dirs, id, p, w, q - 1);
    }
  }

  /** The frames n pages take in an address space without tables. */
  function Needed(n: nat): nat {
    n + (n + NPTENTRIES - 1) / NPTENTRIES
  }

  lemma NeededStep(n: nat)
    ensures Needed(n + 1) == Needed(n) + if n % NPTENTRIES == 0 then 2 else 1
  {
    var k, r := n / NPTENTRIES, n % NPTENTRIES;
    assert n == NPTENTRIES * k + r;
  }

  lemma NeededMore(n: nat, m: nat)
    requires n <= m
    ensures Needed(n) <= Needed(m)
  {
  }

  lemma {:induction false} CostFresh(dirs: map<nat, Dir>, id: nat, n: nat)
    requires Tabled(dirs, id) == {}
    ensures Cost(dirs, id, 0, n) == Needed(n)
  {
    if n > 0 {
      CostFresh(dirs, id, n - 1);
    }
  }

  /** One frame is left for page n, which is the first in its table, exactly when the
      number of frames is one more than a multiple of 1025. */
  lemma OneLeft(frames: nat, n: nat)
    requires Needed(n) <= frames < Needed(n + 1)
    ensures n % NPTENTRIES == 0 && frames == Needed(n) + 1 <==> frames % (NPTENTRIES + 1) == 1
  {
    var k, r := n / NPTENTRIES, n % NPTENTRIES;
    assert n == NPTENTRIES * k + r;
    if r == 0 {
      assert Needed(n) == (NPTENTRIES + 1) * k && Needed(n + 1) == (NPTENTRIES + 1) * k + 2;
    } else {
      assert Needed(n) == (NPTENTRIES + 1) * k + r + 1;
      assert Needed(n + 1) == Needed(n) + 1;
    }
  }

  /** The first page from w up to q that is not present, or q. */
  function PresentTo(dirs: map<nat, Dir>, id: nat, w: nat, q: nat): (n: nat)
    ensures w <= n && (w <= q ==> n <= q) && (n < q ==> Lookup(dirs, id, n) == None)
    ensures forall x: nat {:trigger Lookup(dirs, id, x)} :: w <= x < n ==> Lookup(dirs, id, x).Some?
    decreases q - w
  {
    if w < q && Lookup(dirs, id, w).Some? then PresentTo(dirs, id, w + 1, q) else w
  }

  /** The first page from w up to q that is present, or q. */
  function AbsentTo(dirs: map<nat, Dir>, id: nat, w: nat, q: nat): (n: nat)
    ensures w <= n && (w <= q ==> n <= q) && (n < q ==> Lookup(dirs, id, n).Some?)
    ensures forall x: nat {:trigger Lookup(dirs, id, x)} :: w <= x < n ==> Lookup(dirs, id, x) == None
    decreases q - w
  {
    if w < q && Lookup(dirs, id, w).None? then AbsentTo(dirs, id, w + 1, q) else w
  }
}
