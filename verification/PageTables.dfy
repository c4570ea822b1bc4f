/** Two-level page tables and the frames they use, on values. */
module PageTables {
  import opened Basics

  type Page = seq<bv8>

  const NPTENTRIES: nat := 1024

  /** What a present page-table entry holds: a frame and its permission bits. */
  datatype Entry = Entry(frame: nat, flags: bv12)

  /** A page of page-table entries, and the frame it takes up itself. */
  datatype Table = Table(frame: nat, ptes: seq<Option<Entry>>)

  type Dir = map<nat, Table>

  /** The page directories by process, the frames `kalloc` can still give, and what is in
      each frame. */
  datatype State = State(dirs: map<nat, Dir>, free: set<nat>, pages: map<nat, Page>)

  /** What a frame in use is used for. */
  datatype Use = PageOf(id: nat, v: nat) | TableOf(id: nat, pd: nat)

  /** The entry for virtual page v, if its table is there and it is present. */
  function Lookup(dirs: map<nat, Dir>, id: nat, v: nat): Option<Entry> {
    if id in dirs && v / NPTENTRIES in dirs[id] && |dirs[id][v / NPTENTRIES].ptes| == NPTENTRIES
    then dirs[id][v / NPTENTRIES].ptes[v % NPTENTRIES] else None
  }

  /** Every frame is free, or in use by exactly one page or table, or in `hand`: taken by
      `kalloc` and not yet mapped. */
  ghost predicate Accounted(st: State, owner: map<nat, Use>, hand: set<nat>, all: set<nat>) {
    && st.free + owner.Keys + hand == all
    && st.free !! owner.Keys && st.free !! hand && owner.Keys !! hand
    && (forall f :: f in all ==> f in st.pages)
  }

  ghost predicate TablesOwned(st: State, owner: map<nat, Use>) {
    forall id, pd {:trigger st.dirs[id][pd]} :: id in st.dirs && pd in st.dirs[id] ==>
      && |st.dirs[id][pd].ptes| == NPTENTRIES
      && st.dirs[id][pd].frame in owner && owner[st.dirs[id][pd].frame] == TableOf(id, pd)
  }

  ghost predicate PagesOwned(st: State, owner: map<nat, Use>) {
    forall id, v {:trigger Lookup(st.dirs, id, v)} :: Lookup(st.dirs, id, v).Some? ==>
      var f := Lookup(st.dirs, id, v).value.frame; f in owner && owner[f] == PageOf(id, v)
  }

  ghost predicate InUse(st: State, f: nat, u: Use) {
    match u
    case PageOf(id, v) => Lookup(st.dirs, id, v).Some? && Lookup(st.dirs, id, v).value.frame == f
    case TableOf(id, pd) => id in st.dirs && pd in st.dirs[id] && st.dirs[id][pd].frame == f
  }

  ghost predicate Inv(st: State, owner: map<nat, Use>, hand: set<nat>, all: set<nat>) {
    && Accounted(st, owner, hand, all) && TablesOwned(st, owner) && PagesOwned(st, owner)
    && forall f :: f in owner ==> InUse(st, f, owner[f])
  }

  /** The invariant, which the verifier unfolds only where `Key` is mentioned. */
  ghost predicate Sound(st: State, owner: map<nat, Use>, hand: set<nat>, all: set<nat>) {
    forall key: int {:trigger Key(key)} :: Key(key) ==> Inv(st, owner, hand, all)
  }

  ghost predicate Key(key: int) {
    true
  }

  // ---------------------------------------------------------------- the stores

  function WithTable(dirs: map<nat, Dir>, id: nat, pd: nat, f: nat): map<nat, Dir>
    requires id in dirs
  {
    var dir: Dir := dirs[id][pd := Table(f, Repeat(None, NPTENTRIES))];
    dirs[id := dir]
  }

  function WithPte(dirs: map<nat, Dir>, id: nat, v: nat, e: Option<Entry>): map<nat, Dir>
    requires id in dirs && v / NPTENTRIES in dirs[id] && |dirs[id][v / NPTENTRIES].ptes| == NPTENTRIES
  {
    var t := dirs[id][v / NPTENTRIES];
    var dir: Dir := dirs[id][v / NPTENTRIES := t.(ptes := t.ptes[v % NPTENTRIES := e])];
    dirs[id := dir]
  }

  lemma SplitPage(v: nat, w: nat)
    requires v / NPTENTRIES == w / NPTENTRIES && v % NPTENTRIES == w % NPTENTRIES
    ensures v == w
  {
    assert v == v / NPTENTRIES * NPTENTRIES + v % NPTENTRIES;
    assert w == w / NPTENTRIES * NPTENTRIES + w % NPTENTRIES;
  }

  /** Storing an entry changes that entry and no other. */
  lemma PteStored(dirs: map<nat, Dir>, id: nat, v: nat, e: Option<Entry>, jd: nat, w: nat)
    requires id in dirs && v / NPTENTRIES in dirs[id] && |dirs[id][v / NPTENTRIES].ptes| == NPTENTRIES
    ensures Lookup(WithPte(dirs, id, v, e), jd, w) == if jd == id && w == v then e else Lookup(dirs, jd, w)
  {
    if jd == id && w / NPTENTRIES == v / NPTENTRIES && w % NPTENTRIES == v % NPTENTRIES {
      SplitPage(v, w);
    }
  }

  /** A new empty table where none was maps nothing. */
  lemma TableAdded(dirs: map<nat, Dir>, id: nat, pd: nat, f: nat, jd: nat, w: nat)
    requires id in dirs && pd !in dirs[id]
    ensures Lookup(WithTable(dirs, id, pd, f), jd, w) == Lookup(dirs, jd, w)
  {
  }

  // ---------------------------------------------------------------- frames

  /** `kalloc`: a free frame is taken in hand; its contents are arbitrary. */
  lemma TakeSound(st: State, owner: map<nat, Use>, hand: set<nat>, all: set<nat>, f: nat, page: Page)
    requires Sound(st, owner, hand, all) && f in st.free
    ensures Sound(st.(free := st.free - {f}, pages := st.pages[f := page]), owner, hand + {f}, all)
    ensures f !in hand && f !in owner
  {
    assert Key(0);
    var st' := st.(free := st.free - {f}, pages := st.pages[f := page]);
    assert st'.free + owner.Keys + (hand + {f}) == all;
  }

  /** `kfree` of a frame in hand. */
  lemma GiveBackSound(st: State, owner: map<nat, Use>, hand: set<nat>, all: set<nat>, f: nat)
    requires Sound(st, owner, hand, all) && f in hand
    ensures Sound(st.(free := st.free + {f}), owner, hand - {f}, all)
  {
    assert Key(0);
    assert st.free + {f} + owner.Keys + (hand - {f}) == all;
  }

  lemma TableSound(st: State, owner: map<nat, Use>, hand: set<nat>, all: set<nat>, id: nat, pd: nat, f: nat)
    requires Sound(st, owner, hand, all) && f in hand && id in st.dirs && pd !in st.dirs[id]
    ensures var st' := st.(dirs := WithTable(st.dirs, id, pd, f));
      && Sound(st', owner[f := TableOf(id, pd)], hand - {f}, all)
      && forall jd, w {:trigger Lookup(st'.dirs, jd, w)} :: Lookup(st'.dirs, jd, w) == Lookup(st.dirs, jd, w)
  {
    assert Key(0);
    var st', owner' := st.(dirs := WithTable(st.dirs, id, pd, f)), owner[f := TableOf(id, pd)];
    forall jd, w ensures Lookup(st'.dirs, jd, w) == Lookup(st.dirs, jd, w) {
      TableAdded(st.dirs, id, pd, f, jd, w);
    }
    AccountedMapped(st, owner, hand, all, f, TableOf(id, pd), st');
    TableUses(st, owner, st', id, pd, f);
  }

  lemma TableUses(st: State, owner: map<nat, Use>, st': State, id: nat, pd: nat, f: nat)
    requires TablesOwned(st, owner) && PagesOwned(st, owner) && (forall g :: g in owner ==> InUse(st, g, owner[g]))
    requires f !in owner && id in st.dirs && pd !in st.dirs[id] && st'.dirs == WithTable(st.dirs, id, pd, f)
    requires forall jd, w {:trigger Lookup(st'.dirs, jd, w)} :: Lookup(st'.dirs, jd, w) == Lookup(st.dirs, jd, w)
    ensures var owner' := owner[f := TableOf(id, pd)];
      TablesOwned(st', owner') && PagesOwned(st', owner') && forall g :: g in owner' ==> InUse(st', g, owner'[g])
  {
    var owner' := owner[f := TableOf(id, pd)];
    forall g | g in owner' ensures InUse(st', g, owner'[g]) {
      if g != f {
        assert InUse(st, g, owner[g]);
      }
    }
  }

  lemma LookupsStored(dirs: map<nat, Dir>, id: nat, v: nat, e: Option<Entry>)
    requires id in dirs && v / NPTENTRIES in dirs[id] && |dirs[id][v / NPTENTRIES].ptes| == NPTENTRIES
    ensures var dirs' := WithPte(dirs, id, v, e);
      forall jd, w {:trigger Lookup(dirs', jd, w)} ::
        Lookup(dirs', jd, w) == if jd == id && w == v then e else Lookup(dirs, jd, w)
  {
    forall jd, w
      ensures Lookup(WithPte(dirs, id, v, e), jd, w) == if jd == id && w == v then e else Lookup(dirs, jd, w)
    {
      PteStored(dirs, id, v, e, jd, w);
    }
  }

  /** Storing an entry leaves the tables where they are. */
  lemma TablesStored(st: State, owner: map<nat, Use>, st': State, owner': map<nat, Use>, id: nat, v: nat,
          e: Option<Entry>)
    requires id in st.dirs && v / NPTENTRIES in st.dirs[id] && |st.dirs[id][v / NPTENTRIES].ptes| == NPTENTRIES
    requires TablesOwned(st, owner) && st'.dirs == WithPte(st.dirs, id, v, e)
    requires forall g :: g in owner && owner[g].TableOf? ==> g in owner' && owner'[g] == owner[g]
    ensures TablesOwned(st', owner')
    ensures forall g, jd, pd :: InUse(st, g, TableOf(jd, pd)) ==> InUse(st', g, TableOf(jd, pd))
  {
    forall jd, pd {:trigger st'.dirs[jd][pd]} | jd in st'.dirs && pd in st'.dirs[jd]
      ensures |st'.dirs[jd][pd].ptes| == NPTENTRIES && st'.dirs[jd][pd].frame == st.dirs[jd][pd].frame
    {
      assert |st.dirs[jd][pd].ptes| == NPTENTRIES;
    }
  }

  /** Mapping the frame in hand at a page that is not present. */
  lemma MapSound(st: State, owner: map<nat, Use>, hand: set<nat>, all: set<nat>, id: nat, v: nat, f: nat, flags: bv12)
    requires Sound(st, owner, hand, all) && f in hand && id in st.dirs && v / NPTENTRIES in st.dirs[id]
    requires |st.dirs[id][v / NPTENTRIES].ptes| == NPTENTRIES && Lookup(st.dirs, id, v) == None
    ensures var st' := st.(dirs := WithPte(st.dirs, id, v, Some(Entry(f, flags))));
      && Sound(st', owner[f := PageOf(id, v)], hand - {f}, all)
      && forall jd, w {:trigger Lookup(st'.dirs, jd, w)} ::
        Lookup(st'.dirs, jd, w) == if jd == id && w == v then Some(Entry(f, flags)) else Lookup(st.dirs, jd, w)
  {
    assert Key(0);
    var e := Some(Entry(f, flags));
    var st', owner' := st.(dirs := WithPte(st.dirs, id, v, e)), owner[f := PageOf(id, v)];
    LookupsStored(st.dirs, id, v, e);
    TablesStored(st, owner, st', owner', id, v, e);
    AccountedMapped(st, owner, hand, all, f, PageOf(id, v), st');
    MapUses(st, owner, st', id, v, f, e);
  }

  lemma MapUses(st: State, owner: map<nat, Use>, st': State, id: nat, v: nat, f: nat, e: Option<Entry>)
    requires PagesOwned(st, owner) && (forall g :: g in owner ==> InUse(st, g, owner[g])) && f !in owner
    requires Lookup(st.dirs, id, v) == None && e.Some? && e.value.frame == f
    requires forall jd, w {:trigger Lookup(st'.dirs, jd, w)} ::
      Lookup(st'.dirs, jd, w) == if jd == id && w == v then e else Lookup(st.dirs, jd, w)
    requires forall g, jd, pd :: InUse(st, g, TableOf(jd, pd)) ==> InUse(st', g, TableOf(jd, pd))
    ensures var owner' := owner[f := PageOf(id, v)];
      PagesOwned(st', owner') && forall g :: g in owner' ==> InUse(st', g, owner'[g])
  {
    var owner' := owner[f := PageOf(id, v)];
    forall g | g in owner' ensures InUse(st', g, owner'[g]) {
      if g != f {
        assert InUse(st, g, owner[g]);
      }
    }
  }

  /** Freeing a table that maps nothing. */
  lemma TableFreed(st: State, owner: map<nat, Use>, hand: set<nat>, all: set<nat>, id: nat, pd: nat)
    requires Sound(st, owner, hand, all) && id in st.dirs && pd in st.dirs[id]
    requires forall v {:trigger Lookup(st.dirs, id, v)} :: Lookup(st.dirs, id, v) == None
    ensures var f := st.dirs[id][pd].frame;
      var st' := st.(dirs := st.dirs[id := st.dirs[id] - {pd}], free := st.free + {f});
      && f in owner && owner[f] == TableOf(id, pd) && Sound(st', owner - {f}, hand, all)
      && forall jd, w {:trigger Lookup(st'.dirs, jd, w)} :: Lookup(st'.dirs, jd, w) == Lookup(st.dirs, jd, w)
  {
    assert Key(0);
    assert |st.dirs[id][pd].ptes| == NPTENTRIES;
    var f := st.dirs[id][pd].frame;
    var st', owner' := st.(dirs := st.dirs[id := st.dirs[id] - {pd}], free := st.free + {f}), owner - {f};
    forall jd, w ensures Lookup(st'.dirs, jd, w) == Lookup(st.dirs, jd, w) {
      TableGone(st.dirs, id, pd, jd, w);
    }
    AccountedFreed(st, owner, hand, all, f, st');
    TablesLeft(st, owner, st', id, pd);
    UsesLeft(st, owner, st', id, pd);
  }

  lemma UsesLeft(st: State, owner: map<nat, Use>, st': State, id: nat, pd: nat)
    requires PagesOwned(st, owner) && id in st.dirs && pd in st.dirs[id]
    requires st.dirs[id][pd].frame in owner && owner[st.dirs[id][pd].frame] == TableOf(id, pd)
    requires st'.dirs == st.dirs[id := st.dirs[id] - {pd}] && forall g :: g in owner ==> InUse(st, g, owner[g])
    requires forall jd, w {:trigger Lookup(st'.dirs, jd, w)} :: Lookup(st'.dirs, jd, w) == Lookup(st.dirs, jd, w)
    ensures var owner' := owner - {st.dirs[id][pd].frame};
      PagesOwned(st', owner') && forall g :: g in owner' ==> InUse(st', g, owner'[g])
  {
    var f := st.dirs[id][pd].frame;
    forall g | g in owner && g != f ensures InUse(st', g, owner[g]) {
      assert InUse(st, g, owner[g]);
    }
    forall jd, v {:trigger Lookup(st'.dirs, jd, v)} | Lookup(st'.dirs, jd, v).Some?
      ensures Lookup(st.dirs, jd, v) == Lookup(st'.dirs, jd, v)
        && owner[Lookup(st.dirs, jd, v).value.frame] == PageOf(jd, v)
    {
    }
  }

  lemma TableGone(dirs: map<nat, Dir>, id: nat, pd: nat, jd: nat, w: nat)
    requires id in dirs && Lookup(dirs, id, w) == None
    ensures Lookup(dirs[id := dirs[id] - {pd}], jd, w) == Lookup(dirs, jd, w)
  {
  }

  lemma TablesLeft(st: State, owner: map<nat, Use>, st': State, id: nat, pd: nat)
    requires TablesOwned(st, owner) && id in st.dirs && pd in st.dirs[id]
    requires st'.dirs == st.dirs[id := st.dirs[id] - {pd}]
    ensures TablesOwned(st', owner - {st.dirs[id][pd].frame})
  {
    forall jd, qd {:trigger st'.dirs[jd][qd]} | jd in st'.dirs && qd in st'.dirs[jd]
      ensures |st'.dirs[jd][qd].ptes| == NPTENTRIES && st'.dirs[jd][qd] == st.dirs[jd][qd]
      ensures st.dirs[jd][qd].frame in owner && owner[st.dirs[jd][qd].frame] == TableOf(jd, qd)
    {
      assert |st.dirs[jd][qd].ptes| == NPTENTRIES;
    }
  }

  lemma AccountedFreed(st: State, owner: map<nat, Use>, hand: set<nat>, all: set<nat>, f: nat, st': State)
    requires Accounted(st, owner, hand, all) && f in owner && st'.free == st.free + {f} && st'.pages == st.pages
    ensures Accounted(st', owner - {f}, hand, all)
  {
    assert (owner - {f}).Keys == owner.Keys - {f};
    assert st.free + {f} + (owner.Keys - {f}) + hand == all;
  }

  lemma AccountedMapped(st: State, owner: map<nat, Use>, hand: set<nat>, all: set<nat>, f: nat, u: Use, st': State)
    requires Accounted(st, owner, hand, all) && f in hand && st'.free == st.free && st'.pages == st.pages
    ensures Accounted(st', owner[f := u], hand - {f}, all) && f !in owner
  {
    assert owner[f := u].Keys == owner.Keys + {f};
    assert st.free + (owner.Keys + {f}) + (hand - {f}) == all;
  }

  /** Freeing the frame of a present page and clearing its entry. */
  lemma UnmapSound(st: State, owner: map<nat, Use>, hand: set<nat>, all: set<nat>, id: nat, v: nat)
    requires Sound(st, owner, hand, all) && Lookup(st.dirs, id, v).Some?
    ensures var f := Lookup(st.dirs, id, v).value.frame;
      var st' := st.(dirs := WithPte(st.dirs, id, v, None), free := st.free + {f});
      && f in owner && f !in st.free && Sound(st', owner - {f}, hand, all)
      && forall jd, w {:trigger Lookup(st'.dirs, jd, w)} ::
        Lookup(st'.dirs, jd, w) == if jd == id && w == v then None else Lookup(st.dirs, jd, w)
  {
    assert Key(0);
    var f := Lookup(st.dirs, id, v).value.frame;
    var st', owner' := st.(dirs := WithPte(st.dirs, id, v, None), free := st.free + {f}), owner - {f};
    LookupsStored(st.dirs, id, v, None);
    TablesStored(st, owner, st', owner', id, v, None);
    AccountedFreed(st, owner, hand, all, f, st');
    UnmapUses(st, owner, st', id, v, f);
  }

  lemma UnmapUses(st: State, owner: map<nat, Use>, st': State, id: nat, v: nat, f: nat)
    requires PagesOwned(st, owner) && forall g :: g in owner ==> InUse(st, g, owner[g])
    requires Lookup(st.dirs, id, v).Some? && Lookup(st.dirs, id, v).value.frame == f
    requires forall jd, w {:trigger Lookup(st'.dirs, jd, w)} ::
      Lookup(st'.dirs, jd, w) == if jd == id && w == v then None else Lookup(st.dirs, jd, w)
    requires forall g, jd, pd :: InUse(st, g, TableOf(jd, pd)) ==> InUse(st', g, TableOf(jd, pd))
    ensures PagesOwned(st', owner - {f}) && forall g :: g in owner - {f} ==> InUse(st', g, owner[g])
  {
    forall g | g in owner - {f} ensures InUse(st', g, owner[g]) {
      assert InUse(st, g, owner[g]);
    }
  }
}
