/** Growing, shrinking and copying a process's address space: page tables and frames
    updated in place. */
module AddressSpace {
  import opened Basics
  import opened FramesNeeded
  import opened PageTables

  const PGSIZE: nat := 4096
  const KERNBASE: nat := 0x8000_0000
  const NPDENTRIES: nat := 1024
  const SPAN: nat := NPTENTRIES * PGSIZE

  /** PGROUNDUP. */
  function RoundUp(sz: nat): (a: nat)
    ensures a == Pages(sz) * PGSIZE && sz <= a < sz + PGSIZE
  {
    (sz + PGSIZE - 1) / PGSIZE * PGSIZE
  }

  /** The number of pages that begin below sz. */
  function Pages(sz: nat): nat {
    (sz + PGSIZE - 1) / PGSIZE
  }

  /** The user permissions PTE_W | PTE_U. */
  const USER: bv12 := 6

  /** What `mappages` comes to for one page: `Remap` is its panic. */
  datatype Mapping = Mapped | NoMemory | Remap

  datatype Growth = Size(n: nat) | Panic

  datatype Copy = Copied | OutOfMemory | Panicked

  class Machine {
    var dirs: map<nat, Dir>
    var free: set<nat>
    var pages: map<nat, Page>
    ghost var owner: map<nat, Use>
    /** The frames taken and not mapped yet, and all the frames there are. */
    ghost var hand: set<nat>
    ghost const all: set<nat>

    function View(): State
      reads this
    {
      State(dirs, free, pages)
    }

    /** Every frame is free, in hand, or in use once; frame 0 is not `kalloc`'s to give. */
    ghost predicate Holding()
      reads this
    {
      Sound(View(), owner, hand, all) && 0 !in all
    }

    ghost predicate Valid()
      reads this
    {
      Holding() && hand == {}
    }

    /** What `kinit` leaves: all frames free and filled with ones; the processes in `ids`
        have nothing mapped. */
    constructor (frames: set<nat>, ids: set<nat>)
      requires 0 !in frames
      ensures Valid() && free == frames == all && dirs.Keys == ids && owner == map[]
      ensures forall id :: id in ids ==> dirs[id] == map[]
    {
      dirs := map id | id in ids :: map[];
      free := frames;
      pages := map f | f in frames :: Repeat(1, PGSIZE);
      owner, hand, all := map[], {}, frames;
    }

    /** All entries of all processes are as they were. */
    twostate predicate SameEntries()
      reads this
    {
      forall jd, w {:trigger Lookup(dirs, jd, w)} :: Lookup(dirs, jd, w) == Lookup(old(dirs), jd, w)
    }

    method Kalloc() returns (r: Option<nat>)
      requires Holding()
      modifies `free, `hand
      ensures Holding()
      ensures r.None? ==> free == {} && free == old(free) && hand == old(hand)
      ensures r.Some? ==> r.value in old(free) && free == old(free) - {r.value} && hand == old(hand) + {r.value}
      ensures r.Some? ==> r.value !in old(hand) && r.value !in owner && r.value in pages
    {
      if free == {} {
        return None;
      }
      var f :| f in free;
      FrameThere(View(), owner, hand, all, f);
      TakeSound(View(), owner, hand, all, f, pages[f]);
      assert pages[f := pages[f]] == pages;
      free, hand := free - {f}, hand + {f};
      r := Some(f);
    }

    /** `kfree` of a frame that is not mapped: it is filled with ones. */
    method Kfree(f: nat)
      requires Holding() && f in hand
      modifies `free, `hand, `pages
      ensures Holding() && free == old(free) + {f} && hand == old(hand) - {f}
      ensures pages == old(pages)[f := Repeat(1, PGSIZE)]
    {
      GiveBackSound(View(), owner, hand, all, f);
      free, hand := free + {f}, hand - {f};
      FillSound(View(), owner, hand, all, f, Repeat(1, PGSIZE));
      pages := pages[f := Repeat(1, PGSIZE)];
    }

    /** `walkpgdir` that makes no table: whether the table for page w is there. */
    method Find(id: nat, w: nat) returns (found: bool)
      requires Holding() && id in dirs
      ensures found <==> w / NPTENTRIES in dirs[id]
      ensures found ==> |dirs[id][w / NPTENTRIES].ptes| == NPTENTRIES
    {
      found := w / NPTENTRIES in dirs[id];
      if found {
        TableThere(View(), owner, hand, all, id, w / NPTENTRIES);
      }
    }

    /** `walkpgdir` that makes the table for page w when it is not there, which fails only
        when no frame is free. */
    method Walk(id: nat, w: nat) returns (found: bool)
      requires Holding() && id in dirs
      modifies `dirs, `free, `owner, `pages, `hand
      ensures Holding() && SameEntries() && hand == old(hand) && dirs.Keys == old(dirs.Keys)
      ensures found <==> w / NPTENTRIES in Tabled(old(dirs), id) || old(free) != {}
      ensures found ==> w / NPTENTRIES in dirs[id] && |dirs[id][w / NPTENTRIES].ptes| == NPTENTRIES
      ensures !found || w / NPTENTRIES in Tabled(old(dirs), id) ==> View() == old(View()) && owner == old(owner)
      ensures found ==> WithTableAt(old(dirs), dirs, id, w / NPTENTRIES)
      ensures found && w / NPTENTRIES !in Tabled(old(dirs), id) ==> |free| == |old(free)| - 1
      ensures free <= old(free) && Untouched(old(View()), old(owner), View(), owner)
      ensures forall f :: f in hand ==> f in old(pages) && f in pages && pages[f] == old(pages)[f]
    {
      HandThere(View(), owner, hand, all);
      AllThere(View(), owner, hand, all);
      found := Find(id, w);
      if !found {
        found := MakeTable(id, w / NPTENTRIES);
      }
    }

    method MakeTable(id: nat, pd: nat) returns (made: bool)
      requires Holding() && id in dirs && pd !in dirs[id]
      modifies `dirs, `free, `owner, `pages, `hand
      ensures Holding() && SameEntries() && hand == old(hand) && dirs.Keys == old(dirs.Keys)
      ensures made <==> old(free) != {}
      ensures if made then pd in dirs[id] && |dirs[id][pd].ptes| == NPTENTRIES && |free| == |old(free)| - 1
              else View() == old(View()) && owner == old(owner)
      ensures made ==> WithTableAt(old(dirs), dirs, id, pd)
      ensures free <= old(free) && Untouched(old(View()), old(owner), View(), owner)
      ensures forall f :: f in hand ==> f in old(pages) && f in pages && pages[f] == old(pages)[f]
    {
      HandThere(View(), owner, hand, all);
      AllThere(View(), owner, hand, all);
      var f := Kalloc();
      made := f.Some?;
      if made {
        PutTable(id, pd, f.value);
      }
    }

    /** The frame in hand becomes table pd of id, with no entries. */
    method PutTable(id: nat, pd: nat, f: nat)
      requires Holding() && id in dirs && pd !in dirs[id] && f in hand
      modifies `dirs, `owner, `pages, `hand
      ensures Holding() && SameEntries() && hand == old(hand) - {f} && dirs.Keys == old(dirs.Keys)
      ensures pd in dirs[id] && |dirs[id][pd].ptes| == NPTENTRIES && WithTableAt(old(dirs), dirs, id, pd)
      ensures f !in old(owner) && owner == old(owner)[f := TableOf(id, pd)]
        && pages == old(pages)[f := Repeat(0, PGSIZE)]
    {
      AllThere(View(), owner, hand, all);
      FillSound(View(), owner, hand, all, f, Repeat(0, PGSIZE));
      pages := pages[f := Repeat(0, PGSIZE)];
      TableSound(View(), owner, hand, all, id, pd, f);
      dirs := WithTable(dirs, id, pd, f);
      owner := owner[f := TableOf(id, pd)];
      hand := hand - {f};
    }

    /** The frame in hand goes into the entry for page w, which is not present. */
    method PutEntry(id: nat, w: nat, f: nat, flags: bv12)
      requires Holding() && id in dirs && f in hand && Lookup(dirs, id, w) == None
      requires w / NPTENTRIES in dirs[id] && |dirs[id][w / NPTENTRIES].ptes| == NPTENTRIES
      modifies `dirs, `owner, `hand
      ensures Holding() && dirs.Keys == old(dirs.Keys) && SameTables(old(dirs), dirs)
      ensures f !in old(owner) && owner == old(owner)[f := PageOf(id, w)] && hand == old(hand) - {f}
      ensures forall jd, x {:trigger Lookup(dirs, jd, x)} ::
        Lookup(dirs, jd, x) == if jd == id && x == w then Some(Entry(f, flags)) else Lookup(old(dirs), jd, x)
    {
      AllThere(View(), owner, hand, all);
      MapSound(View(), owner, hand, all, id, w, f, flags);
      dirs := WithPte(dirs, id, w, Some(Entry(f, flags)));
      owner := owner[f := PageOf(id, w)];
      hand := hand - {f};
    }

    /** `mappages` for one page and the frame in hand. It panics exactly when the page is
        present, and fails exactly when the page's table is missing and no frame is free;
        then nothing has changed. */
    method MapPage(id: nat, w: nat, f: nat, flags: bv12) returns (r: Mapping)
      requires Holding() && id in dirs && f in hand
      modifies `dirs, `free, `owner, `pages, `hand
      ensures Holding() && dirs.Keys == old(dirs.Keys) && free <= old(free)
      ensures r == Remap <==> Lookup(old(dirs), id, w).Some?
      ensures r == NoMemory <==> w / NPTENTRIES !in Tabled(old(dirs), id) && old(free) == {}
      ensures r != Mapped ==> View() == old(View()) && owner == old(owner) && hand == old(hand)
      ensures Untouched(old(View()), old(owner), View(), owner)
      ensures r == Mapped ==> hand == old(hand) - {f} && f in pages && f in old(pages) && pages[f] == old(pages)[f]
      ensures r == Mapped ==> forall jd, x {:trigger Lookup(dirs, jd, x)} ::
        Lookup(dirs, jd, x) == if jd == id && x == w then Some(Entry(f, flags)) else Lookup(old(dirs), jd, x)
      ensures r == Mapped ==> WithTableAt(old(dirs), dirs, id, w / NPTENTRIES)
      ensures r == Mapped ==> |free| == |old(free)| - if w / NPTENTRIES in Tabled(old(dirs), id) then 0 else 1
    {
      AllThere(View(), owner, hand, all);
      var table := Walk(id, w);
      if !table {
        return NoMemory;
      }
      if Lookup(dirs, id, w).Some? {
        return Remap;
      }
      ghost var st, own := View(), owner;
      PutEntry(id, w, f, flags);
      UntouchedPut(old(View()), old(owner), st, own, View(), owner, f, PageOf(id, w));
      r := Mapped;
    }

    /** One page of `deallocuvm`: its frame is freed and its entry cleared. */
    method UnmapPage(id: nat, w: nat)
      requires Holding() && id in dirs && Lookup(dirs, id, w).Some?
      modifies `dirs, `free, `owner, `pages
      ensures Holding() && dirs.Keys == old(dirs.Keys) && SameTables(old(dirs), dirs)
      ensures var f := Lookup(old(dirs), id, w).value.frame;
        f in old(owner) && free == old(free) + {f} && owner == old(owner) - {f}
          && pages == old(pages)[f := Repeat(1, PGSIZE)]
      ensures forall jd, x {:trigger Lookup(dirs, jd, x)} ::
        Lookup(dirs, jd, x) == if jd == id && x == w then None else Lookup(old(dirs), jd, x)
    {
      var f := Lookup(dirs, id, w).value.frame;
      UnmapSound(View(), owner, hand, all, id, w);
      free := free + {f};
      dirs := WithPte(dirs, id, w, None);
      owner := owner - {f};
      FillSound(View(), owner, hand, all, f, Repeat(1, PGSIZE));
      pages := pages[f := Repeat(1, PGSIZE)];
    }

    /** One turn of `deallocuvm`'s loop, at page w: the page is unmapped if present, and a
        missing table is jumped over. */
    method Turn(id: nat, a: nat, ghost w: nat, ghost q: nat) returns (b: nat, ghost x: nat)
      requires Holding() && id in dirs && a == w * PGSIZE && w < q
      modifies `dirs, `free, `owner, `pages, `hand
      ensures Holding() && hand == old(hand) && dirs.Keys == old(dirs.Keys) && b == x * PGSIZE && w < x
      ensures SameTables(old(dirs), dirs)
      ensures Unmapped(old(View()), old(owner), View(), owner, id, w, Min(x, q))
    {
      UnmappedNone(View(), owner, hand, all, id, w, w);
      x := w + 1;
      var table := Find(id, a / PGSIZE);
      if !table {
        Jump(dirs, id, w);
        x := (w / NPTENTRIES + 1) * NPTENTRIES;
        UnmappedOver(View(), owner, View(), owner, hand, all, id, w, w, Min(x, q));
        b := (a / PGSIZE / NPTENTRIES + 1) * SPAN - PGSIZE + PGSIZE;
      } else if Lookup(dirs, id, a / PGSIZE).Some? {
        ghost var st, own := View(), owner;
        UnmapPage(id, a / PGSIZE);
        UnmappedOne(st, own, View(), owner, hand, all, id, w);
        b := a + PGSIZE;
      } else {
        UnmappedOver(View(), owner, View(), owner, hand, all, id, w, w, x);
        b := a + PGSIZE;
      }
    }

    /** Exactly the present pages from RoundUp(newsz) up to oldsz are unmapped and their
        frames freed, also when a missing table makes the walk jump. */
    method Deallocuvm(id: nat, oldsz: nat, newsz: nat) returns (r: nat)
      requires Holding() && id in dirs && oldsz <= KERNBASE
      modifies `dirs, `free, `owner, `pages, `hand
      ensures Holding() && hand == old(hand) && dirs.Keys == old(dirs.Keys)
        && r == if newsz >= oldsz then oldsz else newsz
      ensures SameTables(old(dirs), dirs)
      ensures Unmapped(old(View()), old(owner), View(), owner, id, Pages(newsz), Pages(oldsz))
    {
      ghost var p, q, w: nat := Pages(newsz), Pages(oldsz), Pages(newsz);
      if newsz >= oldsz {
        PagesOrdered(oldsz, newsz);
        UnmappedNone(View(), owner, hand, all, id, p, q);
        return oldsz;
      }
      PagesOrdered(newsz, oldsz);
      UnmappedNone(View(), owner, hand, all, id, p, p);
      var a := RoundUp(newsz);
      while a < oldsz
        invariant Holding() && hand == old(hand) && dirs.Keys == old(dirs.Keys) && a == w * PGSIZE && w >= p
        invariant SameTables(old(dirs), dirs)
        invariant Unmapped(old(View()), old(owner), View(), owner, id, p, Min(w, q))
        decreases oldsz - a
      {
        ghost var st, own, x := View(), owner, w;
        a, w := Turn(id, a, w, q);
        UnmappedJoin(old(View()), old(owner), st, own, View(), owner, id, p, x, Min(w, q));
      }
      r := newsz;
    }

    /** The frame in hand gets the given contents and is mapped at page w of d. */
    method AddPage(d: nat, w: nat, flags: bv12, ghost src: Option<nat>, f: nat, page: Page) returns (r: Mapping)
      requires Holding() && d in dirs && f in hand && Wanted(View(), src, w, flags, page)
      modifies `dirs, `free, `owner, `pages, `hand
      ensures Holding() && dirs.Keys == old(dirs.Keys) && free <= old(free)
      ensures r == Remap <==> Lookup(old(dirs), d, w).Some?
      ensures r == NoMemory <==> w / NPTENTRIES !in Tabled(old(dirs), d) && old(free) == {}
      ensures r == Mapped ==> hand == old(hand) - {f}
      ensures r == Mapped ==> Grown(old(View()), old(owner), View(), owner, d, w, w + 1, src, {f})
      ensures r == Mapped ==> Paid(old(dirs), |old(free)|, dirs, |free|, d, w)
      ensures r != Mapped ==> hand == old(hand) && dirs == old(dirs) && free == old(free) && owner == old(owner)
      ensures Untouched(old(View()), old(owner), View(), owner)
    {
      AllThere(View(), owner, hand, all);
      FillSound(View(), owner, hand, all, f, page);
      pages := pages[f := page];
      r := MapPage(d, w, f, flags);
    }

    /** A new frame for page w of d with the given contents; a frame that could not be
        mapped stays in hand. */
    method AddFresh(d: nat, w: nat, flags: bv12, ghost src: Option<nat>, page: Page)
      returns (mem: Option<nat>, r: Mapping)
      requires Valid() && d in dirs && Wanted(View(), src, w, flags, page)
      modifies `dirs, `free, `owner, `pages, `hand
      ensures Holding() && dirs.Keys == old(dirs.Keys) && free <= old(free) && (mem.None? <==> old(free) == {})
      ensures r == Remap <==> Lookup(old(dirs), d, w).Some? && old(free) != {}
      ensures r == NoMemory <==> |old(free)| < 1 + if w / NPTENTRIES in Tabled(old(dirs), d) then 0 else 1
      ensures r == Mapped ==> hand == {} && mem.Some? && mem.value in old(free)
      ensures r == Mapped ==> Grown(old(View()), old(owner), View(), owner, d, w, w + 1, src, {mem.value})
      ensures r == Mapped ==> Paid(old(dirs), |old(free)| - 1, dirs, |free|, d, w)
      ensures r != Mapped ==> hand == (if mem.Some? then {mem.value} else {})
      ensures r != Mapped ==> dirs == old(dirs) && owner == old(owner)
      ensures Untouched(old(View()), old(owner), View(), owner)
    {
      AllThere(View(), owner, hand, all);
      mem := Kalloc();
      if mem.None? {
        return None, NoMemory;
      }
      r := AddPage(d, w, flags, src, mem.value, page);
    }

    /** One turn of `copyuvm`'s loop, at a page that is present. */
    method CopyPage(id: nat, w: nat, d: nat) returns (mem: Option<nat>, r: Mapping)
      requires Valid() && d in dirs && Lookup(dirs, id, w).Some? && Lookup(dirs, d, w) == None
      modifies `dirs, `free, `owner, `pages, `hand
      ensures Holding() && dirs.Keys == old(dirs.Keys) && free <= old(free) && (mem.None? <==> old(free) == {})
      ensures r == Mapped || r == NoMemory
      ensures r == NoMemory <==> |old(free)| < 1 + if w / NPTENTRIES in Tabled(old(dirs), d) then 0 else 1
      ensures r == Mapped ==> hand == {} && mem.Some? && mem.value in old(free)
      ensures r == Mapped ==> Grown(old(View()), old(owner), View(), owner, d, w, w + 1, Some(id), {mem.value})
      ensures r == Mapped ==> Paid(old(dirs), |old(free)| - 1, dirs, |free|, d, w)
      ensures r != Mapped ==> hand == (if mem.Some? then {mem.value} else {})
      ensures r != Mapped ==> dirs == old(dirs) && owner == old(owner)
      ensures Untouched(old(View()), old(owner), View(), owner)
    {
      var e := Lookup(dirs, id, w).value;
      PageThere(View(), owner, hand, all, id, w);
      mem, r := AddFresh(d, w, e.flags, Some(id), pages[e.frame]);
    }

    /** What `allocuvm` does when memory runs out: every page of the stretch goes. */
    method Abandon(id: nat, oldsz: nat, newsz: nat, mem: Option<nat>, ghost st: State, ghost own: map<nat, Use>,
            ghost w: nat)
      requires Holding() && id in dirs && newsz < KERNBASE && hand == if mem.Some? then {mem.value} else {}
      requires Sound(st, own, {}, all) && Pages(oldsz) <= w <= Pages(newsz)
      requires Grown(st, own, View(), owner, id, Pages(oldsz), w, None, st.free)
      modifies `dirs, `free, `owner, `pages, `hand
      ensures Valid() && dirs.Keys == old(dirs.Keys)
      ensures Stripped(st, own, View(), owner, id, Pages(oldsz), Pages(newsz)) && OnlyTables(own, owner)
      ensures SameTables(old(dirs), dirs)
    {
      var _ := Deallocuvm(id, newsz, oldsz);
      GrowthUndone(st, own, {}, all, old(View()), old(owner), View(), owner, id, Pages(oldsz), w, Pages(newsz), None,
        st.free);
      if mem.Some? {
        AllThere(View(), owner, hand, all);
        Kfree(mem.value);
      }
      NewAreTables(st, own, View(), owner, hand, all, id, Pages(oldsz), Pages(newsz));
    }

    /** Sizes from KERNBASE on are refused and a smaller size is no growth; any other growth
        is as `Grows` says, for the pages that begin from oldsz up to newsz. */
    method Allocuvm(id: nat, oldsz: nat, newsz: nat) returns (r: Growth)
      requires Valid() && id in dirs
      modifies `dirs, `free, `owner, `pages, `hand
      ensures Holding() && dirs.Keys == old(dirs.Keys) && (r.Size? ==> Valid())
      ensures newsz >= KERNBASE ==> r == Size(0) && View() == old(View())
      ensures oldsz > newsz && newsz < KERNBASE ==> r == Size(oldsz) && View() == old(View())
      ensures oldsz <= newsz < KERNBASE ==>
        Grows(old(View()), old(owner), View(), owner, id, Pages(oldsz), Pages(newsz), newsz, r)
    {
      if newsz >= KERNBASE {
        return Size(0);
      }
      if newsz < oldsz {
        return Size(oldsz);
      }
      r := GrowTo(id, oldsz, newsz);
    }

    method GrowTo(id: nat, oldsz: nat, newsz: nat) returns (r: Growth)
      requires Valid() && id in dirs && oldsz <= newsz < KERNBASE
      modifies `dirs, `free, `owner, `pages, `hand
      ensures Holding() && dirs.Keys == old(dirs.Keys) && (r.Size? ==> Valid())
      ensures Grows(old(View()), old(owner), View(), owner, id, Pages(oldsz), Pages(newsz), newsz, r)
    {
      ghost var st0, own0 := View(), owner;
      PagesOrdered(oldsz, newsz);
      var m, mem; ghost var st, w;
      m, mem, st, w := GrowLoop(id, RoundUp(oldsz), newsz, Pages(oldsz), Pages(newsz),
        AbsentTo(dirs, id, Pages(oldsz), Pages(newsz)));
      match m
      case Remap =>
        r := Panic;
      case NoMemory =>
        GrowFail(id, oldsz, newsz, mem, st0, own0, st, w);
        r := Size(0);
      case Mapped =>
        GrownFull(st0, own0, View(), owner, id, Pages(oldsz), Pages(newsz), newsz);
        r := Size(newsz);
    }

    /** The loop of `allocuvm`, up to its end, its failure at page w, or its panic. */
    method GrowLoop(id: nat, start: nat, newsz: nat, ghost p: nat, ghost q: nat, ghost n: nat)
      returns (m: Mapping, mem: Option<nat>, ghost st: State, ghost w: nat)
      requires Valid() && id in dirs && start == p * PGSIZE && newsz <= q * PGSIZE < newsz + PGSIZE
      requires p <= n <= q && FirstPresent(dirs, id, p, q, n)
      modifies `dirs, `free, `owner, `pages, `hand
      ensures Holding() && dirs.Keys == old(dirs.Keys)
      ensures match m
        case Remap => n < q && |old(free)| > Cost(old(dirs), id, p, n)
        case NoMemory => p <= w < q && w <= n
          && Stuck(old(View()), old(owner), st, View(), owner, hand, all, id, p, w, None, mem)
        case Mapped => Valid() && n == q && Growing(old(View()), old(owner), View(), owner, id, p, q, None)
    {
      ghost var st0, own0 := View(), owner;
      GrowingNone(st0, own0, all, id, p, None);
      var a := start;
      w := p;
      while a < newsz
        invariant Valid() && dirs.Keys == st0.dirs.Keys && a == w * PGSIZE && p <= w <= n
        invariant Growing(st0, own0, View(), owner, id, p, w, None)
      {
        st := View();
        m, mem := GrowTurn(id, a, st0, own0, p, w, q, n);
        if m != Mapped {
          return;
        }
        NextAddress(w);
        a, w := a + PGSIZE, w + 1;
      }
      m, mem, st := Mapped, None, View();
    }

    method GrowTurn(id: nat, a: nat, ghost st0: State, ghost own0: map<nat, Use>, ghost p: nat, ghost w: nat,
            ghost q: nat, ghost n: nat)
      returns (m: Mapping, mem: Option<nat>)
      requires Valid() && id in dirs && a == w * PGSIZE && Sound(st0, own0, {}, all)
      requires p <= w < q && w <= n && FirstPresent(st0.dirs, id, p, q, n)
        && Growing(st0, own0, View(), owner, id, p, w, None)
      modifies `dirs, `free, `owner, `pages, `hand
      ensures Holding() && dirs.Keys == old(dirs.Keys)
      ensures match m
        case Remap => w == n && |st0.free| > Cost(st0.dirs, id, p, n)
        case NoMemory => Stuck(st0, own0, old(View()), View(), owner, hand, all, id, p, w, None, mem)
        case Mapped => Valid() && w < n && Growing(st0, own0, View(), owner, id, p, w + 1, None)
    {
      ghost var st, own := View(), owner;
      GrowingAt(st0, own0, st, own, id, p, w, None);
      mem, m := AddFresh(id, a / PGSIZE, USER, None, Repeat(0, PGSIZE));
      if m == Mapped {
        GrowingOn(st0, own0, st, own, View(), owner, all, id, p, w, None, mem.value);
      }
    }

    method GrowFail(id: nat, oldsz: nat, newsz: nat, mem: Option<nat>, ghost st0: State, ghost own0: map<nat, Use>,
                    ghost st: State, ghost w: nat)
      requires Holding() && id in dirs && newsz < KERNBASE && Sound(st0, own0, {}, all)
        && Pages(oldsz) <= w < Pages(newsz)
      requires w <= AbsentTo(st0.dirs, id, Pages(oldsz), Pages(newsz))
      requires Stuck(st0, own0, st, View(), owner, hand, all, id, Pages(oldsz), w, None, mem)
      modifies `dirs, `free, `owner, `pages, `hand
      ensures Valid() && dirs.Keys == old(dirs.Keys)
      ensures Grows(st0, own0, View(), owner, id, Pages(oldsz), Pages(newsz), newsz, Size(0))
    {
      ghost var p, q := Pages(oldsz), Pages(newsz);
      assert Outcome(0);
      TooFew(st0, own0, st, owner, id, p, w, q);
      GrowingEnd(st0, own0, st, owner, id, p, w, None);
      GrownSame(st0, own0, st, owner, View(), owner, {}, all, id, p, w, None, st0.free);
      Abandon(id, oldsz, newsz, mem, st0, own0, w);
      if AbsentTo(st0.dirs, id, p, q) >= q {
        NothingLost(st0, own0, {}, all, View(), owner, id, p, q);
      }
    }

    /** `freevm` as far as the user part of d goes: its pages and its tables are freed. */
    method Freevm(d: nat)
      requires Holding() && d in dirs && (forall pd :: pd in dirs[d] ==> pd < NPDENTRIES)
      requires forall w: nat {:trigger Lookup(dirs, d, w)} :: Lookup(dirs, d, w).Some? ==> w < Pages(KERNBASE)
      modifies `dirs, `free, `owner, `pages, `hand
      ensures Holding() && hand == old(hand) && dirs.Keys == old(dirs.Keys) && dirs[d] == map[]
      ensures Without(old(View()), old(owner), View(), owner, d)
      ensures TablesBut(old(dirs), dirs, d)
    {
      var _ := Deallocuvm(d, KERNBASE, 0);
      DeallocAll(old(View()), old(owner), View(), owner, d, Pages(KERNBASE));
      ghost var st, own := View(), owner;
      assert Tabled(dirs, d) == Tabled(old(dirs), d);
      FreeTables(d);
      EmptyingJoin(old(View()), old(owner), st, own, View(), owner, d);
      Emptied(old(View()), old(owner), View(), owner, hand, all, d);
    }

    method FreeTables(d: nat)
      requires Holding() && d in dirs && (forall pd :: pd in dirs[d] ==> pd < NPDENTRIES)
      requires forall w: nat {:trigger Lookup(dirs, d, w)} :: Lookup(dirs, d, w) == None
      modifies `dirs, `free, `owner, `pages, `hand
      ensures Holding() && hand == old(hand) && dirs.Keys == old(dirs.Keys) && dirs[d] == map[]
      ensures Emptying(old(View()), old(owner), View(), owner, d)
      ensures TablesBut(old(dirs), dirs, d)
    {
      AllThere(View(), owner, hand, all);
      var i := 0;
      while i < NPDENTRIES
        invariant i <= NPDENTRIES && Holding() && hand == old(hand) && dirs.Keys == old(dirs.Keys)
        invariant forall pd :: pd in dirs[d] ==> i <= pd < NPDENTRIES
        invariant TablesBut(old(dirs), dirs, d)
        invariant Emptying(old(View()), old(owner), View(), owner, d)
      {
        if i in dirs[d] {
          ghost var st, own := View(), owner;
          ghost var f := FreeTable(d, i);
          EmptyingOn(old(View()), old(owner), st, own, View(), owner, d, f, i, Repeat(1, PGSIZE));
        }
        i := i + 1;
      }
    }

    method FreeTable(d: nat, pd: nat) returns (ghost f: nat)
      requires Holding() && d in dirs && pd in dirs[d]
      requires forall w: nat {:trigger Lookup(dirs, d, w)} :: Lookup(dirs, d, w) == None
      modifies `dirs, `free, `owner, `pages
      ensures Holding() && dirs == old(dirs)[d := old(dirs)[d] - {pd}] && SameEntries()
      ensures TablesBut(old(dirs), dirs, d)
      ensures f in old(owner) && old(owner)[f] == TableOf(d, pd) && owner == old(owner) - {f}
      ensures pages == old(pages)[f := Repeat(1, PGSIZE)]
    {
      var t := dirs[d][pd].frame;
      f := t;
      TableFreed(View(), owner, hand, all, d, pd);
      dirs := dirs[d := dirs[d] - {pd}];
      free := free + {t};
      owner := owner - {t};
      FillSound(View(), owner, hand, all, t, Repeat(1, PGSIZE));
      pages := pages[t := Repeat(1, PGSIZE)];
    }

    /** `copyuvm` of the first sz bytes of process id into d, which maps nothing yet. It is
        as `Copies` says. */
    method Copyuvm(id: nat, sz: nat, d: nat) returns (r: Copy)
      requires Valid() && id in dirs && d in dirs && id != d && dirs[d] == map[] && sz <= KERNBASE
      modifies `dirs, `free, `owner, `pages, `hand
      ensures Holding() && dirs.Keys == old(dirs.Keys) && (r == OutOfMemory ==> dirs[d] == map[])
      ensures Copies(old(View()), old(owner), View(), owner, hand, id, d, Pages(sz), r)
    {
      ghost var st0, own0, w: nat := View(), owner, 0;
      var i := 0;
      GrowingNone(st0, own0, all, d, 0, Some(id));
      while i < sz
        invariant Valid() && dirs.Keys == st0.dirs.Keys && i == w * PGSIZE
        invariant w <= PresentTo(st0.dirs, id, 0, Pages(sz))
        invariant Growing(st0, own0, View(), owner, d, 0, w, Some(id))
        decreases sz - i
      {
        var end := CopyTurn(id, sz, d, i, st0, own0, w);
        if end.Some? {
          return end.value;
        }
        NextAddress(w);
        i, w := i + PGSIZE, w + 1;
      }
      CopiedFull(st0, own0, View(), owner, id, d, w);
      r := Copied;
    }

    /** One turn of the loop: the next page is copied, or the call ends. */
    method CopyTurn(id: nat, sz: nat, d: nat, i: nat, ghost st0: State, ghost own0: map<nat, Use>, ghost w: nat)
      returns (end: Option<Copy>)
      requires Valid() && id in dirs && d in dirs && id != d && sz <= KERNBASE && i == w * PGSIZE < sz
      requires Sound(st0, own0, {}, all) && Tabled(st0.dirs, d) == {}
      requires w <= PresentTo(st0.dirs, id, 0, Pages(sz)) && Growing(st0, own0, View(), owner, d, 0, w, Some(id))
      modifies `dirs, `free, `owner, `pages, `hand
      ensures Holding() && dirs.Keys == old(dirs.Keys)
      ensures end.None? ==> Valid() && Growing(st0, own0, View(), owner, d, 0, w + 1, Some(id))
      ensures end.None? ==> w < PresentTo(st0.dirs, id, 0, Pages(sz))
      ensures end.Some? ==> Copies(st0, own0, View(), owner, hand, id, d, Pages(sz), end.value)
      ensures end.Some? ==> end.value != Copied && (end.value == OutOfMemory ==> dirs[d] == map[])
    {
      ghost var st, own := View(), owner;
      CopyingAt(st0, own0, st, own, id, d, w);
      var page := Find(id, i / PGSIZE);
      if !page || Lookup(dirs, id, i / PGSIZE).None? {
        return Some(Panicked);
      }
      var mem, m := CopyPage(id, i / PGSIZE, d);
      if m != Mapped {
        CopyFail(id, d, st0, own0, st, w, Pages(sz));
        return Some(OutOfMemory);
      }
      GrowingOn(st0, own0, st, own, View(), owner, all, d, 0, w, Some(id), mem.value);
      end := None;
    }

    method CopyFail(id: nat, d: nat, ghost st0: State, ghost own0: map<nat, Use>, ghost st: State, ghost w: nat,
            ghost q: nat)
      requires Holding() && d in dirs && d != id && Sound(st0, own0, {}, all) && Sound(st, owner, {}, all)
      requires Growing(st0, own0, st, owner, d, 0, w, Some(id)) && Tabled(st0.dirs, d) == {} && w < q <= Pages(KERNBASE)
      requires dirs == st.dirs && Untouched(st, owner, View(), owner)
      requires w < PresentTo(st0.dirs, id, 0, q)
      requires |st.free| < 1 + if w / NPTENTRIES in Tabled(st.dirs, d) then 0 else 1
      requires |hand| == if st.free == {} then 0 else 1
      modifies `dirs, `free, `owner, `pages, `hand
      ensures Holding() && hand == old(hand) && dirs.Keys == old(dirs.Keys) && dirs[d] == map[]
      ensures Copies(st0, own0, View(), owner, hand, id, d, q, OutOfMemory)
    {
      CopyingAt(st0, own0, st, owner, id, d, w);
      NeededMore(w + 1, PresentTo(st0.dirs, id, 0, q));
      OneLeft(|st0.free|, w);
      GrowingEnd(st0, own0, st, owner, d, 0, w, Some(id));
      TablesLow(st0.dirs, dirs, d, w);
      GrownSame(st0, own0, st, owner, View(), owner, {}, all, d, 0, w, Some(id), st0.free);
      ghost var st1, own1 := View(), owner;
      Freevm(d);
      CopyUndone(st0, own0, st1, own1, View(), owner, hand, all, d);
    }
  }

  /** What a new page has to be: as in `src`'s page with that number, or zeroed. */
  ghost predicate Wanted(st: State, src: Option<nat>, w: nat, flags: bv12, page: Page) {
    match src
    case None => flags == USER && page == Repeat(0, PGSIZE)
    case Some(id) =>
      && Lookup(st.dirs, id, w).Some? && flags == Lookup(st.dirs, id, w).value.flags
      && Lookup(st.dirs, id, w).value.frame in st.pages && page == st.pages[Lookup(st.dirs, id, w).value.frame]
  }

  /** st' is st with every page of d from p to q mapped to a frame out of `pool` holding
      what is wanted; all other entries, and the contents of all frames in use, are kept. */
  ghost predicate Grown(st: State, owner: map<nat, Use>, st': State, owner': map<nat, Use>,
                        d: nat, p: nat, q: nat, src: Option<nat>, pool: set<nat>) {
    && Untouched(st, owner, st', owner')
    && (forall jd: nat, w: nat {:trigger Lookup(st'.dirs, jd, w)} ::
      if jd == d && p <= w < q then
        var e := Lookup(st'.dirs, jd, w);
        e.Some? && e.value.frame in pool && e.value.frame in st'.pages
          && Wanted(st, src, w, e.value.flags, st'.pages[e.value.frame])
      else Lookup(st'.dirs, jd, w) == Lookup(st.dirs, jd, w))
  }

  lemma GrownNone(st: State, owner: map<nat, Use>, hand: set<nat>, all: set<nat>, d: nat, p: nat, src: Option<nat>,
          pool: set<nat>)
    requires Sound(st, owner, hand, all)
    ensures Grown(st, owner, st, owner, d, p, p, src, pool)
  {
    AllThere(st, owner, hand, all);
  }

  lemma GrownSame(st0: State, own0: map<nat, Use>, st: State, own: map<nat, Use>, st': State, own': map<nat, Use>,
                  hand: set<nat>, all: set<nat>, d: nat, p: nat, w: nat, src: Option<nat>, pool: set<nat>)
    requires Grown(st0, own0, st, own, d, p, w, src, pool) && Untouched(st, own, st', own') && Sound(st, own, hand, all)
    requires forall jd, x {:trigger Lookup(st'.dirs, jd, x)} :: Lookup(st'.dirs, jd, x) == Lookup(st.dirs, jd, x)
    ensures Grown(st0, own0, st', own', d, p, w, src, pool)
  {
    forall x: nat | p <= x < w ensures Lookup(st.dirs, d, x).Some? && Lookup(st.dirs, d, x).value.frame in own {
      assert Lookup(st.dirs, d, x).Some?;
      PageThere(st, own, hand, all, d, x);
    }
  }

  /** What is wanted of a copy stays the same while the copied process is left alone. */
  lemma WantedSame(st0: State, own0: map<nat, Use>, hand: set<nat>, all: set<nat>, st: State, own: map<nat, Use>,
                   src: Option<nat>, w: nat, flags: bv12, page: Page)
    requires Sound(st0, own0, hand, all) && Untouched(st0, own0, st, own) && Wanted(st, src, w, flags, page)
    requires src.Some? ==> Lookup(st.dirs, src.value, w) == Lookup(st0.dirs, src.value, w)
    ensures Wanted(st0, src, w, flags, page)
  {
    if src.Some? {
      PageThere(st0, own0, hand, all, src.value, w);
    }
  }

  /** One more page grown. */
  lemma GrownJoin(st0: State, own0: map<nat, Use>, hand0: set<nat>, st: State, own: map<nat, Use>, hand: set<nat>,
                  st': State, own': map<nat, Use>, all: set<nat>,
                  d: nat, p: nat, w: nat, src: Option<nat>, pool: set<nat>, f: nat)
    requires Sound(st0, own0, hand0, all) && Sound(st, own, hand, all) && p <= w && f in pool && src != Some(d)
    requires Grown(st0, own0, st, own, d, p, w, src, pool) && Grown(st, own, st', own', d, w, w + 1, src, {f})
    ensures Grown(st0, own0, st', own', d, p, w + 1, src, pool)
  {
    forall x: nat | p <= x < w
      ensures Lookup(st'.dirs, d, x) == Lookup(st.dirs, d, x) && Lookup(st.dirs, d, x).Some?
        && Lookup(st.dirs, d, x).value.frame in own
    {
      assert Lookup(st'.dirs, d, x) == Lookup(st.dirs, d, x);
      PageThere(st, own, hand, all, d, x);
    }
    var e := Lookup(st'.dirs, d, w);
    assert e.Some?;
    WantedSame(st0, own0, hand0, all, st, own, src, w, e.value.flags, st'.pages[e.value.frame]);
  }

  ghost predicate SameLookups(dirs: map<nat, Dir>, dirs': map<nat, Dir>) {
    forall jd: nat, w: nat {:trigger Lookup(dirs', jd, w)} :: Lookup(dirs', jd, w) == Lookup(dirs, jd, w)
  }

  ghost predicate TablesBut(dirs: map<nat, Dir>, dirs': map<nat, Dir>, d: nat) {
    forall jd {:trigger Tabled(dirs', jd)} :: jd != d ==> Tabled(dirs', jd) == Tabled(dirs, jd)
  }

  /** What growing the pages from p up to q comes to. Let n be the first of them that is
      present already. Memory runs out exactly when the free frames do not pay for the
      pages before n and, if there is such a page, for one frame more. Then all pages of
      the stretch are gone, which loses nothing if none was present before, and only tables
      have been added. If memory does not run out there is a panic exactly when there is
      such a page, and otherwise a fresh zeroed frame, writable by the user, at every page. */
  ghost predicate Grows(st: State, owner: map<nat, Use>, st': State, owner': map<nat, Use>,
                        id: nat, p: nat, q: nat, newsz: nat, r: Growth) {
    var n := AbsentTo(st.dirs, id, p, q);
    if |st.free| < Cost(st.dirs, id, p, n) + (if n < q then 1 else 0) then
      && r == Size(0) && Stripped(st, owner, st', owner', id, p, q) && OnlyTables(owner, owner')
      && (n >= q ==> SameLookups(st.dirs, st'.dirs) && Untouched(st, owner, st', owner'))
      && TablesBut(st.dirs, st'.dirs, id)
    else if n < q then r == Panic
    else
      && r == Size(newsz) && Grown(st, owner, st', owner', id, p, q, None, st.free)
      && TablesBut(st.dirs, st'.dirs, id) && |st'.free| == |st.free| - Cost(st.dirs, id, p, q)
  }

  /** What copying the first q pages of id into d, which has none, comes to. Let n be the
      first of them that is missing. Memory runs out exactly when the free frames do not
      pay for the pages before n. Then everything is as it was, except that one frame is
      lost, in hand and never freed, exactly when the number of free frames was one more
      than a multiple of 1025. If memory does not run out there is a panic exactly when a
      page is missing, and otherwise d has an equal page in a fresh frame for every page. */
  ghost predicate Copies(st: State, owner: map<nat, Use>, st': State, owner': map<nat, Use>, hand: set<nat>,
                         id: nat, d: nat, q: nat, r: Copy) {
    var n := PresentTo(st.dirs, id, 0, q);
    if |st.free| < Needed(n) then
      && r == OutOfMemory && SameLookups(st.dirs, st'.dirs) && owner' == owner && Untouched(st, owner, st', owner')
      && SameTables(st.dirs, st'.dirs) && st'.free + hand == st.free
      && |hand| == if |st.free| % (NPTENTRIES + 1) == 1 then 1 else 0
    else if n < q then r == Panicked
    else
      && r == Copied && hand == {} && Grown(st, owner, st', owner', d, 0, q, Some(id), st.free)
      && TablesBut(st.dirs, st'.dirs, d) && |st'.free| == |st.free| - Needed(q)
  }

  /** A page that cannot be paid for is one of those before n, or n itself. */
  lemma TooFew(st0: State, own0: map<nat, Use>, st: State, own: map<nat, Use>, id: nat, p: nat, w: nat, q: nat)
    requires Growing(st0, own0, st, own, id, p, w, None) && p <= w < q && w <= AbsentTo(st0.dirs, id, p, q)
    requires |st.free| < 1 + if w / NPTENTRIES in Tabled(st.dirs, id) then 0 else 1
    ensures var n := AbsentTo(st0.dirs, id, p, q); |st0.free| < Cost(st0.dirs, id, p, n) + (if n < q then 1 else 0)
  {
    var n := AbsentTo(st0.dirs, id, p, q);
    GrowingAt(st0, own0, st, own, id, p, w, None);
    CostMore(st0.dirs, id, p, if w < n then w + 1 else w, n);
    if w == n {
      PresentTabled(st.dirs, id, w);
    }
  }

  lemma GrownFull(st0: State, own0: map<nat, Use>, st: State, own: map<nat, Use>, id: nat, p: nat, q: nat, newsz: nat)
    requires Growing(st0, own0, st, own, id, p, q, None) && p <= q && AbsentTo(st0.dirs, id, p, q) == q
    ensures Grows(st0, own0, st, own, id, p, q, newsz, Size(newsz))
  {
    GrowingEnd(st0, own0, st, own, id, p, q, None);
  }

  lemma CopiedFull(st0: State, own0: map<nat, Use>, st: State, own: map<nat, Use>, id: nat, d: nat, q: nat)
    requires Growing(st0, own0, st, own, d, 0, q, Some(id)) && id != d && Tabled(st0.dirs, d) == {}
    requires PresentTo(st0.dirs, id, 0, q) == q
    ensures Copies(st0, own0, st, own, {}, id, d, q, Copied)
  {
    CopyingAt(st0, own0, st, own, id, d, q);
    GrowingEnd(st0, own0, st, own, d, 0, q, Some(id));
  }

  /** Grown from p up to w, with too few frames left for page w; the one taken for it is
      in hand. */
  ghost predicate Stuck(st0: State, own0: map<nat, Use>, st: State, st': State, own: map<nat, Use>, hand: set<nat>,
          all: set<nat>, d: nat, p: nat, w: nat, src: Option<nat>, mem: Option<nat>) {
    forall key: int {:trigger Outcome(key)} :: Outcome(key) ==>
      && Sound(st, own, {}, all) && Growing(st0, own0, st, own, d, p, w, src)
      && st'.dirs == st.dirs && Untouched(st, own, st', own) && hand == (if mem.Some? then {mem.value} else {})
      && |st.free| < 1 + if w / NPTENTRIES in Tabled(st.dirs, d) then 0 else 1
  }

  /** n is the first page from p up to q that is present, or q. */
  ghost predicate FirstPresent(dirs: map<nat, Dir>, id: nat, p: nat, q: nat, n: nat) {
    && (n < q ==> Lookup(dirs, id, n).Some?)
    && forall x: nat {:trigger Lookup(dirs, id, x)} :: p <= x < n ==> Lookup(dirs, id, x) == None
  }

  lemma PresentTabled(dirs: map<nat, Dir>, id: nat, w: nat)
    requires Lookup(dirs, id, w).Some?
    ensures w / NPTENTRIES in Tabled(dirs, id)
  {
  }

  /** The verifier unfolds `Growing` and `Stuck` only where this is mentioned. */
  ghost predicate Outcome(key: int) {
    true
  }

  /** Grown from p up to w, and paid for. */
  ghost predicate Growing(st0: State, own0: map<nat, Use>, st: State, own: map<nat, Use>, d: nat, p: nat, w: nat,
          src: Option<nat>)
  {
    forall key: int {:trigger Outcome(key)} :: Outcome(key) ==>
      && Grown(st0, own0, st, own, d, p, w, src, st0.free)
      && TablesMade(st0.dirs, st.dirs, d, p, w) && TablesBut(st0.dirs, st.dirs, d)
      && |st.free| + Cost(st0.dirs, d, p, w) == |st0.free| && st.free <= st0.free
  }

  lemma GrowingNone(st: State, own: map<nat, Use>, all: set<nat>, d: nat, p: nat, src: Option<nat>)
    requires Sound(st, own, {}, all)
    ensures Growing(st, own, st, own, d, p, p, src)
  {
    GrownNone(st, own, {}, all, d, p, src, st.free);
  }

  /** What the next page meets: its old entry, and its table unless it has to pay for it. */
  lemma GrowingAt(st0: State, own0: map<nat, Use>, st: State, own: map<nat, Use>, d: nat, p: nat, w: nat,
          src: Option<nat>)
    requires Growing(st0, own0, st, own, d, p, w, src) && p <= w
    ensures Lookup(st.dirs, d, w) == Lookup(st0.dirs, d, w)
    ensures w / NPTENTRIES in Tabled(st.dirs, d) <==> !NewTable(st0.dirs, d, p, w)
    ensures |st.free| + Cost(st0.dirs, d, p, w) == |st0.free|
  {
    assert Outcome(0);
    TableNext(st0.dirs, st.dirs, d, p, w);
  }

  lemma GrowingEnd(st0: State, own0: map<nat, Use>, st: State, own: map<nat, Use>, d: nat, p: nat, w: nat,
          src: Option<nat>)
    requires Growing(st0, own0, st, own, d, p, w, src)
    ensures Grown(st0, own0, st, own, d, p, w, src, st0.free)
    ensures TablesMade(st0.dirs, st.dirs, d, p, w) && TablesBut(st0.dirs, st.dirs, d)
    ensures |st.free| + Cost(st0.dirs, d, p, w) == |st0.free| && st.free <= st0.free
  {
    assert Outcome(0);
  }

  lemma CopyingAt(st0: State, own0: map<nat, Use>, st: State, own: map<nat, Use>, id: nat, d: nat, w: nat)
    requires Growing(st0, own0, st, own, d, 0, w, Some(id)) && id != d && Tabled(st0.dirs, d) == {}
    ensures Lookup(st.dirs, d, w) == None && Lookup(st.dirs, id, w) == Lookup(st0.dirs, id, w)
    ensures w / NPTENTRIES in Tabled(st.dirs, d) <==> w % NPTENTRIES != 0
    ensures |st.free| + Needed(w) == |st0.free|
    ensures Needed(w + 1) == Needed(w) + if w % NPTENTRIES == 0 then 2 else 1
  {
    GrowingAt(st0, own0, st, own, d, 0, w, Some(id));
    GrowingEnd(st0, own0, st, own, d, 0, w, Some(id));
    CostFresh(st0.dirs, d, w);
    NeededStep(w);
  }

  lemma GrowingOn(st0: State, own0: map<nat, Use>, st: State, own: map<nat, Use>, st': State, own': map<nat, Use>,
                  all: set<nat>, d: nat, p: nat, w: nat, src: Option<nat>, f: nat)
    requires Sound(st0, own0, {}, all) && Sound(st, own, {}, all) && Growing(st0, own0, st, own, d, p, w, src) && p <= w
    requires Grown(st, own, st', own', d, w, w + 1, src, {f}) && f in st.free && src != Some(d)
    requires Paid(st.dirs, |st.free| - 1, st'.dirs, |st'.free|, d, w) && st'.free <= st.free
    ensures Growing(st0, own0, st', own', d, p, w + 1, src)
  {
    GrowingEnd(st0, own0, st, own, d, p, w, src);
    GrowingAt(st0, own0, st, own, d, p, w, src);
    GrownJoin(st0, own0, {}, st, own, {}, st', own', all, d, p, w, src, st0.free, f);
    TablesStep(st0.dirs, st.dirs, st'.dirs, d, p, w);
  }

  /** The free frames after mapping page w of d, which may have needed a table. */
  ghost predicate Paid(dirs: map<nat, Dir>, free: int, dirs': map<nat, Dir>, free': int, d: nat, w: nat) {
    && WithTableAt(dirs, dirs', d, w / NPTENTRIES)
    && free' == free - if w / NPTENTRIES in Tabled(dirs, d) then 0 else 1
  }

  /** st' is st without the pages from p to q of id; the frames in use for anything else
      are in use for the same thing, with the same contents. */
  ghost predicate Stripped(st: State, owner: map<nat, Use>, st': State, owner': map<nat, Use>, id: nat, p: nat,
          q: nat)
  {
    && (forall jd: nat, w: nat {:trigger Lookup(st'.dirs, jd, w)} ::
      Lookup(st'.dirs, jd, w) == if jd == id && p <= w < q then None else Lookup(st.dirs, jd, w))
    && (forall f :: f in owner && !Gone(owner[f], id, p, q) ==>
      f in owner' && owner'[f] == owner[f] && f in st.pages && f in st'.pages && st'.pages[f] == st.pages[f])
  }

  /** Every frame newly in use holds a page table. */
  ghost predicate OnlyTables(owner: map<nat, Use>, owner': map<nat, Use>) {
    forall f :: f in owner' && f !in owner ==> owner'[f].TableOf?
  }

  /** Shrinking back over a stretch that was grown in part leaves none of its pages. */
  lemma GrowthUndone(st0: State, own0: map<nat, Use>, hand0: set<nat>, all: set<nat>, st: State, own: map<nat, Use>,
                     st': State, own': map<nat, Use>, d: nat, p: nat, w: nat, q: nat, src: Option<nat>, pool: set<nat>)
    requires Sound(st0, own0, hand0, all) && p <= w <= q
    requires Grown(st0, own0, st, own, d, p, w, src, pool) && Unmapped(st, own, st', own', d, p, q)
    ensures Stripped(st0, own0, st', own', d, p, q)
  {
  }

  lemma NewAreTables(st0: State, own0: map<nat, Use>, st: State, own: map<nat, Use>, hand: set<nat>, all: set<nat>,
                     d: nat, p: nat, q: nat)
    requires Sound(st0, own0, {}, all) && Sound(st, own, hand, all) && Stripped(st0, own0, st, own, d, p, q)
    ensures OnlyTables(own0, own)
  {
    forall f | f in own && own[f].PageOf? ensures f in own0 {
      UseThere(st, own, hand, all, f);
      PageThere(st0, own0, {}, all, own[f].id, own[f].v);
    }
  }

  /** Stripping a stretch without pages changes no entry and no frame in use. */
  lemma NothingLost(st0: State, own0: map<nat, Use>, hand: set<nat>, all: set<nat>, st: State, own: map<nat, Use>,
                    d: nat, p: nat, q: nat)
    requires Sound(st0, own0, hand, all) && Stripped(st0, own0, st, own, d, p, q)
    requires forall x: nat {:trigger Lookup(st0.dirs, d, x)} :: p <= x < q ==> Lookup(st0.dirs, d, x) == None
    ensures Untouched(st0, own0, st, own)
    ensures forall jd, x {:trigger Lookup(st.dirs, jd, x)} :: Lookup(st.dirs, jd, x) == Lookup(st0.dirs, jd, x)
  {
    forall f | f in own0 ensures !Gone(own0[f], d, p, q) {
      UseThere(st0, own0, hand, all, f);
    }
  }

  /** The pages of d are gone, and perhaps some of its tables; the rest is as it was. */
  ghost predicate Emptying(st: State, owner: map<nat, Use>, st': State, owner': map<nat, Use>, d: nat) {
    && (forall jd: nat, w: nat {:trigger Lookup(st'.dirs, jd, w)} ::
      Lookup(st'.dirs, jd, w) == if jd == d then None else Lookup(st.dirs, jd, w))
    && (forall f :: f in owner && owner[f].id != d ==>
      f in owner' && owner'[f] == owner[f] && f in st.pages && f in st'.pages && st'.pages[f] == st.pages[f])
    && forall f :: f in owner' ==> f in owner && owner'[f] == owner[f]
  }

  /** Nothing of d is left, and everything else is as it was. */
  ghost predicate Without(st: State, owner: map<nat, Use>, st': State, owner': map<nat, Use>, d: nat) {
    Emptying(st, owner, st', owner', d) && forall f :: f in owner' ==> owner'[f].id != d
  }

  lemma DeallocAll(st: State, owner: map<nat, Use>, st': State, owner': map<nat, Use>, d: nat, q: nat)
    requires Unmapped(st, owner, st', owner', d, 0, q)
    requires forall w: nat {:trigger Lookup(st.dirs, d, w)} :: Lookup(st.dirs, d, w).Some? ==> w < q
    requires forall f :: f in owner' ==> f in owner && owner'[f] == owner[f]
    ensures Emptying(st, owner, st', owner', d)
  {
  }

  lemma EmptyingOn(st0: State, own0: map<nat, Use>, st: State, own: map<nat, Use>, st': State, own': map<nat, Use>,
                   d: nat, f: nat, pd: nat, junk: Page)
    requires Emptying(st0, own0, st, own, d) && f in own && own[f] == TableOf(d, pd)
    requires own' == own - {f} && st'.pages == st.pages[f := junk]
    requires forall jd, w {:trigger Lookup(st'.dirs, jd, w)} :: Lookup(st'.dirs, jd, w) == Lookup(st.dirs, jd, w)
    ensures Emptying(st0, own0, st', own', d)
  {
  }

  lemma EmptyingJoin(st0: State, own0: map<nat, Use>, st: State, own: map<nat, Use>, st': State, own': map<nat, Use>,
          d: nat)
    requires Emptying(st0, own0, st, own, d) && Emptying(st, own, st', own', d)
    ensures Emptying(st0, own0, st', own', d)
  {
  }

  lemma Emptied(st0: State, own0: map<nat, Use>, st: State, own: map<nat, Use>, hand: set<nat>, all: set<nat>, d: nat)
    requires Emptying(st0, own0, st, own, d) && Sound(st, own, hand, all) && Tabled(st.dirs, d) == {}
    ensures Without(st0, own0, st, own, d)
  {
    forall f | f in own ensures own[f].id != d {
      UseThere(st, own, hand, all, f);
    }
  }

  lemma TablesLow(dirs: map<nat, Dir>, dirs': map<nat, Dir>, d: nat, w: nat)
    requires TablesMade(dirs, dirs', d, 0, w) && Tabled(dirs, d) == {} && w <= Pages(KERNBASE)
    ensures forall pd :: pd in Tabled(dirs', d) ==> pd < NPDENTRIES
  {
    assert Pages(KERNBASE) == 512 * NPTENTRIES;
  }

  /** A table of another process that is in use after the copy was in use before. */
  lemma TableBefore(st0: State, own0: map<nat, Use>, st: State, own: map<nat, Use>, hand: set<nat>, all: set<nat>,
          f: nat)
    requires Sound(st0, own0, {}, all) && Sound(st, own, hand, all) && Untouched(st0, own0, st, own)
    requires f in own && own[f].TableOf? && own[f].pd in Tabled(st0.dirs, own[f].id)
    ensures f in own0
  {
    var id, pd := own[f].id, own[f].pd;
    UseThere(st, own, hand, all, f);
    TableHeld(st0, own0, {}, all, id, pd);
    UseThere(st, own, hand, all, st0.dirs[id][pd].frame);
  }

  lemma TableHeld(st: State, owner: map<nat, Use>, hand: set<nat>, all: set<nat>, id: nat, pd: nat)
    requires Sound(st, owner, hand, all) && id in st.dirs && pd in st.dirs[id]
    ensures st.dirs[id][pd].frame in owner && owner[st.dirs[id][pd].frame] == TableOf(id, pd)
  {
    assert Key(0);
    assert |st.dirs[id][pd].ptes| == NPTENTRIES;
  }

  /** Freeing the copy undoes it, but for the frame that is in hand. */
  lemma CopyUndone(st0: State, own0: map<nat, Use>, st: State, own: map<nat, Use>, st': State, own': map<nat, Use>,
                   hand: set<nat>, all: set<nat>, d: nat)
    requires Sound(st0, own0, {}, all) && Sound(st, own, hand, all) && Sound(st', own', hand, all)
    requires Untouched(st0, own0, st, own) && Without(st, own, st', own', d) && Tabled(st0.dirs, d) == {}
    requires TablesBut(st0.dirs, st.dirs, d)
    requires forall jd, w {:trigger Lookup(st.dirs, jd, w)} :: jd != d ==>
      Lookup(st.dirs, jd, w) == Lookup(st0.dirs, jd, w)
    ensures own' == own0 && st'.free + hand == st0.free && Untouched(st0, own0, st', own')
    ensures forall jd, w {:trigger Lookup(st'.dirs, jd, w)} :: Lookup(st'.dirs, jd, w) == Lookup(st0.dirs, jd, w)
  {
    forall f | f in own0 ensures own0[f].id != d {
      UseThere(st0, own0, {}, all, f);
    }
    forall f | f in own' ensures f in own0 {
      UseThere(st, own, hand, all, f);
      if own[f].PageOf? {
        PageThere(st0, own0, {}, all, own[f].id, own[f].v);
      } else {
        assert own[f].pd in Tabled(st.dirs, own[f].id);
        TableBefore(st0, own0, st, own, hand, all, f);
      }
    }
    assert own' == own0;
    SameFree(st0, own0, {}, st', own', hand, all);
  }

  lemma SameFree(st: State, owner: map<nat, Use>, hand: set<nat>, st': State, owner': map<nat, Use>, hand': set<nat>,
          all: set<nat>)
    requires Sound(st, owner, hand, all) && Sound(st', owner', hand', all) && owner == owner'
    ensures st.free + hand == st'.free + hand'
  {
    assert Key(0);
  }

  function Min(a: nat, b: nat): nat {
    if a < b then a else b
  }

  lemma NextAddress(w: nat)
    ensures (w + 1) * PGSIZE == w * PGSIZE + PGSIZE
  {
  }

  lemma PagesOrdered(a: nat, b: nat)
    requires a <= b
    ensures Pages(a) <= Pages(b)
  {
  }

  /** A missing table has none of the pages up to the next one's. */
  lemma Jump(dirs: map<nat, Dir>, id: nat, w: nat)
    requires id in dirs && w / NPTENTRIES !in dirs[id]
    ensures w < (w / NPTENTRIES + 1) * NPTENTRIES
    ensures forall x: nat {:trigger Lookup(dirs, id, x)} :: w <= x < (w / NPTENTRIES + 1) * NPTENTRIES ==>
      Lookup(dirs, id, x) == None
  {
    forall x: nat | w <= x < (w / NPTENTRIES + 1) * NPTENTRIES ensures Lookup(dirs, id, x) == None {
      assert x / NPTENTRIES == w / NPTENTRIES;
    }
  }

  /** st' is st with the present pages from p to q of id unmapped, their frames freed and
      nothing else changed. */
  ghost predicate Unmapped(st: State, owner: map<nat, Use>, st': State, owner': map<nat, Use>, id: nat, p: nat,
          q: nat)
  {
    && (forall jd: nat, w: nat {:trigger Lookup(st'.dirs, jd, w)} ::
      Lookup(st'.dirs, jd, w) == if jd == id && p <= w < q then None else Lookup(st.dirs, jd, w))
    && (forall f :: f in owner && !Gone(owner[f], id, p, q) ==>
      f in owner' && owner'[f] == owner[f] && f in st.pages && f in st'.pages && st'.pages[f] == st.pages[f])
    && (forall f :: f in st'.free <==> f in st.free || (f in owner && Gone(owner[f], id, p, q)))
    && forall f :: f in owner' ==> f in owner && !Gone(owner[f], id, p, q)
  }

  predicate Gone(u: Use, id: nat, p: nat, q: nat) {
    u.PageOf? && u.id == id && p <= u.v < q
  }

  lemma UnmappedNone(st: State, owner: map<nat, Use>, hand: set<nat>, all: set<nat>, id: nat, p: nat, q: nat)
    requires Sound(st, owner, hand, all) && q <= p
    ensures Unmapped(st, owner, st, owner, id, p, q)
  {
    AllThere(st, owner, hand, all);
  }

  /** Pages that are not present change nothing. */
  lemma UnmappedOver(st0: State, own0: map<nat, Use>, st: State, own: map<nat, Use>, hand: set<nat>, all: set<nat>,
                     id: nat, p: nat, w: nat, q: nat)
    requires Unmapped(st0, own0, st, own, id, p, w) && Sound(st, own, hand, all) && p <= w <= q
    requires forall x: nat {:trigger Lookup(st.dirs, id, x)} :: w <= x < q ==> Lookup(st.dirs, id, x) == None
    ensures Unmapped(st0, own0, st, own, id, p, q)
  {
    forall f | f in own0 ensures Gone(own0[f], id, p, q) == Gone(own0[f], id, p, w) {
      if Gone(own0[f], id, p, q) && !Gone(own0[f], id, p, w) {
        UseThere(st, own, hand, all, f);
      }
    }
  }

  lemma UnmappedOne(st: State, own: map<nat, Use>, st': State, own': map<nat, Use>, hand: set<nat>, all: set<nat>,
                    id: nat, w: nat)
    requires Sound(st, own, hand, all) && Lookup(st.dirs, id, w).Some?
    requires var f := Lookup(st.dirs, id, w).value.frame;
      f in own && st'.free == st.free + {f} && own' == own - {f} && st'.pages == st.pages[f := Repeat(1, PGSIZE)]
    requires forall jd, x {:trigger Lookup(st'.dirs, jd, x)} ::
      Lookup(st'.dirs, jd, x) == if jd == id && x == w then None else Lookup(st.dirs, jd, x)
    ensures Unmapped(st, own, st', own', id, w, w + 1)
  {
    var g := Lookup(st.dirs, id, w).value.frame;
    PageThere(st, own, hand, all, id, w);
    AllThere(st, own, hand, all);
    forall f | f in own ensures Gone(own[f], id, w, w + 1) == (f == g) {
      UseThere(st, own, hand, all, f);
    }
  }

  lemma UnmappedJoin(st0: State, own0: map<nat, Use>, st: State, own: map<nat, Use>, st': State, own': map<nat, Use>,
                     id: nat, p: nat, w: nat, q: nat)
    requires Unmapped(st0, own0, st, own, id, p, w) && Unmapped(st, own, st', own', id, w, q) && p <= w <= q
    ensures Unmapped(st0, own0, st', own', id, p, q)
  {
    forall f | f in own0
      ensures Gone(own0[f], id, p, q) == (Gone(own0[f], id, p, w) || (f in own && Gone(own[f], id, w, q)))
    {
    }
  }

  lemma UseThere(st: State, owner: map<nat, Use>, hand: set<nat>, all: set<nat>, f: nat)
    requires Sound(st, owner, hand, all) && f in owner
    ensures InUse(st, f, owner[f])
  {
    assert Key(0);
  }

  /** The frames in use before are in use for the same thing, with the same contents. */
  ghost predicate Untouched(st: State, owner: map<nat, Use>, st': State, owner': map<nat, Use>) {
    forall f :: f in owner ==>
      && f in owner' && owner'[f] == owner[f]
      && f in st.pages && f in st'.pages && st'.pages[f] == st.pages[f]
  }

  lemma UntouchedPut(st0: State, own0: map<nat, Use>, st: State, own: map<nat, Use>, st': State, own': map<nat, Use>,
          f: nat, u: Use)
    requires Untouched(st0, own0, st, own) && st'.pages == st.pages && f !in own && own' == own[f := u]
    ensures Untouched(st0, own0, st', own')
  {
  }

  lemma FrameThere(st: State, owner: map<nat, Use>, hand: set<nat>, all: set<nat>, f: nat)
    requires Sound(st, owner, hand, all) && f in st.free + owner.Keys + hand
    ensures f in st.pages && f in all
  {
    assert Key(0);
  }

  lemma AllThere(st: State, owner: map<nat, Use>, hand: set<nat>, all: set<nat>)
    requires Sound(st, owner, hand, all)
    ensures forall f :: f in owner ==> f in st.pages && f in all && f !in hand && f !in st.free
  {
    assert Key(0);
  }

  lemma HandThere(st: State, owner: map<nat, Use>, hand: set<nat>, all: set<nat>)
    requires Sound(st, owner, hand, all)
    ensures forall f :: f in hand ==> f in st.pages
  {
    assert Key(0);
  }

  /** A present entry's frame, and the table it is in. */
  lemma PageThere(st: State, owner: map<nat, Use>, hand: set<nat>, all: set<nat>, id: nat, w: nat)
    requires Sound(st, owner, hand, all) && Lookup(st.dirs, id, w).Some?
    ensures var f := Lookup(st.dirs, id, w).value.frame;
      f in owner && owner[f] == PageOf(id, w) && f in all && f in st.pages && f !in st.free && f !in hand
  {
    assert Key(0);
  }

  /** No frame is mapped twice, in one address space or in two. */
  lemma FramesDistinct(st: State, owner: map<nat, Use>, hand: set<nat>, all: set<nat>, id: nat, v: nat, jd: nat, w: nat)
    requires Sound(st, owner, hand, all) && Lookup(st.dirs, id, v).Some? && Lookup(st.dirs, jd, w).Some?
    requires Lookup(st.dirs, id, v).value.frame == Lookup(st.dirs, jd, w).value.frame
    ensures id == jd && v == w
  {
    PageThere(st, owner, hand, all, id, v);
    PageThere(st, owner, hand, all, jd, w);
  }

  lemma FillSound(st: State, owner: map<nat, Use>, hand: set<nat>, all: set<nat>, f: nat, page: Page)
    requires Sound(st, owner, hand, all)
    ensures Sound(st.(pages := st.pages[f := page]), owner, hand, all)
  {
    assert Key(0);
    var st' := st.(pages := st.pages[f := page]);
    forall g | g in owner ensures InUse(st', g, owner[g]) {
      assert InUse(st, g, owner[g]);
    }
  }

  lemma TableThere(st: State, owner: map<nat, Use>, hand: set<nat>, all: set<nat>, id: nat, pd: nat)
    requires Sound(st, owner, hand, all) && id in st.dirs && pd in st.dirs[id]
    ensures |st.dirs[id][pd].ptes| == NPTENTRIES
  {
    assert Key(0);
    assert |st.dirs[id][pd].ptes| == NPTENTRIES;
  }

  lemma FirstPage(dirs: map<nat, Dir>)
    requires 0 in dirs && dirs[0] == map[]
    ensures AbsentTo(dirs, 0, 0, 1) == 1 && Cost(dirs, 0, 0, 1) == 2
  {
    assert Lookup(dirs, 0, 0) == None;
    assert Cost(dirs, 0, 0, 0) == 0 && NewTable(dirs, 0, 0, 0);
  }

  lemma NoTables(dirs: map<nat, Dir>, dirs': map<nat, Dir>, d: nat)
    requires d in dirs && d in dirs' && dirs[d] == map[] && Tabled(dirs', d) == Tabled(dirs, d)
    ensures dirs'[d] == map[]
  {
  }

  /** A process with one page on a machine of three frames. */
  method OnePage() returns (m: Machine)
    ensures fresh(m) && m.Valid() && |m.free| == 1 && m.dirs.Keys == {0, 1} && m.dirs[1] == map[]
    ensures Lookup(m.dirs, 0, 0).Some?
  {
    m := new Machine({1, 2, 3}, {0, 1});
    ghost var st := m.View();
    FirstPage(st.dirs);
    assert |m.free| == 3;
    var s := m.Allocuvm(0, 0, PGSIZE);
    assert s == Size(PGSIZE);
    NoTables(st.dirs, m.dirs, 1);
  }

  /** With three frames, a process of one page and its table cannot be copied, and the
      third frame is lost: it is neither free nor in use when the call is over. */
  method CopyLosesFrame() returns (m: Machine, r: Copy)
    ensures fresh(m) && m.Holding() && r == OutOfMemory && |m.hand| == 1
    ensures Lookup(m.dirs, 0, 0).Some? && Lookup(m.dirs, 1, 0) == None
  {
    m := OnePage();
    assert PresentTo(m.dirs, 0, 0, 1) == 1;
    ghost var st := m.View();
    r := m.Copyuvm(0, PGSIZE, 1);
    assert Lookup(m.dirs, 0, 0) == Lookup(st.dirs, 0, 0);
  }
}
