/** The K&R allocator's heap on values: a memory of two-word headers addressed in units
    of one header, a circular address-ordered list of free blocks that starts at the
    static `base`, and the live blocks. */
module FreeList {

  datatype Header = Header(ptr: nat, size: nat)

  type Mem = map<nat, Header>

  /** The address of the static header `base`; every heap address is higher. */
  const BASE: nat := 1

  /** `free` holds the blocks on the free list, BASE included, `live` the blocks handed
      out, and `owner` maps each unit obtained from `sbrk` to the block it belongs to. */
  datatype View = View(free: set<nat>, live: set<nat>, owner: map<nat, nat>)

  ghost predicate IsBlock(v: View, b: nat) {
    b in v.live || (b in v.free && b != BASE)
  }

  /** q is the next free block after a in address order, or BASE when there is none. */
  ghost predicate IsNext(free: set<nat>, a: nat, q: nat) {
    && q in free
    && if a < q then forall x :: x in free ==> x <= a || q <= x
       else q == BASE && forall x :: x in free ==> x <= a
  }

  /** The links form one cycle through the free blocks in address order. */
  ghost predicate Ring(mem: Mem, free: set<nat>) {
    && BASE in free && BASE in mem && mem[BASE].size == 0
    && (forall a :: a in free ==> BASE <= a && a in mem)
    && (forall a {:trigger IsNext(free, a, mem[a].ptr)} :: a in free ==> IsNext(free, a, mem[a].ptr))
  }

  lemma RingNext(mem: Mem, free: set<nat>, a: nat)
    requires Ring(mem, free) && a in free
    ensures a in mem && mem[a].ptr in mem && IsNext(free, a, mem[a].ptr)
  {
    assert IsNext(free, a, mem[a].ptr);
  }

  /** Every unit lies in exactly one block, and every block consists of such units. */
  ghost predicate Partition(mem: Mem, v: View) {
    && (forall u :: u in v.owner ==> BASE < u && u in mem)
    && (forall u :: u in v.owner ==> InBlock(mem, v, u, v.owner[u]))
    && (forall b :: IsBlock(v, b) ==> b in mem && mem[b].size > 0)
    && (forall b, u :: InBlock(mem, v, u, b) ==> u in v.owner && v.owner[u] == b)
    && v.live !! v.free
  }

  ghost predicate InBlock(mem: Mem, v: View, u: nat, b: nat) {
    IsBlock(v, b) && b in mem && b <= u < b + mem[b].size
  }

  /** Free block a does not touch the free block after it. */
  ghost predicate Apart(mem: Mem, a: nat) {
    a in mem && (a < mem[a].ptr ==> a + mem[a].size < mem[a].ptr)
  }

  /** The heap invariant except that free neighbours may touch. */
  ghost predicate Core(mem: Mem, v: View) {
    Ring(mem, v.free) && Partition(mem, v)
  }

  ghost predicate Inv(mem: Mem, v: View) {
    Core(mem, v) && forall a :: a in v.free ==> Apart(mem, a)
  }

  /** The heap invariant, which the verifier unfolds only where `Key` is mentioned. */
  ghost predicate Sound(mem: Mem, v: View) {
    forall k: int {:trigger Key(k)} :: Key(k) ==> Inv(mem, v)
  }

  ghost predicate Key(k: int) {
    true
  }

  lemma Unfold(mem: Mem, v: View)
    requires Sound(mem, v)
    ensures Inv(mem, v)
  {
    assert Key(0);
  }

  /** Nothing inside the blocks of `keep` has been written. */
  ghost predicate Untouched(mem: Mem, mem': Mem, v: View, keep: set<nat>) {
    forall u :: u in v.owner && v.owner[u] in keep ==> u in mem && u in mem' && mem'[u] == mem[u]
  }

  // ---------------------------------------------------------------- linking a block

  /** bp belongs just after free block p. */
  predicate Goes(mem: Mem, p: nat, bp: nat) {
    p in mem && p < bp && (p < mem[p].ptr ==> bp < mem[p].ptr)
  }

  function LinkMem(mem: Mem, p: nat, bp: nat): Mem
    requires p in mem && bp in mem
  {
    mem[bp := mem[bp].(ptr := mem[p].ptr)][p := mem[p].(ptr := bp)]
  }

  function LinkView(v: View, bp: nat): View {
    View(v.free + {bp}, v.live - {bp}, v.owner)
  }

  /** Inserting bp just after p leaves every other block with the next block it had. */
  lemma NextInsert(free: set<nat>, p: nat, q: nat, bp: nat, a: nat, r: nat)
    requires p in free && IsNext(free, p, q) && p < bp && (p < q ==> bp < q) && bp !in free
    requires BASE in free && forall x :: x in free ==> BASE <= x
    requires a in free && a != p && IsNext(free, a, r)
    ensures IsNext(free + {bp}, a, r)
  {
    assert p <= a ==> q <= a;
  }

  /** The new block takes over the next block of p and becomes the next block of p. */
  lemma NextOfNew(free: set<nat>, p: nat, q: nat, bp: nat)
    requires p in free && IsNext(free, p, q) && p < bp && (p < q ==> bp < q)
    requires BASE in free && forall x :: x in free ==> BASE <= x
    ensures IsNext(free + {bp}, p, bp) && IsNext(free + {bp}, bp, q)
  {
  }

  lemma LinkedNext(mem: Mem, free: set<nat>, p: nat, bp: nat, a: nat)
    requires Ring(mem, free) && p in free && Goes(mem, p, bp) && bp in mem && bp !in free
    requires a in free + {bp}
    ensures IsNext(free + {bp}, a, LinkMem(mem, p, bp)[a].ptr)
  {
    if a == p || a == bp {
      NextOfNew(free, p, mem[p].ptr, bp);
    } else {
      NextInsert(free, p, mem[p].ptr, bp, a, mem[a].ptr);
    }
  }

  lemma LinkRing(mem: Mem, free: set<nat>, p: nat, bp: nat)
    requires Ring(mem, free) && p in free && Goes(mem, p, bp) && bp in mem && bp !in free
    ensures Ring(LinkMem(mem, p, bp), free + {bp})
  {
    forall a | a in free + {bp} ensures IsNext(free + {bp}, a, LinkMem(mem, p, bp)[a].ptr) {
      LinkedNext(mem, free, p, bp, a);
    }
  }

  lemma LinkPartition(mem: Mem, v: View, p: nat, bp: nat)
    requires Core(mem, v) && p in v.free && bp in v.live && p != bp
    ensures Partition(LinkMem(mem, p, bp), LinkView(v, bp))
  {
    var mem', v' := LinkMem(mem, p, bp), LinkView(v, bp);
    assert forall b: nat :: IsBlock(v', b) <==> IsBlock(v, b);
    assert forall u: nat, b: nat :: InBlock(mem', v', u, b) <==> InBlock(mem, v, u, b);
  }

  /** Headers of blocks outside `keep` may change without touching its contents. */
  lemma HeaderOnly(mem: Mem, v: View, a: nat, h: Header, keep: set<nat>)
    requires Core(mem, v) && a in v.free + v.live && a !in keep
    ensures Untouched(mem, mem[a := h], v, keep)
  {
    if a in v.owner && v.owner[a] in keep {
      assert IsBlock(v, a);
      assert InBlock(mem, v, a, a);
    }
  }

  lemma Link(mem: Mem, v: View, p: nat, bp: nat)
    requires Core(mem, v) && p in v.free && Goes(mem, p, bp) && bp in v.live
    ensures var mem', v' := LinkMem(mem, p, bp), LinkView(v, bp);
      && Core(mem', v')
      && Untouched(mem, mem', v, v'.live)
      && (forall a :: a in v.free && a != p && Apart(mem, a) ==> Apart(mem', a))
  {
    LinkRing(mem, v.free, p, bp);
    LinkPartition(mem, v, p, bp);
    HeaderOnly(mem, v, bp, mem[bp].(ptr := mem[p].ptr), v.live - {bp});
    HeaderOnly(mem, v, p, mem[p].(ptr := bp), v.live - {bp});
  }

  // ---------------------------------------------------------------- joining neighbours

  function JoinMem(mem: Mem, a: nat): Mem
    requires a in mem && mem[a].ptr in mem
  {
    var q := mem[a].ptr;
    mem[a := Header(mem[q].ptr, mem[a].size + mem[q].size)]
  }

  function JoinView(v: View, a: nat, q: nat): View {
    View(v.free - {q}, v.live, map u | u in v.owner :: if v.owner[u] == q then a else v.owner[u])
  }

  /** Only one free block has q as its next block. */
  lemma NextUnique(free: set<nat>, a: nat, b: nat, q: nat)
    requires a in free && b in free && IsNext(free, a, q) && IsNext(free, b, q)
    requires forall x :: x in free ==> BASE <= x
    ensures a == b
  {
  }

  /** Dropping q, the block after a, leaves what came after q as the block after a. */
  lemma NextDrop(free: set<nat>, a: nat, q: nat, r: nat)
    requires a in free && a < q && IsNext(free, a, q) && IsNext(free, q, r)
    requires BASE in free && forall x :: x in free ==> BASE <= x
    ensures IsNext(free - {q}, a, r)
  {
  }

  lemma DropRing(mem: Mem, free: set<nat>, a: nat, h: Header)
    requires Ring(mem, free) && a in free && a < mem[a].ptr && mem[a].ptr in mem
    requires h.ptr == mem[mem[a].ptr].ptr && (a == BASE ==> h.size == 0)
    ensures Ring(mem[a := h], free - {mem[a].ptr})
  {
    var q := mem[a].ptr;
    RingNext(mem, free, a);
    RingNext(mem, free, q);
    forall b | b in free - {q} ensures IsNext(free - {q}, b, mem[a := h][b].ptr) {
      RingNext(mem, free, b);
      if b == a {
        NextDrop(free, a, q, h.ptr);
      } else if mem[b].ptr == q {
        NextUnique(free, a, b, q);
      }
    }
  }

  lemma JoinRing(mem: Mem, free: set<nat>, a: nat)
    requires Ring(mem, free) && a in free && a != BASE && a < mem[a].ptr && mem[a].ptr in mem
    ensures Ring(JoinMem(mem, a), free - {mem[a].ptr})
  {
    DropRing(mem, free, a, JoinMem(mem, a)[a]);
  }

  lemma JoinPartition(mem: Mem, v: View, a: nat)
    requires Core(mem, v) && a in v.free && a != BASE && a < mem[a].ptr && a + mem[a].size == mem[a].ptr
    requires mem[a].ptr in mem
    ensures Partition(JoinMem(mem, a), JoinView(v, a, mem[a].ptr))
  {
    var q := mem[a].ptr;
    var mem', v' := JoinMem(mem, a), JoinView(v, a, q);
    RingNext(mem, v.free, a);
    assert q in v.free && q != BASE;
    assert forall b: nat :: IsBlock(v', b) <==> IsBlock(v, b) && b != q;
    assert forall u: nat, b: nat :: InBlock(mem', v', u, b) <==>
      if b == a then InBlock(mem, v, u, a) || InBlock(mem, v, u, q) else b != q && InBlock(mem, v, u, b);
  }

  lemma Join(mem: Mem, v: View, a: nat)
    requires Core(mem, v) && a in v.free && a < mem[a].ptr && a + mem[a].size == mem[a].ptr
    ensures mem[a].ptr in mem
    ensures var q, mem' := mem[a].ptr, JoinMem(mem, a); var v' := JoinView(v, a, q);
      && Core(mem', v')
      && Untouched(mem, mem', v, v.live)
      && (Apart(mem, q) ==> Apart(mem', a))
      && (forall b :: b in v.free && b != a && b != q && Apart(mem, b) ==> Apart(mem', b))
      && (forall u :: u in v.owner && v.owner[u] in v.live ==> v'.owner[u] == v.owner[u])
  {
    assert a != BASE;
    RingNext(mem, v.free, a);
    RingNext(mem, v.free, mem[a].ptr);
    JoinRing(mem, v.free, a);
    JoinPartition(mem, v, a);
    HeaderOnly(mem, v, a, JoinMem(mem, a)[a], v.live);
  }

  // ---------------------------------------------------------------- freeing a block

  /** The header free stores in bp once it knows that bp belongs just after p. */
  function Upper(mem: Mem, p: nat, bp: nat): Header
    requires p in mem && bp in mem && mem[p].ptr in mem
  {
    var q := mem[p].ptr;
    if bp + mem[bp].size == q then Header(mem[q].ptr, mem[bp].size + mem[q].size) else mem[bp].(ptr := q)
  }

  /** The header free stores in p, given the one it stored in bp. */
  function Lower(mem: Mem, p: nat, bp: nat, upper: Header): Header
    requires p in mem
  {
    if p + mem[p].size == bp then Header(upper.ptr, mem[p].size + upper.size) else mem[p].(ptr := bp)
  }

  function FreeMem(mem: Mem, p: nat, bp: nat): Mem
    requires p in mem && bp in mem && mem[p].ptr in mem
  {
    var upper := Upper(mem, p, bp);
    mem[bp := upper][p := Lower(mem, p, bp, upper)]
  }

  /** What free stores is a link of p to bp, followed by a join when p touches bp. */
  lemma FreeStores(mem: Mem, p: nat, bp: nat)
    requires p in mem && bp in mem && mem[p].ptr in mem && p != bp
    ensures var m := mem[bp := Upper(mem, p, bp)][p := mem[p].(ptr := bp)];
      FreeMem(mem, p, bp) == if p + mem[p].size == bp then JoinMem(m, p) else m
  {
  }

  /** The live blocks of v' that v had too are the same blocks with the same contents. */
  ghost predicate Kept(mem: Mem, v: View, mem': Mem, v': View, keep: set<nat>) {
    && Untouched(mem, mem', v, keep)
    && keep <= v.live && keep <= v'.live
    && forall u :: u in v.owner && v.owner[u] in keep ==> u in v'.owner && v'.owner[u] == v.owner[u]
  }

  lemma KeptTrans(m0: Mem, v0: View, m1: Mem, v1: View, m2: Mem, v2: View, keep: set<nat>)
    requires Kept(m0, v0, m1, v1, keep) && Kept(m1, v1, m2, v2, keep)
    ensures Kept(m0, v0, m2, v2, keep)
  {
  }

  lemma KeptSame(mem: Mem, v: View)
    requires Sound(mem, v)
    ensures Kept(mem, v, mem, v, v.live)
  {
    Unfold(mem, v);
  }

  lemma NoOverlap(mem: Mem, v: View, b: nat, c: nat)
    requires Partition(mem, v) && IsBlock(v, b) && IsBlock(v, c) && b < c
    ensures b + mem[b].size <= c
  {
    assert InBlock(mem, v, c, c);
    assert !InBlock(mem, v, c, b);
  }

  /** Linking bp and joining it with the block after it when they touch. */
  lemma FreeNext(mem: Mem, v: View, p: nat, bp: nat) returns (w: View)
    requires Inv(mem, v) && p in v.free && Goes(mem, p, bp) && bp in v.live
    ensures mem[p].ptr in mem
    ensures var m := mem[bp := Upper(mem, p, bp)][p := mem[p].(ptr := bp)];
      && Core(m, w) && Kept(mem, v, m, w, v.live - {bp})
      && forall a :: a in w.free && a != p ==> Apart(m, a)
    ensures w.live == v.live - {bp} && w.owner.Keys == v.owner.Keys && p in w.free && bp in w.free
  {
    var q := mem[p].ptr;
    RingNext(mem, v.free, p);
    var m := LinkMem(mem, p, bp);
    w := LinkView(v, bp);
    Link(mem, v, p, bp);
    if bp + mem[bp].size == q {
      FreeJoinNext(mem, m, w, p, bp);
      w := JoinView(w, bp, q);
    } else if bp < q {
      NoOverlap(mem, v, bp, q);
    }
  }

  lemma FreeJoinNext(mem: Mem, m: Mem, w: View, p: nat, bp: nat)
    requires p in mem && bp in mem && m == LinkMem(mem, p, bp) && p < bp && bp + mem[bp].size == mem[p].ptr
    requires Core(m, w) && p in w.free && bp in w.free && bp < mem[p].ptr
    requires forall a :: a in w.free && a != p && a != bp ==> Apart(m, a)
    ensures mem[p].ptr in mem
    ensures var m', w' := mem[bp := Upper(mem, p, bp)][p := mem[p].(ptr := bp)], JoinView(w, bp, mem[p].ptr);
      && Core(m', w') && Kept(m, w, m', w', w.live)
      && forall a :: a in w'.free && a != p ==> Apart(m', a)
  {
    RingNext(m, w.free, bp);
    Join(m, w, bp);
    assert JoinMem(m, bp) == mem[bp := Upper(mem, p, bp)][p := mem[p].(ptr := bp)];
  }

  /** Freeing a live block keeps the heap invariant and every other live block. */
  lemma FreeKeeps(mem: Mem, v: View, p: nat, bp: nat) returns (v': View)
    requires Sound(mem, v) && p in v.free && Goes(mem, p, bp) && bp in v.live
    requires p in mem && bp in mem && mem[p].ptr in mem
    ensures var mem' := FreeMem(mem, p, bp);
      && Sound(mem', v') && Kept(mem, v, mem', v', v.live - {bp})
      && v'.live == v.live - {bp} && v'.owner.Keys == v.owner.Keys && p in v'.free
      && (mem'[p].size >= mem[bp].size || (mem'[p].ptr == bp && mem'[bp].size >= mem[bp].size))
  {
    Unfold(mem, v);
    var w := FreeNext(mem, v, p, bp);
    v' := FreeLast(mem, v, mem[bp := Upper(mem, p, bp)][p := mem[p].(ptr := bp)], w, p, bp);
    FreeStores(mem, p, bp);
  }

  lemma FreeLast(mem: Mem, v: View, m: Mem, w: View, p: nat, bp: nat) returns (v': View)
    requires Core(m, w) && p in w.free && bp in w.free && p < bp && p in m && bp in m && m[p].ptr == bp
    requires Kept(mem, v, m, w, w.live)
    requires forall a :: a in w.free && a != p ==> Apart(m, a)
    ensures var mem' := if p + m[p].size == bp then JoinMem(m, p) else m;
      && Inv(mem', v') && Kept(mem, v, mem', v', w.live)
      && v'.live == w.live && v'.owner.Keys == w.owner.Keys && p in v'.free
      && (mem'[p].size >= m[bp].size || (mem'[p].ptr == bp && mem'[bp].size >= m[bp].size))
  {
    if p + m[p].size == bp {
      v' := JoinView(w, p, bp);
      JoinLast(m, w, p, bp);
      KeptTrans(mem, v, m, w, JoinMem(m, p), v', w.live);
    } else {
      v' := w;
      if p != BASE {
        NoOverlap(m, w, p, bp);
      }
      assert Apart(m, p);
    }
  }

  lemma JoinLast(m: Mem, w: View, p: nat, bp: nat)
    requires Core(m, w) && p in w.free && p < bp && m[p].ptr == bp && p + m[p].size == bp
    requires forall a :: a in w.free && a != p ==> Apart(m, a)
    ensures bp in m && Inv(JoinMem(m, p), JoinView(w, p, bp))
    ensures Kept(m, w, JoinMem(m, p), JoinView(w, p, bp), w.live) && p in JoinView(w, p, bp).free
  {
    assert IsNext(w.free, p, bp);
    Join(m, w, p);
  }

  // ---------------------------------------------------------------- handing out a block

  /** Unlinking free block x, the one after p. */
  function TakeMem(mem: Mem, p: nat): Mem
    requires p in mem && mem[p].ptr in mem
  {
    mem[p := mem[p].(ptr := mem[mem[p].ptr].ptr)]
  }

  function TakeView(v: View, x: nat): View {
    View(v.free - {x}, v.live + {x}, v.owner)
  }

  lemma Take(mem: Mem, v: View, p: nat)
    requires Inv(mem, v) && p in v.free && mem[p].ptr != BASE
    ensures mem[p].ptr in mem
    ensures var x := mem[p].ptr;
      Inv(TakeMem(mem, p), TakeView(v, x)) && p in v.free - {x} && Untouched(mem, TakeMem(mem, p), v, v.live + {x})
  {
    var x := mem[p].ptr;
    RingNext(mem, v.free, p);
    RingNext(mem, v.free, x);
    var mem', v' := TakeMem(mem, p), TakeView(v, x);
    DropRing(mem, v.free, p, mem[p].(ptr := mem[x].ptr));
    assert forall b: nat :: IsBlock(v', b) <==> IsBlock(v, b);
    assert forall u: nat, b: nat :: InBlock(mem', v', u, b) <==> InBlock(mem, v, u, b);
    HeaderOnly(mem, v, p, mem'[p], v.live + {x});
    assert Apart(mem, x);
    forall a | a in v'.free ensures Apart(mem', a) {
      assert Apart(mem, a);
    }
  }

  lemma TakeKeeps(mem: Mem, v: View, p: nat)
    requires Sound(mem, v) && p in v.free && p in mem && mem[p].ptr in mem && mem[mem[p].ptr].size > 0
    ensures var x := mem[p].ptr;
      && Sound(TakeMem(mem, p), TakeView(v, x)) && p in v.free - {x} && x !in v.live && x != p
      && Kept(mem, v, TakeMem(mem, p), TakeView(v, x), v.live)
  {
    Unfold(mem, v);
    assert IsNext(v.free, p, mem[p].ptr);
    Take(mem, v, p);
  }

  /** Splitting free block x: its last n units become a block of their own. */
  function CarveMem(mem: Mem, x: nat, n: nat): Mem
    requires x in mem && n < mem[x].size && x + mem[x].size - n in mem
  {
    var t := x + mem[x].size - n;
    mem[x := mem[x].(size := mem[x].size - n)][t := mem[t].(size := n)]
  }

  function CarveView(v: View, x: nat, t: nat): View {
    View(v.free, v.live + {t}, map u | u in v.owner :: if v.owner[u] == x && t <= u then t else v.owner[u])
  }

  lemma CarvePartition(mem: Mem, v: View, x: nat, n: nat)
    requires Core(mem, v) && x in v.free && 0 < n < mem[x].size
    ensures var t := x + mem[x].size - n;
      && t in v.owner && v.owner[t] == x && t in mem && t !in v.free && t !in v.live
      && Partition(CarveMem(mem, x, n), CarveView(v, x, t))
  {
    var t := x + mem[x].size - n;
    assert InBlock(mem, v, t, x);
    assert t !in v.free && t !in v.live by {
      if IsBlock(v, t) { assert InBlock(mem, v, t, t); }
    }
    var mem', v' := CarveMem(mem, x, n), CarveView(v, x, t);
    assert forall b: nat :: IsBlock(v', b) <==> IsBlock(v, b) || b == t;
    assert forall u: nat, b: nat :: InBlock(mem', v', u, b) <==>
      if b == x then InBlock(mem, v, u, x) && u < t
      else if b == t then InBlock(mem, v, u, x) && t <= u else InBlock(mem, v, u, b);
  }

  lemma Carve(mem: Mem, v: View, x: nat, n: nat)
    requires Inv(mem, v) && x in v.free && 0 < n < mem[x].size
    ensures var t := x + mem[x].size - n;
      && t in v.owner && v.owner[t] == x && t in mem && t !in v.free && t !in v.live
      && Inv(CarveMem(mem, x, n), CarveView(v, x, t))
      && Untouched(mem, CarveMem(mem, x, n), v, v.live)
      && (forall u :: u in v.owner && v.owner[u] in v.live ==> CarveView(v, x, t).owner[u] == v.owner[u])
  {
    CarvePartition(mem, v, x, n);
    var t := x + mem[x].size - n;
    var mem' := CarveMem(mem, x, n);
    HeaderOnly(mem, v, x, mem'[x], v.live);
    forall a | a in v.free ensures Apart(mem', a) {
      assert Apart(mem, a);
    }
    assert Ring(mem', v.free);
  }

  lemma CarveKeeps(mem: Mem, v: View, x: nat, n: nat)
    requires Sound(mem, v) && x in v.free && x in mem && 0 < n < mem[x].size
    ensures var t := x + mem[x].size - n;
      && t in mem && t !in v.live && t != x && CarveView(v, x, t).owner.Keys == v.owner.Keys
      && Sound(CarveMem(mem, x, n), CarveView(v, x, t))
      && Kept(mem, v, CarveMem(mem, x, n), CarveView(v, x, t), v.live)
  {
    Unfold(mem, v);
    Carve(mem, v, x, n);
  }

  // ---------------------------------------------------------------- memory from sbrk

  /** The n units from a on. */
  ghost function Units(a: nat, n: nat): (units: set<nat>)
    ensures forall u :: u in units <==> a <= u < a + n
    ensures |units| == n
  {
    if n == 0 then {} else Units(a, n - 1) + {a + n - 1}
  }

  /** Units [a, a + n) have just been delivered and hold a block of n units at a. */
  ghost function GrowView(v: View, a: nat, n: nat): View {
    View(v.free, v.live + {a}, v.owner + map u | u in Units(a, n) :: a)
  }

  lemma Grow(mem: Mem, mem': Mem, v: View, a: nat, n: nat)
    requires Inv(mem, v) && n > 0 && BASE < a && forall u :: u in v.owner ==> u < a
    requires forall u :: u in mem && u < a ==> u in mem' && mem'[u] == mem[u]
    requires (forall u: nat :: a <= u < a + n ==> u in mem') && mem'[a].size == n
    ensures Inv(mem', GrowView(v, a, n)) && Untouched(mem, mem', v, v.live)
  {
    var v' := GrowView(v, a, n);
    forall b: nat | IsBlock(v, b) ensures b < a && b in mem && mem'[b] == mem[b] {
      assert InBlock(mem, v, b, b);
    }
    assert BASE in mem && mem'[BASE] == mem[BASE];
    assert forall b: nat :: IsBlock(v', b) <==> IsBlock(v, b) || b == a;
    assert forall u: nat, b: nat ::
      InBlock(mem', v', u, b) <==> if b == a then a <= u < a + n else InBlock(mem, v, u, b);
    forall x | x in v.free ensures mem'[x] == mem[x] && Apart(mem', x) {
      assert x == BASE || IsBlock(v, x);
      assert Apart(mem, x);
    }
    assert Ring(mem', v.free);
  }

  lemma GrowOwners(v: View, a: nat, n: nat)
    requires n > 0 && forall u :: u in v.owner ==> u < a
    ensures var v' := GrowView(v, a, n);
      && v'.owner.Keys == v.owner.Keys + Units(a, n) && v.owner.Keys < v'.owner.Keys
      && forall u :: u in v.owner ==> v'.owner[u] == v.owner[u]
  {
    assert a in GrowView(v, a, n).owner && a !in v.owner;
  }

  lemma GrowKeeps(mem: Mem, mem': Mem, v: View, a: nat, n: nat)
    requires Sound(mem, v) && n > 0 && BASE < a && forall u :: u in v.owner ==> u < a
    requires forall u :: u in mem && u < a ==> u in mem' && mem'[u] == mem[u]
    requires (forall u: nat :: a <= u < a + n ==> u in mem') && mem'[a].size == n
    ensures var v' := GrowView(v, a, n);
      && Sound(mem', v') && a !in v.live && Kept(mem, v, mem', v', v.live)
      && (forall x :: x in v.free ==> x in mem')
      && v'.owner.Keys == v.owner.Keys + Units(a, n) && v.owner.Keys < v'.owner.Keys
  {
    Unfold(mem, v);
    Grow(mem, mem', v, a, n);
    GrowOwners(v, a, n);
    assert IsBlock(v, a) ==> InBlock(mem, v, a, a);
  }

  // ---------------------------------------------------------------- walking the ring

  /** The free blocks met on the way from p round to t, both included. */
  ghost function Way(free: set<nat>, p: nat, t: nat): set<nat> {
    set x | x in free && (if p <= t then p <= x <= t else p <= x || x <= t)
  }

  lemma WayNext(free: set<nat>, p: nat, q: nat, t: nat)
    requires IsNext(free, p, q) && p in free && t in free && p != t && forall x :: x in free ==> BASE <= x
    ensures p !in Way(free, q, t) && Way(free, p, t) == Way(free, q, t) + {p}
  {
    forall x | x in free ensures x in Way(free, p, t) <==> x == p || x in Way(free, q, t) {
    }
  }

  /** Following a link from p takes just p off the way to t, so every walk round the ring
      reaches every free block. */
  lemma WayShrinks(mem: Mem, v: View, p: nat, t: nat)
    requires Sound(mem, v) && p in v.free && t in v.free && p != t
    ensures p in mem && mem[p].ptr in v.free && mem[p].ptr in mem
    ensures Way(v.free, p, t) == Way(v.free, mem[p].ptr, t) + {p} && p !in Way(v.free, mem[p].ptr, t)
  {
    NextFree(mem, v, p);
    WayNext(v.free, p, mem[p].ptr, t);
  }

  lemma NextFree(mem: Mem, v: View, p: nat)
    requires Sound(mem, v) && p in v.free
    ensures p in mem && mem[p].ptr in v.free && mem[p].ptr in mem && IsNext(v.free, p, mem[p].ptr)
    ensures forall x :: x in v.free ==> x in mem && BASE <= x
  {
    Unfold(mem, v);
    assert IsNext(v.free, p, mem[p].ptr);
  }

  lemma WayFrom(free: set<nat>, t: nat, q: nat)
    requires IsNext(free, t, q) && t in free && forall x :: x in free ==> BASE <= x
    ensures Way(free, q, t) == free
  {
    forall x | x in free ensures x in Way(free, q, t) {
    }
  }

  /** A walk that starts just after t meets every free block before it is back at t. */
  lemma WholeWay(mem: Mem, v: View, t: nat)
    requires Sound(mem, v) && t in v.free
    ensures t in mem && mem[t].ptr in v.free && mem[t].ptr in mem && Way(v.free, mem[t].ptr, t) == v.free
    ensures forall x :: x in v.free ==> x in mem && BASE <= x
  {
    NextFree(mem, v, t);
    WayFrom(v.free, t, mem[t].ptr);
  }

  /** The only free block after which bp belongs; the test of the loop in `free` singles
      it out. */
  lemma Place(mem: Mem, v: View, bp: nat) returns (t: nat)
    requires Sound(mem, v) && bp in v.live
    ensures bp in mem && t in v.free && t in mem && Goes(mem, t, bp)
    ensures forall x :: x in v.free ==> x in mem && mem[x].ptr in mem && (Goes(mem, x, bp) <==> x == t)
    ensures forall x :: x in v.free && x in mem && x >= mem[x].ptr ==> mem[x].ptr == BASE < bp
  {
    Unfold(mem, v);
    assert InBlock(mem, v, bp, bp);
    t := Largest(v.free, bp);
    forall x | x in v.free
      ensures mem[x].ptr in v.free && (Goes(mem, x, bp) <==> x == t) && (x >= mem[x].ptr ==> mem[x].ptr == BASE)
    {
      assert IsNext(v.free, x, mem[x].ptr);
    }
  }

  lemma {:induction false} Largest(free: set<nat>, bp: nat) returns (t: nat)
    requires BASE in free && BASE < bp
    ensures t in free && t < bp && forall x :: x in free && x < bp ==> x <= t
  {
    if x :| x in free && x < bp && x != BASE {
      var y := Largest(free - {x}, bp);
      assert forall z :: z in free ==> z == x || z in free - {x};
      t := if y < x then x else y;
    } else {
      t := BASE;
    }
  }

  // ---------------------------------------------------------------- conservation

  ghost function TotalSize(mem: Mem, blocks: set<nat>): nat
    requires forall b :: b in blocks ==> b in mem
  {
    if blocks == {} then 0 else var b :| b in blocks; mem[b].size + TotalSize(mem, blocks - {b})
  }

  ghost function UnitsOf(v: View, blocks: set<nat>): set<nat> {
    set u | u in v.owner && v.owner[u] in blocks
  }

  lemma {:induction false} SizeOfBlocks(mem: Mem, v: View, blocks: set<nat>)
    requires Core(mem, v) && forall b :: b in blocks ==> IsBlock(v, b)
    ensures TotalSize(mem, blocks) == |UnitsOf(v, blocks)|
  {
    if blocks == {} {
      assert UnitsOf(v, blocks) == {};
    } else {
      var b :| b in blocks && TotalSize(mem, blocks) == mem[b].size + TotalSize(mem, blocks - {b});
      SizeOfBlocks(mem, v, blocks - {b});
      var span := Units(b, mem[b].size);
      forall u ensures u in span <==> u in v.owner && v.owner[u] == b {
        assert u in span ==> InBlock(mem, v, u, b);
        assert u in v.owner ==> InBlock(mem, v, u, v.owner[u]);
      }
      assert UnitsOf(v, blocks) == UnitsOf(v, blocks - {b}) + span;
    }
  }

  /** The sizes of all blocks, free and live, add up to what sbrk delivered. */
  lemma Conservation(mem: Mem, v: View)
    requires Core(mem, v)
    ensures forall b :: b in v.free - {BASE} + v.live ==> b in mem
    ensures TotalSize(mem, v.free - {BASE} + v.live) == |v.owner.Keys|
  {
    assert forall b :: b in v.free - {BASE} + v.live ==> IsBlock(v, b);
    SizeOfBlocks(mem, v, v.free - {BASE} + v.live);
    forall u | u in v.owner ensures v.owner[u] in v.free - {BASE} + v.live {
      assert InBlock(mem, v, u, v.owner[u]);
    }
    assert UnitsOf(v, v.free - {BASE} + v.live) == v.owner.Keys;
  }

  /** What the invariant says about where blocks lie: two blocks never overlap, and no
      free block ends where another free block begins. */
  lemma Layout(mem: Mem, v: View, b: nat, c: nat)
    requires Sound(mem, v) && IsBlock(v, b) && IsBlock(v, c) && b != c
    ensures b in mem && c in mem && (b + mem[b].size <= c || c + mem[c].size <= b)
    ensures b in v.free && c in v.free ==> b + mem[b].size != c
  {
    Unfold(mem, v);
    if b < c {
      NoOverlap(mem, v, b, c);
    } else {
      NoOverlap(mem, v, c, b);
    }
    if b in v.free && c in v.free && b < c {
      assert Apart(mem, b);
      assert IsNext(v.free, b, mem[b].ptr);
    }
  }

  /** A program writing inside one of its own blocks disturbs nothing else. */
  lemma PayloadWrite(mem: Mem, v: View, u: nat, h: Header)
    requires Sound(mem, v) && u in v.owner && v.owner[u] in v.live && v.owner[u] != u
    ensures Sound(mem[u := h], v) && Kept(mem, v, mem[u := h], v, v.live - {v.owner[u]})
  {
    Unfold(mem, v);
    var mem' := mem[u := h];
    assert !IsBlock(v, u) by {
      if IsBlock(v, u) {
        assert InBlock(mem, v, u, u);
      }
    }
    assert u != BASE && u !in v.free;
    assert forall w: nat, b: nat :: InBlock(mem', v, w, b) <==> InBlock(mem, v, w, b);
    forall a | a in v.free ensures Apart(mem', a) {
      assert Apart(mem, a);
    }
    assert Ring(mem', v.free);
  }
}
