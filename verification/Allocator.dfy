/** The K&R allocator itself: `malloc`, `free` and `morecore` rewriting headers in place,
    each proved against the heap invariant of module FreeList. */
module Allocator {
  import opened FreeList

  const WORD: nat := 0x1_0000_0000
  const HEADER_SIZE: nat := 8
  const MIN_UNITS: nat := 4096

  /** `Fault` is a request whose byte count is zero or negative as the signed argument of
      `sbrk`; the program then writes where it owns nothing and is not followed further. */
  datatype Outcome = Null | Block(addr: nat) | Fault

  /** The units a request is rounded up to, header included, in 32-bit arithmetic. */
  function UnitsFor(nbytes: nat): nat {
    (nbytes + HEADER_SIZE - 1) % WORD / HEADER_SIZE + 1
  }

  function Usable(units: nat): nat
    requires units > 0
  {
    HEADER_SIZE * (units - 1)
  }

  /** A 32-bit value as `sbrk` receives it. */
  function Signed(n: nat): int {
    if n % WORD < WORD / 2 then n % WORD else n % WORD - WORD
  }

  /** The rounding covers the request exactly when nbytes + 7 does not wrap, and then
      wastes less than one unit; a request that wraps gets a block with no usable byte. */
  lemma UnitsCover(nbytes: nat)
    requires nbytes < WORD
    ensures Usable(UnitsFor(nbytes)) >= nbytes <==> nbytes <= WORD - HEADER_SIZE
    ensures nbytes <= WORD - HEADER_SIZE ==> Usable(UnitsFor(nbytes)) < nbytes + HEADER_SIZE
    ensures nbytes > WORD - HEADER_SIZE ==> Usable(UnitsFor(nbytes)) == 0
  {
    var n := nbytes + HEADER_SIZE - 1;
    if n < WORD {
      assert n % WORD == n;
    } else {
      assert n % WORD == n - WORD;
    }
  }

  /** sbrk is asked for the right number of bytes exactly below 2^28 units. */
  lemma AskExact(nu: nat)
    requires 0 < nu <= WORD / HEADER_SIZE
    ensures Signed(nu * HEADER_SIZE) > 0 <==> nu < WORD / 16
    ensures nu < WORD / 16 ==> Signed(nu * HEADER_SIZE) == nu * HEADER_SIZE
  {
    if nu < WORD / HEADER_SIZE {
      assert nu * HEADER_SIZE % WORD == nu * HEADER_SIZE;
    } else {
      assert nu * HEADER_SIZE % WORD == 0;
    }
  }

  function Cleared(mem: Mem, a: nat, n: nat): (mem': Mem)
    ensures forall u :: u in mem && u < a ==> u in mem' && mem'[u] == mem[u]
    ensures forall u: nat :: a <= u < a + n ==> u in mem'
  {
    if n == 0 then mem else Cleared(mem, a, n - 1)[a + n - 1 := Header(0, 0)]
  }

  function SizeAt(mem: Mem, b: nat): nat {
    if b in mem then mem[b].size else 0
  }

  /** A search starting after `freep` meets n units: at bp at once or at freep itself. */
  predicate Offers(mem: Mem, freep: nat, bp: nat, n: nat) {
    freep in mem && (mem[freep].size >= n || (mem[freep].ptr == bp && SizeAt(mem, bp) >= n))
  }

  /** What `morecore` asks for: the wanted units, and never fewer than MIN_UNITS. */
  function AskFor(nu: nat): nat {
    if nu < MIN_UNITS then MIN_UNITS else nu
  }

  /** No free block has n units. */
  ghost predicate NoneFits(mem: Mem, free: set<nat>, n: nat) {
    forall x :: x in free ==> SizeAt(mem, x) < n
  }

  /** p is the first free block of at least n units on the way round from just after `freep`. */
  ghost predicate FirstFit(mem: Mem, free: set<nat>, freep: nat, p: nat, n: nat) {
    && p in free && SizeAt(mem, p) >= n
    && (forall x :: x in free && SizeAt(mem, x) >= n ==> x in Way(free, p, freep))
  }

  lemma FirstFitUnique(mem: Mem, free: set<nat>, freep: nat, p: nat, q: nat, n: nat)
    requires FirstFit(mem, free, freep, p, n) && FirstFit(mem, free, freep, q, n)
    ensures p == q
  {
    assert q in Way(free, p, freep) && p in Way(free, q, freep);
  }

  /** The units of a request that the kernel answers with g: those g - 1 units above `brk`. */
  ghost function Granted(brk: nat, g: nat, n: nat): set<nat> {
    if g == 0 then {} else Units(brk + g - 1, n)
  }

  /** The heap has come by those units and by no others. */
  ghost predicate Gained(v: View, v': View, brk: nat, g: nat, n: nat) {
    forall k: int {:trigger GainedKey(k)} :: GainedKey(k) ==> v'.owner.Keys == v.owner.Keys + Granted(brk, g, n)
  }

  ghost predicate GainedKey(k: int) {
    true
  }

  /** Read as a count: the units granted are new. */
  lemma GainedIs(v: View, v': View, brk: nat, g: nat, n: nat)
    requires Gained(v, v', brk, g, n) && forall u :: u in v.owner ==> u < brk
    ensures v'.owner.Keys == v.owner.Keys + Granted(brk, g, n)
    ensures |v'.owner| == |v.owner| + if g == 0 then 0 else n
  {
    assert GainedKey(0);
    assert v.owner.Keys !! Granted(brk, g, n);
    assert |v.owner.Keys| == |v.owner| && |v'.owner.Keys| == |v'.owner|;
  }

  lemma GainedNone(v: View, brk: nat, n: nat)
    ensures Gained(v, v, brk, 0, n)
  {
  }

  lemma GainedFrom(v0: View, v: View, v1: View, v2: View, brk: nat, g: nat, n: nat)
    requires Gained(v, v1, brk, g, n) && v2.owner.Keys == v1.owner.Keys && v0.owner == v.owner
    ensures Gained(v0, v2, brk, g, n)
  {
    assert GainedKey(0);
  }

  /** A granted request as a live block of the heap. */
  lemma Delivered(mem: Mem, mem': Mem, v: View, brk: nat, g: nat, n: nat)
    requires Sound(mem, v) && n > 0 && BASE < brk && g > 0 && forall u :: u in v.owner ==> u < brk
    requires forall u :: u in mem && u < brk + g - 1 ==> u in mem' && mem'[u] == mem[u]
    requires (forall u: nat :: brk + g - 1 <= u < brk + g - 1 + n ==> u in mem') && mem'[brk + g - 1].size == n
    ensures var a := brk + g - 1; var v' := GrowView(v, a, n);
      && Sound(mem', v') && a !in v.live && Kept(mem, v, mem', v', v.live)
      && (forall x :: x in v.free ==> x in mem')
      && (forall u :: u in v'.owner ==> u < a + n)
      && Gained(v, v', brk, g, n)
  {
    GrowKeeps(mem, mem', v, brk + g - 1, n);
  }

  class Heap {
    /** What the kernel answers to each request for memory: 0 refuses it and g + 1 grants it
        g units above the end of the process's memory. */
    const kernel: nat -> nat
    /** The requests made so far. */
    var calls: nat
    var mem: Mem
    /** 0 is the null pointer the static variable starts with. */
    var freep: nat
    /** The end of the process's memory, kept by the kernel. */
    var brk: nat
    ghost var v: View

    ghost predicate Valid()
      reads this
    {
      && BASE in mem && BASE < brk && (forall u :: u in v.owner ==> u < brk)
      && if freep == 0 then v == View({}, {}, map[]) else Sound(mem, v) && freep in v.free && freep in mem
    }

    constructor (kernel: nat -> nat)
      ensures Valid() && v == View({}, {}, map[]) && this.kernel == kernel && calls == 0
    {
      this.kernel, calls := kernel, 0;
      mem, freep, brk, v := map[BASE := Header(0, 0)], 0, BASE + 1, View({}, {}, map[]);
    }

    /** The kernel's answer to the next request. */
    method Answer() returns (g: nat)
      modifies `calls
      ensures g == kernel(old(calls)) && calls == old(calls) + 1
    {
      g := kernel(calls);
      calls := calls + 1;
    }

    /** The system call, answered by the kernel: on success the n units from a on are new to
        the heap. Other calls of it by the program may leave a gap below a. */
    method Sbrk(n: nat) returns (a: nat)
      requires BASE < brk
      modifies `mem, `brk, `calls
      ensures calls == old(calls) + 1 && (a == 0 <==> kernel(old(calls)) == 0)
      ensures a == 0 ==> mem == old(mem) && brk == old(brk)
      ensures a != 0 ==> a == old(brk) + kernel(old(calls)) - 1 && brk == a + n
      ensures a != 0 ==> forall u: nat :: a <= u < a + n ==> u in mem
      ensures a != 0 ==> forall u :: u in old(mem) && u < a ==> u in mem && mem[u] == old(mem)[u]
    {
      var g := Answer();
      a := 0;
      if g > 0 {
        a := brk + g - 1;
        mem, brk := Cleared(mem, a, n), a + n;
      }
    }

    /** The program writing unit u of one of its blocks, past the header. */
    method Store(u: nat, h: Header)
      requires Valid() && u in v.owner && v.owner[u] in v.live && v.owner[u] != u
      modifies `mem
      ensures Valid() && Kept(old(mem), v, mem, v, v.live - {v.owner[u]})
    {
      PayloadWrite(mem, v, u, h);
      mem := mem[u := h];
    }

    /** The loop of `free`: the one place in the ring where bp belongs. */
    method FindPlace(bp: nat) returns (p: nat)
      requires Valid() && bp in v.live
      ensures p in v.free && p != 0 && Goes(mem, p, bp) && mem[p].ptr in mem && bp in mem
    {
      p := freep;
      ghost var t := Place(mem, v, bp);
      while !(p < bp && bp < mem[p].ptr)
        invariant p in v.free
        decreases Way(v.free, p, t)
      {
        if p >= mem[p].ptr && (p < bp || bp < mem[p].ptr) {
          break;
        }
        WayShrinks(mem, v, p, t);
        p := mem[p].ptr;
      }
      WholeWay(mem, v, p);
    }

    /** The rest of `free`: link bp after p, joining it with whichever neighbour it touches. */
    method Splice(p: nat, bp: nat)
      requires p in mem && bp in mem && mem[p].ptr in mem && p != bp
      modifies `mem, `freep
      ensures mem == FreeMem(old(mem), p, bp) && freep == p
    {
      var q := mem[p].ptr;
      if bp + mem[bp].size == q {
        mem := mem[bp := Header(mem[q].ptr, mem[bp].size + mem[q].size)];
      } else {
        mem := mem[bp := mem[bp].(ptr := q)];
      }
      if p + mem[p].size == bp {
        mem := mem[p := Header(mem[bp].ptr, mem[p].size + mem[bp].size)];
      } else {
        mem := mem[p := mem[p].(ptr := bp)];
      }
      freep := p;
    }

    /** Every unit of the block goes back to the free list; every other live block stays
        where it is with its contents; the invariant (one address-ordered cycle, blocks
        disjoint and exhaustive, no two free blocks adjacent) holds again. */
    method Free(ap: nat)
      requires Valid() && ap > 0 && ap - 1 in v.live
      modifies `mem, `freep, `v
      ensures Valid() && freep != 0 && v.live == old(v.live) - {ap - 1} && v.owner.Keys == old(v.owner.Keys)
      ensures Kept(old(mem), old(v), mem, v, v.live)
      ensures Offers(mem, freep, ap - 1, SizeAt(old(mem), ap - 1))
    {
      var bp := ap - 1;
      var p := FindPlace(bp);
      ghost var v' := FreeKeeps(mem, v, p, bp);
      Splice(p, bp);
      v := v';
    }

    /** The first half of `morecore`: n fresh units made to look like a live block. */
    method Fresh(n: nat) returns (hp: nat)
      requires Valid() && freep != 0 && n > 0
      modifies `mem, `brk, `calls, `v
      ensures Valid() && freep in v.free
      ensures calls == old(calls) + 1 && (hp == 0 <==> kernel(old(calls)) == 0)
      ensures hp == 0 ==> mem == old(mem) && v == old(v) && brk == old(brk)
      ensures hp != 0 ==> hp in mem && mem[hp].size == n && hp !in old(v.live) && v.live == old(v.live) + {hp}
      ensures Gained(old(v), v, old(brk), kernel(old(calls)), n)
      ensures hp != 0 ==> Kept(old(mem), old(v), mem, v, old(v.live))
    {
      hp := Sbrk(n);
      if hp != 0 {
        mem := mem[hp := mem[hp].(size := n)];
        Delivered(old(mem), mem, v, old(brk), kernel(old(calls)), n);
        v := GrowView(v, hp, n);
      } else {
        GainedNone(v, brk, n);
      }
    }

    /** One request for nu units, or MIN_UNITS if that is more: what is granted, and nothing
        else, joins the free list, placed where the search that goes on from `freep` meets a
        large enough block before it can be back at `freep` without one. */
    method Morecore(nu: nat) returns (r: Outcome)
      requires Valid() && freep != 0 && 0 < nu <= WORD / HEADER_SIZE
      modifies this
      ensures Valid() && freep != 0 && v.live == old(v.live) && Kept(old(mem), old(v), mem, v, v.live)
      ensures r.Fault? <==> nu >= WORD / 16
      ensures calls == old(calls) + if r.Fault? then 0 else 1
      ensures !r.Fault? ==> (r.Null? <==> kernel(old(calls)) == 0)
      ensures !r.Fault? ==> Gained(old(v), v, old(brk), kernel(old(calls)), AskFor(nu))
      ensures !r.Block? ==> mem == old(mem) && v == old(v) && freep == old(freep) && brk == old(brk)
      ensures r.Block? ==> r.addr == freep && freep in mem && Offers(mem, freep, mem[freep].ptr, nu)
    {
      var n := if nu < MIN_UNITS then MIN_UNITS else nu;
      AskExact(n);
      if Signed(n * HEADER_SIZE) <= 0 {
        KeptSame(mem, v);
        return Fault;
      }
      var hp := Fresh(n);
      if hp == 0 {
        KeptSame(mem, v);
        return Null;
      }
      ghost var mem1, v1 := mem, v;
      Free(hp + 1);
      KeptTrans(old(mem), old(v), mem1, v1, mem, v, old(v.live));
      GainedFrom(old(v), old(v), v1, v, old(brk), kernel(old(calls)), n);
      return Block(freep);
    }

    /** Cutting n units off the end of free block p. */
    method Split(p: nat, n: nat) returns (bp: nat)
      requires p in mem && 0 < n < mem[p].size && p + mem[p].size - n in mem
      modifies `mem
      ensures mem == CarveMem(old(mem), p, n) && bp == p + old(mem)[p].size - n
    {
      mem := mem[p := mem[p].(size := mem[p].size - n)];
      bp := p + mem[p].size;
      mem := mem[bp := mem[bp].(size := n)];
    }

    /** The branch of `malloc` that has found a large enough block p, the one after prevp. */
    method HandOut(prevp: nat, n: nat) returns (bp: nat)
      requires Valid() && freep != 0 && prevp in v.free && n > 0 && prevp in mem && SizeAt(mem, mem[prevp].ptr) >= n
      modifies `mem, `freep, `v
      ensures Valid() && freep != 0 && bp !in old(v.live) && v.live == old(v.live) + {bp} && SizeAt(mem, bp) == n
      ensures v.owner.Keys == old(v.owner.Keys) && Kept(old(mem), old(v), mem, v, old(v.live))
      ensures var p := old(mem[prevp].ptr); bp == p + SizeAt(old(mem), p) - n && freep == prevp
    {
      var p := mem[prevp].ptr;
      WholeWay(mem, v, prevp);
      if mem[p].size == n {
        TakeKeeps(mem, v, prevp);
        mem := mem[prevp := mem[prevp].(ptr := mem[p].ptr)];
        bp, v := p, TakeView(v, p);
      } else {
        CarveKeeps(mem, v, p, n);
        bp := Split(p, n);
        v := CarveView(v, p, bp);
      }
      freep := prevp;
    }

    /** The first call finds `freep` null and makes the ring of `base` alone. */
    method Init()
      requires Valid()
      modifies `mem, `freep, `v
      ensures Valid() && freep in v.free && v.live == old(v.live) && v.owner == old(v.owner)
      ensures Kept(old(mem), old(v), mem, v, v.live)
      ensures v.free - {BASE} <= old(v.free) <= v.free
      ensures old(freep) != 0 ==> freep == old(freep) && mem == old(mem) && v == old(v)
      ensures forall x :: x in v.free ==> SizeAt(mem, x) == if x in old(v.free) then SizeAt(old(mem), x) else 0
    {
      if freep == 0 {
        mem := mem[BASE := mem[BASE].(ptr := BASE)];
        freep := BASE;
        mem := mem[BASE := mem[BASE].(size := 0)];
        v := View({BASE}, {}, map[]);
        assert Inv(mem, v);
      } else {
        KeptSame(mem, v);
      }
    }

    /** The loop of `malloc`, up to a free block of at least n units: the one after prevp.
        It is the first on the way; memory is asked for only when no free block fits, and at
        most once: the measure counts the request and the blocks still to pass before `freep`. */
    method Search(n: nat) returns (r: Outcome, prevp: nat)
      requires Valid() && freep != 0 && 0 < n <= WORD / HEADER_SIZE
      modifies this
      ensures Valid() && freep != 0 && v.live == old(v.live) && Kept(old(mem), old(v), mem, v, v.live)
      ensures r.Block? ==> prevp in v.free && prevp in mem && SizeAt(mem, mem[prevp].ptr) >= n
      ensures !r.Block? ==> v == old(v) && brk == old(brk) && mem == old(mem)
      ensures r.Fault? <==> n >= WORD / 16 && NoneFits(old(mem), old(v.free), n)
      ensures r.Null? <==>
        n < WORD / 16 && NoneFits(old(mem), old(v.free), n) && kernel(old(calls)) == 0
      ensures calls == old(calls) + if n < WORD / 16 && NoneFits(old(mem), old(v.free), n) then 1 else 0
      ensures !NoneFits(old(mem), old(v.free), n) ==>
        && mem == old(mem) && v == old(v) && brk == old(brk)
        && FirstFit(mem, v.free, old(freep), mem[prevp].ptr, n)
      ensures r.Block? && NoneFits(old(mem), old(v.free), n) ==>
        Gained(old(v), v, old(brk), kernel(old(calls)), AskFor(n))
    {
      prevp := freep;
      WholeWay(mem, v, freep);
      KeptSame(mem, v);
      var p := mem[prevp].ptr;
      ghost var grown := false;
      while mem[p].size < n
        invariant Valid() && freep != 0 && prevp in v.free && prevp in mem && p == mem[prevp].ptr
        invariant p in v.free && p in mem
        invariant v.live == old(v.live) && Kept(old(mem), old(v), mem, v, v.live)
        invariant !grown ==> mem == old(mem) && v == old(v) && brk == old(brk)
        invariant !grown ==> calls == old(calls) && freep == old(freep)
        invariant !grown ==> forall x :: x in v.free && SizeAt(mem, x) >= n ==> x in Way(v.free, p, freep)
        invariant grown ==> NoneFits(old(mem), old(v.free), n)
        invariant grown ==> calls == old(calls) + 1 && kernel(old(calls)) != 0
        invariant grown ==> Gained(old(v), v, old(brk), kernel(old(calls)), AskFor(n))
        invariant grown ==> Meets(mem, freep, p, n) && n < WORD / 16
        decreases !grown, Way(v.free, p, freep)
      {
        if p == freep {
          r := Morecore(n);
          if !r.Block? {
            return;
          }
          p := freep;
          grown := true;
        } else {
          WayShrinks(mem, v, p, freep);
        }
        prevp := p;
        WholeWay(mem, v, prevp);
        p := mem[p].ptr;
      }
      r := Block(0);
    }

    /** A block of exactly the rounded-up size that was not live before, the end of the first
        free block that fits; every block live before is still live, in place and unchanged.
        Only if no free block fits is the kernel asked, once, and only if it refuses is the
        result null. */
    method Malloc(nbytes: nat) returns (r: Outcome)
      requires Valid() && nbytes < WORD
      modifies this
      ensures Valid() && Kept(old(mem), old(v), mem, v, old(v.live))
      ensures r.Block? ==> r.addr > 0 && r.addr - 1 !in old(v.live) && v.live == old(v.live) + {r.addr - 1}
      ensures r.Block? ==> SizeAt(mem, r.addr - 1) == UnitsFor(nbytes)
      ensures !r.Block? ==> v.live == old(v.live) && v.owner == old(v.owner) && brk == old(brk)
      ensures r.Fault? <==> (
        && WORD / 2 - 16 < nbytes <= WORD - HEADER_SIZE
        && NoneFits(old(mem), old(v.free), UnitsFor(nbytes)))
      ensures calls == old(calls) +
        if NoneFits(old(mem), old(v.free), UnitsFor(nbytes)) && !r.Fault? then 1 else 0
      ensures r.Null? <==>
        !r.Fault? && NoneFits(old(mem), old(v.free), UnitsFor(nbytes)) && kernel(old(calls)) == 0
      ensures !NoneFits(old(mem), old(v.free), UnitsFor(nbytes)) ==>
        && v.owner.Keys == old(v.owner.Keys) && brk == old(brk)
        && exists p: nat :: FirstFit(old(mem), old(v.free), old(freep), p, UnitsFor(nbytes))
                       && r == Block(p + SizeAt(old(mem), p) - UnitsFor(nbytes) + 1)
      ensures r.Block? && NoneFits(old(mem), old(v.free), UnitsFor(nbytes)) ==>
        Gained(old(v), v, old(brk), kernel(old(calls)), AskFor(UnitsFor(nbytes)))
    {
      var nunits := UnitsFor(nbytes);
      UnitsBound(nbytes);
      Init();
      ghost var mem1, v1 := mem, v;
      SameRoom(old(mem), old(v.free), mem1, v1.free, nunits);
      var prevp;
      r, prevp := Search(nunits);
      if r.Block? {
        ghost var mem2, v2 := mem, v;
        var bp := HandOut(prevp, nunits);
        KeptTrans(mem1, v1, mem2, v2, mem, v, old(v.live));
        KeptTrans(old(mem), old(v), mem1, v1, mem, v, old(v.live));
        if NoneFits(old(mem), old(v.free), nunits) {
          GainedFrom(old(v), v1, v2, v, old(brk), kernel(old(calls)), AskFor(nunits));
        }
        r := Block(bp + 1);
      }
    }
  }

  /** A first request for half the address space asks `sbrk` for a negative count. */
  method LargeFirstRequest(kernel: nat -> nat) returns (r: Outcome)
    ensures r.Fault? && Signed(UnitsFor(WORD / 2) * HEADER_SIZE) < 0
  {
    var heap := new Heap(kernel);
    r := heap.Malloc(WORD / 2);
  }

  /** The ring that the first call makes has no room. */
  lemma SameRoom(mem: Mem, free: set<nat>, mem': Mem, free': set<nat>, n: nat)
    requires free <= free' && n > 0
    requires forall x :: x in free' ==> SizeAt(mem', x) == if x in free then SizeAt(mem, x) else 0
    ensures NoneFits(mem', free', n) <==> NoneFits(mem, free, n)
  {
    if x :| x in free && SizeAt(mem, x) >= n {
      assert SizeAt(mem', x) >= n;
    }
  }

  /** What the fresh memory guarantees while the search goes round: p is large enough, or
      `freep`, still ahead, is. */
  predicate Meets(mem: Mem, freep: nat, p: nat, n: nat) {
    freep in mem && (mem[freep].size >= n || (p == mem[freep].ptr && SizeAt(mem, p) >= n))
  }

  lemma UnitsBound(nbytes: nat)
    requires nbytes < WORD
    ensures 0 < UnitsFor(nbytes) <= WORD / HEADER_SIZE
    ensures UnitsFor(nbytes) >= WORD / 16 <==> WORD / 2 - 16 < nbytes <= WORD - HEADER_SIZE
  {
  }
}
