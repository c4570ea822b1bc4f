/** Second-chance page replacement: the doubly linked list of resident pages, the rotation
    that picks a victim, and the exchange of a page with one in the swap file. */
module SecondChance {
  import opened Basics

  const PGSIZE: nat := 4096

  type Page = p: seq<bv8> | |p| == PGSIZE witness ZeroPage()

  /** A page-table entry: present with a frame and its accessed bit, or in the swap file. */
  datatype Pte = Present(frame: nat, accessed: bool) | OnDisk

  /** What `allocuvm` comes to for one page: the page, out of memory, or a panic. */
  datatype Growth = Grown | OutOfMemory | Panicked

  /** The mark of an unused slot. */
  const NONE: nat := 0xffff_ffff

  // ---------------------------------------------------------------- the list

  /** The slot at place i of the list, and `nil` before the first and after the last. */
  function Spot(nil: nat, order: seq<nat>, i: int): nat {
    if 0 <= i < |order| then order[i] else nil
  }

  /** head, tail, next and prev describe the list `order`. An empty list leaves `tail`
      pointing anywhere: removing the only page does not reset it. */
  ghost predicate Linked(next: seq<nat>, prev: seq<nat>, head: nat, tail: nat, order: seq<nat>) {
    && |prev| == |next| && head == Spot(|next|, order, 0) && (order != [] ==> tail == order[|order| - 1])
    && (forall i :: 0 <= i < |order| ==> order[i] < |next|)
    && (forall i, j :: 0 <= i < j < |order| ==> order[i] != order[j])
    && forall i :: 0 <= i < |order| ==> LinkedAt(next, prev, order, i)
  }

  ghost predicate LinkedAt(next: seq<nat>, prev: seq<nat>, order: seq<nat>, i: nat) {
    && i < |order| && order[i] < |next| == |prev|
    && next[order[i]] == Spot(|next|, order, i + 1) && prev[order[i]] == Spot(|next|, order, i - 1)
  }

  /** One turn of the rotation: the tail becomes the head. */
  lemma RotateLinked(next: seq<nat>, prev: seq<nat>, head: nat, tail: nat, order: seq<nat>)
    requires Linked(next, prev, head, tail, order) && |order| >= 2
    ensures tail < |prev| && prev[tail] < |next| && head < |prev|
    ensures Linked(next[prev[tail] := |next|][tail := head], prev[tail := |next|][head := tail], tail, prev[tail],
              [tail] + order[..|order| - 1])
  {
    var n, nil := |order|, |next|;
    assert LinkedAt(next, prev, order, n - 1) && LinkedAt(next, prev, order, 0);
    var order' := [tail] + order[..n - 1];
    var next', prev' := next[prev[tail] := nil][tail := head], prev[tail := nil][head := tail];
    forall i | 0 <= i < n ensures LinkedAt(next', prev', order', i) {
      if i > 0 {
        assert LinkedAt(next, prev, order, i - 1);
        assert order'[i] == order[i - 1] != tail;
        assert i > 1 ==> order[i - 1] != order[0];
        assert i < n - 1 ==> order[i - 1] != order[n - 2];
      }
    }
  }

  /** Putting slot s, not in the list, at the front. */
  lemma PushLinked(next: seq<nat>, prev: seq<nat>, head: nat, tail: nat, order: seq<nat>, s: nat)
    requires Linked(next, prev, head, tail, order) && s < |next| && s !in order
    ensures var prev1 := prev[s := |next|];
      Linked(next[s := head], if order == [] then prev1 else prev1[head := s], s,
        if order == [] then s else tail, [s] + order)
  {
    var order', nil := [s] + order, |next|;
    var prev1 := prev[s := nil];
    var next', prev' := next[s := head], if order == [] then prev1 else prev1[head := s];
    forall i | 0 <= i < |order'| ensures LinkedAt(next', prev', order', i) {
      if i > 0 {
        assert LinkedAt(next, prev, order, i - 1);
        assert order'[i] == order[i - 1];
        assert i > 1 ==> order[i - 1] != order[0];
      }
    }
  }

  function Without(order: seq<nat>, k: nat): seq<nat>
    requires k < |order|
  {
    order[..k] + order[k + 1..]
  }

  /** What the SCFIFO branch of `deallocuvm` leaves of `next` and `prev` when it takes out
      the k-th slot: the slot's own links are cleared. */
  function CutNext(next: seq<nat>, order: seq<nat>, k: nat): seq<nat>
    requires k < |order| && forall i :: 0 <= i < |order| ==> order[i] < |next|
  {
    (if k > 0 then next[order[k - 1] := Spot(|next|, order, k + 1)] else next)[order[k] := |next|]
  }

  function CutPrev(prev: seq<nat>, order: seq<nat>, k: nat): seq<nat>
    requires k < |order| && forall i :: 0 <= i < |order| ==> order[i] < |prev|
  {
    (if k + 1 < |order| then prev[order[k + 1] := Spot(|prev|, order, k - 1)] else prev)[order[k] := |prev|]
  }

  lemma WithoutAt(order: seq<nat>, k: nat, i: nat)
    requires k < |order| && i < |order| - 1
    ensures |Without(order, k)| == |order| - 1 && Without(order, k)[i] == order[if i < k then i else i + 1]
  {
  }

  lemma CutAt(next: seq<nat>, prev: seq<nat>, head: nat, tail: nat, order: seq<nat>, k: nat, i: nat)
    requires Linked(next, prev, head, tail, order) && k < |order| && i < |order| - 1
    ensures LinkedAt(CutNext(next, order, k), CutPrev(prev, order, k), Without(order, k), i)
  {
    var m := if i < k then i else i + 1;
    WithoutAt(order, k, i);
    if i > 0 {
      WithoutAt(order, k, i - 1);
    }
    if i + 1 < |order| - 1 {
      WithoutAt(order, k, i + 1);
    }
    assert LinkedAt(next, prev, order, m);
  }

  lemma WithoutDistinct(order: seq<nat>, k: nat, n: nat)
    requires k < |order| && (forall i :: 0 <= i < |order| ==> order[i] < n)
    requires forall i, j :: 0 <= i < j < |order| ==> order[i] != order[j]
    ensures forall i :: 0 <= i < |Without(order, k)| ==> Without(order, k)[i] < n
    ensures forall i, j :: 0 <= i < j < |Without(order, k)| ==> Without(order, k)[i] != Without(order, k)[j]
  {
    var rest := Without(order, k);
    forall i, j | 0 <= i < j < |rest| ensures rest[i] != rest[j] {
      WithoutAt(order, k, i);
      WithoutAt(order, k, j);
    }
  }

  lemma CutLinked(next: seq<nat>, prev: seq<nat>, head: nat, tail: nat, order: seq<nat>, k: nat)
    requires Linked(next, prev, head, tail, order) && k < |order|
    ensures Linked(CutNext(next, order, k), CutPrev(prev, order, k), if k == 0 then Spot(|next|, order, 1) else head,
              if k > 0 && k + 1 == |order| then order[k - 1] else tail, Without(order, k))
  {
    var next', prev', rest := CutNext(next, order, k), CutPrev(prev, order, k), Without(order, k);
    WithoutDistinct(order, k, |next|);
    forall i: nat | i < |rest| ensures LinkedAt(next', prev', rest, i) {
      CutAt(next, prev, head, tail, order, k, i);
    }
    if |order| > 1 {
      WithoutAt(order, k, 0);
      WithoutAt(order, k, |order| - 2);
    }
  }

  /** The list after its last k elements have moved to the front one by one. */
  function Rotated(order: seq<nat>, k: nat): (r: seq<nat>)
    requires k <= |order|
    ensures |r| == |order|
  {
    order[|order| - k..] + order[..|order| - k]
  }

  lemma RotatedStep(order: seq<nat>, k: nat)
    requires k < |order|
    ensures var r := Rotated(order, k);
      Rotated(order, k + 1) == [r[|order| - 1]] + r[..|order| - 1] && r[|order| - 1] == order[|order| - 1 - k]
  {
  }

  // ---------------------------------------------------------------- the victim

  predicate Accessed(pte: map<nat, Pte>, a: nat) {
    a in pte && pte[a].Present? && pte[a].accessed
  }

  /** The page k places from the tail, counting the tail itself as 1. */
  function FromTail(vas: seq<nat>, order: seq<nat>, k: nat): nat
    requires 1 <= k <= |order| && forall i :: 0 <= i < |order| ==> order[i] < |vas|
  {
    vas[order[|order| - k]]
  }

  /** The victim is k places from the tail: the first page from there whose accessed bit is
      clear, or the old head when every bit is set. */
  ghost predicate IsVictim(vas: seq<nat>, order: seq<nat>, pte: map<nat, Pte>, k: nat)
    requires forall i :: 0 <= i < |order| ==> order[i] < |vas|
  {
    && 1 <= k <= |order|
    && (forall j :: 1 <= j < k ==> Accessed(pte, FromTail(vas, order, j)))
    && (k < |order| ==> !Accessed(pte, FromTail(vas, order, k)))
  }

  /** There is exactly one victim. */
  lemma VictimUnique(vas: seq<nat>, order: seq<nat>, pte: map<nat, Pte>, k: nat, m: nat)
    requires forall i :: 0 <= i < |order| ==> order[i] < |vas|
    requires IsVictim(vas, order, pte, k) && IsVictim(vas, order, pte, m)
    ensures k == m
  {
    var a, b := FromTail(vas, order, k), FromTail(vas, order, m);
    assert !(Accessed(pte, a) && !Accessed(pte, a)) && !(Accessed(pte, b) && !Accessed(pte, b));
  }

  /** The bits of the pages passed over, and of the victim, are clear; nothing else changed. */
  ghost predicate BitsCleared(vas: seq<nat>, order: seq<nat>, pte: map<nat, Pte>, pte': map<nat, Pte>, k: nat)
    requires k <= |order| && forall i :: 0 <= i < |order| ==> order[i] < |vas|
  {
    && pte'.Keys == pte.Keys
    && (forall a :: a in pte && !Passed(vas, order, k, a) ==> pte'[a] == pte[a])
    && forall a :: a in pte && Passed(vas, order, k, a) ==>
      pte'[a] == if pte[a].Present? then pte[a].(accessed := false) else pte[a]
  }

  ghost predicate Passed(vas: seq<nat>, order: seq<nat>, k: nat, a: nat)
    requires k <= |order| && forall i :: 0 <= i < |order| ==> order[i] < |vas|
  {
    exists j :: 1 <= j <= k && FromTail(vas, order, j) == a
  }

  /** The page table after the selection of the page k places from the tail. */
  ghost function Cleared(vas: seq<nat>, order: seq<nat>, pte: map<nat, Pte>, k: nat): map<nat, Pte>
    requires k <= |order| && forall i :: 0 <= i < |order| ==> order[i] < |vas|
  {
    map a | a in pte ::
      if Passed(vas, order, k, a) && pte[a].Present? then pte[a].(accessed := false) else pte[a]
  }

  lemma ClearedIs(vas: seq<nat>, order: seq<nat>, pte: map<nat, Pte>, pte': map<nat, Pte>, k: nat)
    requires k <= |order| && forall i :: 0 <= i < |order| ==> order[i] < |vas|
    requires BitsCleared(vas, order, pte, pte', k)
    ensures pte' == Cleared(vas, order, pte, k)
  {
    assert pte'.Keys == Cleared(vas, order, pte, k).Keys;
  }

  lemma PassedMore(vas: seq<nat>, order: seq<nat>, k: nat, a: nat)
    requires k < |order| && forall i :: 0 <= i < |order| ==> order[i] < |vas|
    ensures Passed(vas, order, k + 1, a) <==> Passed(vas, order, k, a) || FromTail(vas, order, k + 1) == a
  {
    if FromTail(vas, order, k + 1) == a {
      assert Passed(vas, order, k + 1, a);
    }
  }

  lemma ClearedMore(vas: seq<nat>, order: seq<nat>, pte: map<nat, Pte>, mid: map<nat, Pte>, k: nat)
    requires k < |order| && forall i :: 0 <= i < |order| ==> order[i] < |vas|
    requires BitsCleared(vas, order, pte, mid, k) && FromTail(vas, order, k + 1) in mid
    ensures BitsCleared(vas, order, pte, Unmarked(mid, FromTail(vas, order, k + 1)), k + 1)
  {
    forall a | a in pte
      ensures Passed(vas, order, k + 1, a) <==> Passed(vas, order, k, a) || FromTail(vas, order, k + 1) == a
    {
      PassedMore(vas, order, k, a);
    }
  }

  function Unmarked(pte: map<nat, Pte>, a: nat): map<nat, Pte>
    requires a in pte
  {
    if pte[a].Present? then pte[a := pte[a].(accessed := false)] else pte
  }

  // ---------------------------------------------------------------- memory

  /** What the page table, the frames and the swap file hold together: `vas` and `order`
      name the resident pages, `swapva` the page in each slot of the swap file. */
  datatype Memory = Memory(vas: seq<nat>, order: seq<nat>, pte: map<nat, Pte>, frames: map<nat, Page>,
                           swapva: seq<nat>, swap: seq<Page>)

  /** No two places of the list hold the same page. */
  ghost predicate DistinctPages(vas: seq<nat>, order: seq<nat>) {
    && (forall i :: 0 <= i < |order| ==> order[i] < |vas|)
    && forall i, j :: 0 <= i < j < |order| ==> vas[order[i]] != vas[order[j]]
  }

  ghost predicate InList(vas: seq<nat>, order: seq<nat>, a: nat) {
    exists s :: s in order && s < |vas| && vas[s] == a
  }

  ghost predicate InSwap(swapva: seq<nat>, a: nat) {
    exists i :: 0 <= i < |swapva| && swapva[i] == a
  }

  /** The list has exactly the occupied slots, and they hold different present pages. */
  ghost predicate Slots(m: Memory) {
    && (forall s :: s in m.order ==> s < |m.vas| && OnFrame(m, m.vas[s]))
    && (forall s :: 0 <= s < |m.vas| ==> (m.vas[s] != NONE <==> s in m.order))
    && (forall s, t :: s in m.order && t in m.order && s != t ==> m.vas[s] != m.vas[t])
  }

  /** Every present page is in the list, and no two share a frame. */
  ghost predicate Mapped(m: Memory) {
    && (forall a :: a in m.pte && m.pte[a].Present? ==> InList(m.vas, m.order, a) && a != NONE)
    && forall a, b :: a in m.pte && b in m.pte && a != b && m.pte[a].Present? && m.pte[b].Present? ==>
      m.pte[a].frame != m.pte[b].frame
  }

  ghost predicate Resident(m: Memory) {
    Slots(m) && Mapped(m)
  }

  ghost predicate OnFrame(m: Memory, a: nat) {
    a in m.pte && m.pte[a].Present? && m.pte[a].frame in m.frames
  }

  /** Exactly the pages marked as swapped out have a slot of the swap file, one each. */
  ghost predicate Swapped(m: Memory) {
    && |m.swap| == |m.swapva|
    && (forall i :: 0 <= i < |m.swapva| && m.swapva[i] != NONE ==> m.swapva[i] in m.pte && m.pte[m.swapva[i]] == OnDisk)
    && (forall i, j :: 0 <= i < j < |m.swapva| && m.swapva[i] != NONE ==> m.swapva[i] != m.swapva[j])
    && forall a :: a in m.pte && m.pte[a] == OnDisk ==> InSwap(m.swapva, a) && a != NONE
  }

  /** The program sees `page` at address a: in its frame, or once it has been brought in. */
  ghost predicate Sees(m: Memory, a: nat, page: Page) {
    && a in m.pte
    && match m.pte[a]
       case Present(f, _) => f in m.frames && m.frames[f] == page
       case OnDisk => exists i :: 0 <= i < |m.swapva| && i < |m.swap| && m.swapva[i] == a && m.swap[i] == page
  }

  /** Every address reads as before. The verifier unfolds this only where `Sight` is
      mentioned. */
  ghost predicate SameView(m: Memory, m': Memory) {
    forall key: int {:trigger Sight(key)} :: Sight(key) ==>
      forall a, page :: Sees(m, a, page) ==> Sees(m', a, page)
  }

  ghost predicate Sight(key: int) {
    true
  }

  lemma ViewSame(m: Memory)
    ensures SameView(m, m)
  {
  }

  lemma ViewTrans(m0: Memory, m1: Memory, m2: Memory)
    requires SameView(m0, m1) && SameView(m1, m2)
    ensures SameView(m0, m2)
  {
    assert Sight(0);
    forall a, page | Sees(m0, a, page) ensures Sees(m2, a, page) {
      assert Sees(m1, a, page);
    }
  }

  lemma RotatedHas(order: seq<nat>, k: nat)
    requires k <= |order|
    ensures forall s :: s in Rotated(order, k) <==> s in order
  {
    assert order == order[..|order| - k] + order[|order| - k..];
  }

  lemma RotatedResident(m: Memory, k: nat)
    requires Resident(m) && k <= |m.order|
    ensures Resident(m.(order := Rotated(m.order, k)))
  {
    RotatedHas(m.order, k);
    forall a | InList(m.vas, m.order, a) ensures InList(m.vas, Rotated(m.order, k), a) {
      var s :| s in m.order && s < |m.vas| && m.vas[s] == a;
      assert s in Rotated(m.order, k);
    }
  }

  lemma PagesDistinct(m: Memory)
    requires Resident(m) && forall i, j :: 0 <= i < j < |m.order| ==> m.order[i] != m.order[j]
    ensures DistinctPages(m.vas, m.order) && forall i :: 0 <= i < |m.order| ==> m.vas[m.order[i]] in m.pte
  {
    forall i | 0 <= i < |m.order| ensures m.order[i] in m.order && OnFrame(m, m.vas[m.order[i]]) {
    }
  }

  /** The page tables differ in accessed bits only. */
  ghost predicate SameButBits(pte: map<nat, Pte>, pte': map<nat, Pte>) {
    && pte'.Keys == pte.Keys
    && forall a {:trigger pte'[a]} {:trigger pte[a]} :: a in pte ==>
      pte'[a] == pte[a] || (pte[a].Present? && pte'[a] == pte[a].(accessed := false))
  }

  lemma BitsKept(m: Memory, pte': map<nat, Pte>)
    requires Resident(m) && Swapped(m) && SameButBits(m.pte, pte')
    ensures Resident(m.(pte := pte')) && Swapped(m.(pte := pte')) && SameView(m, m.(pte := pte'))
  {
    var m' := m.(pte := pte');
    forall a | a in m.pte ensures pte'[a].Present? == m.pte[a].Present? {
    }
    forall s | s in m.order ensures OnFrame(m', m.vas[s]) {
      assert OnFrame(m, m.vas[s]);
    }
  }

  lemma ClearedBits(m: Memory, pte': map<nat, Pte>, k: nat)
    requires k <= |m.order| && forall i :: 0 <= i < |m.order| ==> m.order[i] < |m.vas|
    requires BitsCleared(m.vas, m.order, m.pte, pte', k)
    ensures SameButBits(m.pte, pte')
  {
    forall a | a in m.pte
      ensures pte'[a] == m.pte[a] || (m.pte[a].Present? && pte'[a] == m.pte[a].(accessed := false))
    {
      assert Passed(m.vas, m.order, k, a) || !Passed(m.vas, m.order, k, a);
    }
  }

  /** Rotating the list and clearing bits changes nothing the program can see. */
  lemma RotationKeeps(m: Memory, pte': map<nat, Pte>, k: nat)
    requires Resident(m) && Swapped(m) && k <= |m.order| && forall i :: 0 <= i < |m.order| ==> m.order[i] < |m.vas|
    requires BitsCleared(m.vas, m.order, m.pte, pte', k)
    ensures var m' := m.(order := Rotated(m.order, k), pte := pte');
      Resident(m') && Swapped(m') && SameView(m, m')
  {
    ClearedBits(m, pte', k);
    BitsKept(m, pte');
    RotatedResident(m.(pte := pte'), k);
    SameLists(m.(pte := pte'), Rotated(m.order, k));
    ViewTrans(m, m.(pte := pte'), m.(order := Rotated(m.order, k), pte := pte'));
  }

  lemma SameLists(m: Memory, order': seq<nat>)
    ensures SameView(m, m.(order := order')) && (Swapped(m) ==> Swapped(m.(order := order')))
  {
  }

  ghost predicate HeadOnFrame(m: Memory) {
    m.order != [] && m.order[0] < |m.vas| && OnFrame(m, m.vas[m.order[0]])
  }

  /** Every slot in the list has a place in the table. */
  ghost predicate Placed(m: Memory) {
    forall i :: 0 <= i < |m.order| ==> m.order[i] < |m.vas|
  }

  /** The page k places from the tail has been brought to the head. */
  ghost function Chosen(m: Memory, k: nat): Memory
    requires k <= |m.order| && Placed(m)
  {
    m.(order := Rotated(m.order, k), pte := Cleared(m.vas, m.order, m.pte, k))
  }

  /** k is the place of the victim of the rotation and m' is m with it at the head. */
  ghost predicate Chooses(m: Memory, k: nat, m': Memory) {
    Placed(m) && IsVictim(m.vas, m.order, m.pte, k) && m' == Chosen(m, k) && HeadOnFrame(m')
  }

  /** The victim v at the head goes to slot i of the swap file, which is free; its place in
      the list goes to page a, which is not mapped yet and gets the frame f, zeroed. */
  ghost function PagedOut(m: Memory, i: nat, a: nat, f: nat, zero: Page): Memory
    requires HeadOnFrame(m) && i < |m.swapva| == |m.swap|
  {
    var v := m.vas[m.order[0]];
    m.(vas := m.vas[m.order[0] := a], pte := m.pte[v := OnDisk][a := Present(f, false)],
       frames := (m.frames - {m.pte[v].frame})[f := zero],
       swapva := m.swapva[i := v], swap := m.swap[i := m.frames[m.pte[v].frame]])
  }

  /** Page a, in slot i of the swap file, changes places with the victim at the head. */
  ghost function Exchanged(m: Memory, i: nat, a: nat): Memory
    requires HeadOnFrame(m) && i < |m.swapva| == |m.swap|
  {
    var v := m.vas[m.order[0]];
    var f := m.pte[v].frame;
    m.(vas := m.vas[m.order[0] := a], pte := m.pte[a := Present(f, false)][v := OnDisk],
       frames := m.frames[f := m.swap[i]], swapva := m.swapva[i := v], swap := m.swap[i := m.frames[f]])
  }

  ghost predicate Exchanges(m: Memory, a: nat, m': Memory) {
    HeadOnFrame(m) && exists i: nat :: i < |m.swapva| == |m.swap| && m.swapva[i] == a && m' == Exchanged(m, i, a)
  }

  /** Page a has taken the place of the page at the head, which has gone to the first free slot
      of the swap file; `kalloc` has given the frame f. */
  ghost predicate Pages(m: Memory, a: nat, f: nat, m': Memory) {
    && HeadOnFrame(m) && f !in m.frames - {m.pte[m.vas[m.order[0]]].frame}
    && exists i: nat {:trigger FirstFree(m, i)} :: FirstFree(m, i) && m' == PagedOut(m, i, a, f, ZeroPage())
  }

  /** The page at the head has gone to the swap file, but its place is that of page a, for which
      there was no frame. */
  ghost predicate Loses(m: Memory, a: nat, m': Memory) {
    HeadOnFrame(m) && exists i: nat {:trigger FirstFree(m, i)} :: FirstFree(m, i) && m' == SwappedOut(m, i, a)
  }

  /** Page a has been put into the first unused slot, which has become the head of the list. */
  ghost predicate Records(m: Memory, a: nat, f: nat, m': Memory) {
    f !in m.frames && exists i: nat {:trigger Recorded(m, i, a, f, ZeroPage())} ::
      && i < |m.vas| && m.vas[i] == NONE && (forall j :: 0 <= j < i ==> m.vas[j] != NONE)
      && m' == Recorded(m, i, a, f, ZeroPage())
  }

  ghost predicate FirstFree(m: Memory, i: nat) {
    i < |m.swapva| == |m.swap| && m.swapva[i] == NONE && forall j :: 0 <= j < i ==> m.swapva[j] != NONE
  }

  lemma ByPages(m: Memory, i: nat, a: nat, f: nat, m': Memory)
    requires HeadOnFrame(m) && FirstFree(m, i)
    requires f !in m.frames - {m.pte[m.vas[m.order[0]]].frame} && m' == PagedOut(m, i, a, f, ZeroPage())
    ensures Pages(m, a, f, m')
  {
  }

  lemma ByLoses(m: Memory, i: nat, a: nat, m': Memory)
    requires HeadOnFrame(m) && FirstFree(m, i) && m' == SwappedOut(m, i, a)
    ensures Loses(m, a, m')
  {
  }

  /** The page in the slot at the head. */
  lemma HeadPage(m: Memory)
    requires Resident(m) && m.order != []
    ensures m.order[0] < |m.vas| && OnFrame(m, m.vas[m.order[0]]) && m.vas[m.order[0]] != NONE
    ensures forall s :: s in m.order && s != m.order[0] ==> m.vas[s] != m.vas[m.order[0]]
  {
    assert m.order[0] in m.order;
  }

  lemma ExchangeSlots(m: Memory, i: nat, a: nat)
    requires Resident(m) && Swapped(m) && HeadOnFrame(m) && i < |m.swapva| && m.swapva[i] == a != NONE
    ensures Slots(Exchanged(m, i, a))
  {
    HeadPage(m);
    var m', h := Exchanged(m, i, a), m.order[0];
    assert m.pte[a] == OnDisk;
    forall s | s in m.order ensures OnFrame(m', m'.vas[s]) {
      assert OnFrame(m, m.vas[s]);
    }
  }

  lemma ExchangeMapped(m: Memory, i: nat, a: nat)
    requires Resident(m) && Swapped(m) && HeadOnFrame(m) && i < |m.swapva| && m.swapva[i] == a != NONE
    ensures Mapped(Exchanged(m, i, a))
  {
    HeadPage(m);
    var m', h := Exchanged(m, i, a), m.order[0];
    assert m.pte[a] == OnDisk;
    forall b | b in m'.pte && m'.pte[b].Present? ensures InList(m'.vas, m'.order, b) && b != NONE {
      if b == a {
        assert m'.vas[h] == a;
      } else {
        var s :| s in m.order && s < |m.vas| && m.vas[s] == b;
        assert m'.vas[s] == b;
      }
    }
  }

  lemma ExchangeSwapped(m: Memory, i: nat, a: nat)
    requires Resident(m) && Swapped(m) && HeadOnFrame(m) && i < |m.swapva| && m.swapva[i] == a != NONE
    ensures Swapped(Exchanged(m, i, a))
  {
    HeadPage(m);
    var m', v := Exchanged(m, i, a), m.vas[m.order[0]];
    assert m.pte[a] == OnDisk;
    forall b | b in m'.pte && m'.pte[b] == OnDisk ensures InSwap(m'.swapva, b) && b != NONE {
      if b == v {
        assert m'.swapva[i] == v;
      } else {
        assert InSwap(m.swapva, b);
        var x :| 0 <= x < |m.swapva| && m.swapva[x] == b;
        assert m'.swapva[x] == b;
      }
    }
  }

  /** The exchange of a page with one in the swap file changes nothing the program sees. */
  lemma ExchangeKeepsView(m: Memory, i: nat, a: nat)
    requires Resident(m) && Swapped(m) && HeadOnFrame(m) && i < |m.swapva| && m.swapva[i] == a != NONE
    ensures SameView(m, Exchanged(m, i, a))
  {
    HeadPage(m);
    var m', v := Exchanged(m, i, a), m.vas[m.order[0]];
    assert m.pte[a] == OnDisk;
    forall b, page | Sees(m, b, page) ensures Sees(m', b, page) {
      if b == v {
        assert m'.swapva[i] == v && m'.swap[i] == page;
      } else if m.pte[b] == OnDisk {
        var x :| 0 <= x < |m.swapva| && x < |m.swap| && m.swapva[x] == b && m.swap[x] == page;
        if b != a {
          assert m'.swapva[x] == b && m'.swap[x] == page;
        }
      }
    }
  }

  ghost function VictimFrame(m: Memory): nat
    requires HeadOnFrame(m)
  {
    m.pte[m.vas[m.order[0]]].frame
  }

  lemma PagedOutSlots(m: Memory, i: nat, a: nat, f: nat, zero: Page)
    requires Resident(m) && Swapped(m) && HeadOnFrame(m) && i < |m.swapva| && a !in m.pte && a != NONE
    ensures Slots(PagedOut(m, i, a, f, zero))
  {
    HeadPage(m);
    var m', h := PagedOut(m, i, a, f, zero), m.order[0];
    forall s | s in m.order ensures OnFrame(m', m'.vas[s]) {
      assert OnFrame(m, m.vas[s]);
    }
  }

  lemma PagedOutMapped(m: Memory, i: nat, a: nat, f: nat, zero: Page)
    requires Resident(m) && Swapped(m) && HeadOnFrame(m) && i < |m.swapva| && a !in m.pte && a != NONE
    requires f in m.frames ==> f == VictimFrame(m)
    requires forall b :: b in m.pte && m.pte[b].Present? ==> m.pte[b].frame in m.frames
    ensures Mapped(PagedOut(m, i, a, f, zero))
  {
    HeadPage(m);
    var m', h := PagedOut(m, i, a, f, zero), m.order[0];
    forall b | b in m'.pte && m'.pte[b].Present? ensures InList(m'.vas, m'.order, b) && b != NONE {
      if b == a {
        assert m'.vas[h] == a;
      } else {
        var s :| s in m.order && s < |m.vas| && m.vas[s] == b;
        assert m'.vas[s] == b;
      }
    }
  }

  lemma FramesHeld(m: Memory)
    requires Resident(m)
    ensures forall b :: b in m.pte && m.pte[b].Present? ==> m.pte[b].frame in m.frames
  {
    forall b | b in m.pte && m.pte[b].Present? ensures m.pte[b].frame in m.frames {
      var s :| s in m.order && s < |m.vas| && m.vas[s] == b;
      assert OnFrame(m, m.vas[s]);
    }
  }

  lemma PagedOutSwapped(m: Memory, i: nat, a: nat, f: nat, zero: Page)
    requires Resident(m) && Swapped(m) && HeadOnFrame(m) && i < |m.swapva| && m.swapva[i] == NONE && a !in m.pte
    ensures Swapped(PagedOut(m, i, a, f, zero))
  {
    HeadPage(m);
    var m', v := PagedOut(m, i, a, f, zero), m.vas[m.order[0]];
    forall b | b in m'.pte && m'.pte[b] == OnDisk ensures InSwap(m'.swapva, b) && b != NONE {
      if b == v {
        assert m'.swapva[i] == v;
      } else {
        var x :| 0 <= x < |m.swapva| && m.swapva[x] == b;
        assert m'.swapva[x] == b;
      }
    }
  }

  /** Paging the victim out for a new page: the program sees every old page as before, and
      the new one zeroed. */
  lemma PagedOutView(m: Memory, i: nat, a: nat, f: nat, zero: Page)
    requires Resident(m) && Swapped(m) && HeadOnFrame(m) && i < |m.swapva| && m.swapva[i] == NONE && a !in m.pte
    requires f in m.frames ==> f == VictimFrame(m)
    ensures SameView(m, PagedOut(m, i, a, f, zero)) && Sees(PagedOut(m, i, a, f, zero), a, zero)
  {
    HeadPage(m);
    var m', v := PagedOut(m, i, a, f, zero), m.vas[m.order[0]];
    forall b, page | Sees(m, b, page) ensures Sees(m', b, page) {
      if b == v {
        assert m'.swapva[i] == v && m'.swap[i] == page;
      } else if m.pte[b] == OnDisk {
        var x :| 0 <= x < |m.swapva| && x < |m.swap| && m.swapva[x] == b && m.swap[x] == page;
        assert m'.swapva[x] == b && m'.swap[x] == page;
      }
    }
  }

  /** The victim is in slot i of the swap file and its list slot already names the new
      page a, for which no frame has been found. */
  ghost function SwappedOut(m: Memory, i: nat, a: nat): Memory
    requires HeadOnFrame(m) && i < |m.swapva| == |m.swap|
  {
    var v := m.vas[m.order[0]];
    m.(vas := m.vas[m.order[0] := a], pte := m.pte[v := OnDisk], frames := m.frames - {VictimFrame(m)},
       swapva := m.swapva[i := v], swap := m.swap[i := m.frames[VictimFrame(m)]])
  }

  lemma SwappedOutView(m: Memory, i: nat, a: nat)
    requires Resident(m) && Swapped(m) && HeadOnFrame(m) && i < |m.swapva| && m.swapva[i] == NONE && a !in m.pte
    ensures SameView(m, SwappedOut(m, i, a)) && !Slots(SwappedOut(m, i, a))
  {
    HeadPage(m);
    var m', v := SwappedOut(m, i, a), m.vas[m.order[0]];
    assert m.order[0] in m'.order && m'.vas[m.order[0]] == a;
    forall b, page | Sees(m, b, page) ensures Sees(m', b, page) {
      if b == v {
        assert m'.swapva[i] == v && m'.swap[i] == page;
      } else if m.pte[b] == OnDisk {
        var x :| 0 <= x < |m.swapva| && x < |m.swap| && m.swapva[x] == b && m.swap[x] == page;
        assert m'.swapva[x] == b && m'.swap[x] == page;
      }
    }
  }

  /** A new page in the free slot s, at the head of the list. */
  ghost function Recorded(m: Memory, s: nat, a: nat, f: nat, zero: Page): Memory
    requires s < |m.vas|
  {
    m.(vas := m.vas[s := a], order := [s] + m.order, pte := m.pte[a := Present(f, false)],
       frames := m.frames[f := zero])
  }

  lemma RecordSlots(m: Memory, s: nat, a: nat, f: nat, zero: Page)
    requires Resident(m) && s < |m.vas| && m.vas[s] == NONE && a !in m.pte && a != NONE && f !in m.frames
    ensures Slots(Recorded(m, s, a, f, zero)) && s !in m.order
    ensures forall t :: t in [s] + m.order <==> t == s || t in m.order
  {
    var m' := Recorded(m, s, a, f, zero);
    forall t ensures t in m'.order <==> t == s || t in m.order {
      assert m'.order[1..] == m.order && m'.order[0] == s;
    }
    forall t | t in m.order ensures OnFrame(m', m'.vas[t]) {
      assert OnFrame(m, m.vas[t]);
    }
  }

  lemma RecordMapped(m: Memory, s: nat, a: nat, f: nat, zero: Page)
    requires Mapped(m) && s < |m.vas| && m.vas[s] == NONE && a !in m.pte && a != NONE && f !in m.frames
    requires forall b :: b in m.pte && m.pte[b].Present? ==> m.pte[b].frame in m.frames
    ensures Mapped(Recorded(m, s, a, f, zero))
  {
    var m' := Recorded(m, s, a, f, zero);
    forall b | b in m'.pte && m'.pte[b].Present? ensures InList(m'.vas, m'.order, b) && b != NONE {
      if b == a {
        assert s in m'.order && m'.vas[s] == a;
      } else {
        var t :| t in m.order && t < |m.vas| && m.vas[t] == b;
        assert m'.vas[t] == b && t in m'.order;
      }
    }
  }

  lemma RecordView(m: Memory, s: nat, a: nat, f: nat, zero: Page)
    requires Swapped(m) && s < |m.vas| && a !in m.pte && f !in m.frames
    ensures var m' := Recorded(m, s, a, f, zero); Swapped(m') && SameView(m, m') && Sees(m', a, zero)
  {
  }

  lemma RecordKeeps(m: Memory, s: nat, a: nat, f: nat, zero: Page)
    requires Resident(m) && Swapped(m) && s < |m.vas| && m.vas[s] == NONE && a !in m.pte && a != NONE && f !in m.frames
    ensures var m' := Recorded(m, s, a, f, zero);
      Resident(m') && Swapped(m') && SameView(m, m') && Sees(m', a, zero) && s !in m.order
  {
    FramesHeld(m);
    RecordSlots(m, s, a, f, zero);
    RecordMapped(m, s, a, f, zero);
    RecordView(m, s, a, f, zero);
  }

  lemma VictimOnDisk(m: Memory, i: nat, a: nat)
    requires HeadOnFrame(m) && i < |m.swapva| == |m.swap| && a !in m.pte
    ensures AnyOnDisk(SwappedOut(m, i, a).pte)
  {
    assert SwappedOut(m, i, a).pte[m.vas[m.order[0]]] == OnDisk;
  }

  lemma StillOnDisk(pte: map<nat, Pte>, a: nat, p: Pte)
    requires AnyOnDisk(pte) && a !in pte
    ensures AnyOnDisk(pte[a := p])
  {
    var v :| v in pte && pte[v] == OnDisk;
    assert pte[a := p][v] == OnDisk;
  }

  predicate AnyOnDisk(pte: map<nat, Pte>) {
    exists a :: a in pte && pte[a] == OnDisk
  }

  // ---------------------------------------------------------------- the invariant, sealed

  /** Memory is well formed; the verifier unfolds this only where `Key` is mentioned. */
  ghost predicate Sound(m: Memory) {
    forall key: int {:trigger Key(key)} :: Key(key) ==> Resident(m) && Swapped(m)
  }

  ghost predicate Key(key: int) {
    true
  }

  lemma Unfold(m: Memory)
    requires Sound(m)
    ensures Resident(m) && Swapped(m)
  {
    assert Key(0);
  }

  lemma RotationSound(m: Memory, pte': map<nat, Pte>, k: nat)
    requires Sound(m) && k <= |m.order| && forall i :: 0 <= i < |m.order| ==> m.order[i] < |m.vas|
    requires BitsCleared(m.vas, m.order, m.pte, pte', k)
    ensures var m' := m.(order := Rotated(m.order, k), pte := pte');
      Sound(m') && SameView(m, m') && SameButBits(m.pte, pte')
  {
    Unfold(m);
    ClearedBits(m, pte', k);
    RotationKeeps(m, pte', k);
  }

  /** What the selection makes of memory. */
  lemma Brought(m: Memory, m': Memory, k: nat)
    requires Sound(m') && Placed(m) && (forall i, j :: 0 <= i < j < |m.order| ==> m.order[i] != m.order[j])
    requires IsVictim(m.vas, m.order, m.pte, k) && BitsCleared(m.vas, m.order, m.pte, m'.pte, k)
    requires m' == m.(order := Rotated(m.order, k), pte := m'.pte)
    ensures Chooses(m, k, m')
  {
    ClearedIs(m.vas, m.order, m.pte, m'.pte, k);
    RotatedDistinct(m.order, k);
    ListSound(m');
  }

  lemma RotatedDistinct(order: seq<nat>, k: nat)
    requires k <= |order| && forall i, j :: 0 <= i < j < |order| ==> order[i] != order[j]
    ensures forall i, j :: 0 <= i < j < |order| ==> Rotated(order, k)[i] != Rotated(order, k)[j]
  {
  }

  lemma ListSound(m: Memory)
    requires Sound(m) && forall i, j :: 0 <= i < j < |m.order| ==> m.order[i] != m.order[j]
    ensures DistinctPages(m.vas, m.order) && forall i :: 0 <= i < |m.order| ==> m.vas[m.order[i]] in m.pte
    ensures m.order != [] ==> HeadOnFrame(m)
  {
    Unfold(m);
    PagesDistinct(m);
    if m.order != [] {
      HeadPage(m);
    }
  }

  lemma ExchangeSound(m: Memory, i: nat, a: nat)
    requires Sound(m) && HeadOnFrame(m) && i < |m.swapva| == |m.swap| && m.swapva[i] == a != NONE
    ensures Sound(Exchanged(m, i, a)) && SameView(m, Exchanged(m, i, a)) && a in m.pte && m.pte[a] == OnDisk
  {
    Unfold(m);
    ExchangeSlots(m, i, a);
    ExchangeMapped(m, i, a);
    ExchangeSwapped(m, i, a);
    ExchangeKeepsView(m, i, a);
  }

  lemma SwapHas(m: Memory, a: nat)
    requires Sound(m) && a in m.pte && m.pte[a] == OnDisk
    ensures InSwap(m.swapva, a) && a != NONE
  {
    Unfold(m);
  }

  lemma PagedOutSound(m: Memory, i: nat, a: nat, f: nat, zero: Page)
    requires Sound(m) && HeadOnFrame(m) && i < |m.swapva| == |m.swap| && m.swapva[i] == NONE && a !in m.pte && a != NONE
    requires f in m.frames ==> f == VictimFrame(m)
    ensures Sound(PagedOut(m, i, a, f, zero)) && SameView(m, PagedOut(m, i, a, f, zero))
    ensures Sees(PagedOut(m, i, a, f, zero), a, zero)
  {
    Unfold(m);
    FramesHeld(m);
    PagedOutSlots(m, i, a, f, zero);
    PagedOutMapped(m, i, a, f, zero);
    PagedOutSwapped(m, i, a, f, zero);
    PagedOutView(m, i, a, f, zero);
  }

  /** When `kalloc` fails after the victim has been paged out, every old page still reads
      as before, but the list names a page that is not present. */
  lemma SwappedOutLost(m: Memory, i: nat, a: nat)
    requires Sound(m) && HeadOnFrame(m) && i < |m.swapva| == |m.swap| && m.swapva[i] == NONE && a !in m.pte
    ensures SameView(m, SwappedOut(m, i, a)) && !Sound(SwappedOut(m, i, a))
  {
    Unfold(m);
    SwappedOutView(m, i, a);
    if Sound(SwappedOut(m, i, a)) {
      Unfold(SwappedOut(m, i, a));
      assert false;
    }
  }

  lemma RecordSound(m: Memory, s: nat, a: nat, f: nat, zero: Page)
    requires Sound(m) && s < |m.vas| && m.vas[s] == NONE && a !in m.pte && a != NONE && f !in m.frames
    ensures var m' := Recorded(m, s, a, f, zero);
      Sound(m') && SameView(m, m') && Sees(m', a, zero) && s !in m.order
  {
    Unfold(m);
    RecordKeeps(m, s, a, f, zero);
  }

  /** A list shorter than the slots leaves a slot unused. */
  lemma SlotFree(m: Memory)
    requires Sound(m) && |m.order| < |m.vas| && forall i, j :: 0 <= i < j < |m.order| ==> m.order[i] != m.order[j]
    ensures exists s :: 0 <= s < |m.vas| && m.vas[s] == NONE
  {
    Unfold(m);
    if forall s :: 0 <= s < |m.vas| ==> m.vas[s] != NONE {
      Covers(m.order, |m.vas|);
    }
  }

  /** A sequence that has every number below n has at least n elements. */
  lemma {:induction false} Covers(order: seq<nat>, n: nat)
    requires forall s :: 0 <= s < n ==> s in order
    ensures |order| >= n
  {
    if n > 0 {
      assert n - 1 in order;
      var i :| 0 <= i < |order| && order[i] == n - 1;
      var rest := Without(order, i);
      forall s | 0 <= s < n - 1 ensures s in rest {
        assert s in order;
        var j :| 0 <= j < |order| && order[j] == s;
        assert rest[if j < i then j else j - 1] == s;
      }
      Covers(rest, n - 1);
    }
  }

  lemma {:induction false} FrameFree(used: set<nat>)
    ensures exists f: nat :: f !in used
  {
    if used == {} {
      assert 0 !in used;
    } else {
      var top := Highest(used);
      assert top + 1 !in used;
    }
  }

  lemma {:induction false} Highest(s: set<nat>) returns (top: nat)
    requires s != {}
    ensures top in s && forall x :: x in s ==> x <= top
  {
    var x :| x in s;
    if s - {x} == {} {
      assert s == {x};
      top := x;
    } else {
      var y := Highest(s - {x});
      assert forall z :: z in s ==> z == x || z in s - {x};
      top := if x < y then y else x;
    }
  }

  /** The page in the k-th slot of the list is given up. */
  ghost function Removed(m: Memory, k: nat): Memory
    requires k < |m.order| && m.order[k] < |m.vas| && OnFrame(m, m.vas[m.order[k]])
  {
    var a := m.vas[m.order[k]];
    m.(vas := m.vas[m.order[k] := NONE], order := Without(m.order, k), pte := m.pte - {a},
       frames := m.frames - {m.pte[a].frame})
  }

  /** Resident page a has given up its slot, its place in the list and its frame. */
  ghost predicate Removes(m: Memory, a: nat, m': Memory) {
    exists k: nat {:trigger m.order[k]} ::
      k < |m.order| && m.order[k] < |m.vas| && m.vas[m.order[k]] == a && OnFrame(m, a) && m' == Removed(m, k)
  }

  lemma WithoutHas(order: seq<nat>, k: nat)
    requires k < |order| && forall i, j :: 0 <= i < j < |order| ==> order[i] != order[j]
    ensures forall s :: s in Without(order, k) <==> s in order && s != order[k]
  {
    var rest := Without(order, k);
    forall s | s in order && s != order[k] ensures s in rest {
      var j :| 0 <= j < |order| && order[j] == s;
      assert rest[if j < k then j else j - 1] == s;
    }
  }

  lemma RemoveSlots(m: Memory, k: nat)
    requires Resident(m) && Swapped(m) && k < |m.order| && m.order[k] < |m.vas| && OnFrame(m, m.vas[m.order[k]])
    requires forall i, j :: 0 <= i < j < |m.order| ==> m.order[i] != m.order[j]
    ensures Slots(Removed(m, k))
  {
    var m', s := Removed(m, k), m.order[k];
    WithoutHas(m.order, k);
    forall t | t in m'.order ensures OnFrame(m', m'.vas[t]) {
      assert OnFrame(m, m.vas[t]);
    }
  }

  lemma RemoveMapped(m: Memory, k: nat)
    requires Resident(m) && k < |m.order| && m.order[k] < |m.vas| && OnFrame(m, m.vas[m.order[k]])
    requires forall i, j :: 0 <= i < j < |m.order| ==> m.order[i] != m.order[j]
    ensures Mapped(Removed(m, k))
  {
    WithoutHas(m.order, k);
    var m' := Removed(m, k);
    forall b | b in m'.pte && m'.pte[b].Present? ensures InList(m'.vas, m'.order, b) && b != NONE {
      var s :| s in m.order && s < |m.vas| && m.vas[s] == b;
      assert s in m'.order && m'.vas[s] == b;
    }
  }

  lemma RemoveView(m: Memory, k: nat)
    requires Resident(m) && Swapped(m) && k < |m.order| && m.order[k] < |m.vas| && OnFrame(m, m.vas[m.order[k]])
    ensures Swapped(Removed(m, k))
    ensures forall b, page :: b != m.vas[m.order[k]] && Sees(m, b, page) ==> Sees(Removed(m, k), b, page)
  {
    var m' := Removed(m, k);
    forall b | b in m'.pte && m'.pte[b] == OnDisk ensures InSwap(m'.swapva, b) && b != NONE {
      assert InSwap(m.swapva, b);
    }
    forall b, page | b != m.vas[m.order[k]] && Sees(m, b, page) ensures Sees(m', b, page) {
      if m.pte[b] == OnDisk {
        var x :| 0 <= x < |m.swapva| && x < |m.swap| && m.swapva[x] == b && m.swap[x] == page;
        assert m'.swapva[x] == b && m'.swap[x] == page;
      }
    }
  }

  /** Giving up a resident page leaves every other page as it was. */
  lemma RemoveSound(m: Memory, k: nat)
    requires Sound(m) && k < |m.order| && m.order[k] < |m.vas| && OnFrame(m, m.vas[m.order[k]])
    requires forall i, j :: 0 <= i < j < |m.order| ==> m.order[i] != m.order[j]
    ensures Sound(Removed(m, k))
    ensures forall b, page :: b != m.vas[m.order[k]] && Sees(m, b, page) ==> Sees(Removed(m, k), b, page)
  {
    Unfold(m);
    RemoveSlots(m, k);
    RemoveMapped(m, k);
    RemoveView(m, k);
  }

  /** Slot i of the swap file is marked unused. */
  ghost function Dropped(m: Memory, i: nat): Memory
    requires i < |m.swapva|
  {
    m.(swapva := m.swapva[i := NONE])
  }

  /** Page a has given up its slot in the swap file. */
  ghost predicate Drops(m: Memory, a: nat, m': Memory) {
    exists i: nat {:trigger m.swapva[i]} :: i < |m.swapva| && m.swapva[i] == a && m' == Dropped(m, i)
  }

  lemma DropResident(m: Memory, a: nat, pte': map<nat, Pte>)
    requires Resident(m) && a in m.pte && m.pte[a] == OnDisk && pte' == m.pte - {a}
    ensures Resident(m.(pte := pte'))
  {
    forall s | s in m.order ensures OnFrame(m.(pte := pte'), m.vas[s]) {
      assert OnFrame(m, m.vas[s]);
    }
  }

  lemma DropSwapped(m: Memory, i: nat, a: nat)
    requires Swapped(m) && i < |m.swapva| && m.swapva[i] == a != NONE
    ensures !InSwap(Dropped(m, i).swapva, a) && !Swapped(Dropped(m, i))
    ensures Swapped(Dropped(m, i).(pte := m.pte - {a}))
  {
    var m' := Dropped(m, i);
    assert m.pte[a] == OnDisk;
    forall b | b in m.pte && m.pte[b] == OnDisk && b != a ensures InSwap(m'.swapva, b) && b != NONE {
      assert InSwap(m.swapva, b);
      var x :| 0 <= x < |m.swapva| && m.swapva[x] == b;
      assert m'.swapva[x] == b;
    }
  }

  lemma DropView(m: Memory, i: nat, b: nat, page: Page)
    requires Swapped(m) && i < |m.swapva| && m.swapva[i] != b && Sees(m, b, page)
    ensures Sees(Dropped(m, i), b, page)
  {
    if m.pte[b] == OnDisk {
      var x :| 0 <= x < |m.swapva| && x < |m.swap| && m.swapva[x] == b && m.swap[x] == page;
      assert Dropped(m, i).swapva[x] == b && Dropped(m, i).swap[x] == page;
    }
  }

  /** Giving up the slot of a page in the swap file leaves every other page as it was, and
      its own entry without a slot. */
  lemma DropSound(m: Memory, i: nat, a: nat)
    requires Sound(m) && i < |m.swapva| && m.swapva[i] == a != NONE
    ensures !Sound(Dropped(m, i)) && Sound(Dropped(m, i).(pte := m.pte - {a})) && !InSwap(Dropped(m, i).swapva, a)
    ensures forall b, page :: b != a && Sees(m, b, page) ==> Sees(Dropped(m, i), b, page)
  {
    Unfold(m);
    DropSwapped(m, i, a);
    DropResident(m, a, m.pte - {a});
    if Sound(Dropped(m, i)) {
      Unfold(Dropped(m, i));
      assert false;
    }
    forall b, page | b != a && Sees(m, b, page) ensures Sees(Dropped(m, i), b, page) {
      DropView(m, i, b, page);
    }
  }

  /** A page that is not in the swap file has no slot there, and taking away an entry that
      is not there changes nothing. */
  lemma NotBoth(m: Memory, a: nat)
    requires Sound(m)
    ensures !(a in m.pte && m.pte[a] == OnDisk) && a != NONE ==> !InSwap(m.swapva, a)
    ensures a !in m.pte ==> m.(pte := m.pte - {a}) == m
  {
    Unfold(m);
  }

  /** The one slot that holds resident page a, and its place in the list. */
  lemma SlotOf(m: Memory, a: nat, i: nat) returns (k: nat)
    requires Sound(m) && a in m.pte && m.pte[a].Present? && i <= |m.vas|
    requires (i < |m.vas| ==> m.vas[i] == a) && forall j :: 0 <= j < i ==> m.vas[j] != a
    ensures i < |m.vas| && k < |m.order| && m.order[k] == i && OnFrame(m, m.vas[i]) && m.vas[i] == a
  {
    Unfold(m);
    var s :| s in m.order && s < |m.vas| && m.vas[s] == a;
    assert i < |m.vas| && i in m.order;
    k :| 0 <= k < |m.order| && m.order[k] == i;
  }

  function ZeroPage(): seq<bv8> {
    Repeat(0, PGSIZE)
  }

  /** How much of a page `scSwap` moves at a time. */
  const BUF_SIZE: nat := PGSIZE / 4

  /** The page p with q written over it from `at` on. */
  function Patched(p: seq<bv8>, at: nat, q: seq<bv8>): seq<bv8>
    requires at + |q| <= |p|
  {
    p[..at] + q + p[at + |q|..]
  }

  /** a up to `at`, then b. */
  function Mixed(a: seq<bv8>, b: seq<bv8>, at: nat): seq<bv8>
    requires at <= |a| == |b|
  {
    a[..at] + b[at..]
  }

  lemma MixedEnds(a: seq<bv8>, b: seq<bv8>)
    requires |a| == |b|
    ensures Mixed(a, b, 0) == b && Mixed(a, b, |a|) == a
  {
  }

  lemma MixedMore(a: seq<bv8>, b: seq<bv8>, at: nat, m: nat)
    requires at + m <= |a| == |b|
    ensures Patched(Mixed(a, b, at), at, Mixed(b, a, at)[at..at + m]) == Mixed(a, b, at + m)
  {
    assert Mixed(b, a, at)[at..at + m] == a[at..at + m];
    assert Mixed(a, b, at)[at + m..] == b[at + m..];
    assert a[..at] + a[at..at + m] == a[..at + m];
  }

  class Process {
    const N: nat
    const va: array<nat>
    const next: array<nat>
    const prev: array<nat>
    const swapva: array<nat>
    const swap: array<Page>
    var head: nat
    var tail: nat
    var pte: map<nat, Pte>
    var frames: map<nat, Page>
    var pagesinmem: nat
    ghost var order: seq<nat>

    ghost function View(): Memory
      reads this, va, swapva, swap
    {
      Memory(va[..], order, pte, frames, swapva[..], swap[..])
    }

    /** The list is well formed over exactly the occupied slots, and every page of the
        program is in one frame or in one slot of the swap file. */
    ghost predicate Valid()
      reads this, va, next, prev, swapva, swap
    {
      && Listed() && Sound(View()) && pagesinmem == |order|
      && swapva != va && swapva != next && swapva != prev && swapva.Length == swap.Length == N
    }

    ghost predicate Listed()
      reads `head, `tail, `order, va, next, prev
    {
      && va.Length == next.Length == prev.Length == N && next != prev && va != next && va != prev
      && Linked(next[..], prev[..], head, tail, order)
    }

    /** The page data of a new process: n list slots and n slots of the swap file, all
        unused, and no page yet. */
    constructor (n: nat)
      ensures Valid() && N == n && order == [] && pte == map[] && frames == map[]
      ensures forall i :: 0 <= i < n ==> va[i] == NONE && swapva[i] == NONE
      ensures fresh(va) && fresh(next) && fresh(prev) && fresh(swapva) && fresh(swap)
    {
      N := n;
      va := new nat[n](_ => NONE);
      next := new nat[n](_ => n);
      prev := new nat[n](_ => n);
      swapva := new nat[n](_ => NONE);
      swap := new Page[n](_ => ZeroPage());
      head, tail, order := n, n, [];
      pte, frames, pagesinmem := map[], map[], 0;
    }

    /** `checkAccBit`: the accessed bit of the page, which is cleared. */
    method CheckAccBit(a: nat) returns (accessed: bool)
      requires a in pte
      modifies `pte
      ensures accessed == Accessed(old(pte), a) && pte == Unmarked(old(pte), a)
    {
      accessed := pte[a].Present? && pte[a].accessed;
      if pte[a].Present? {
        pte := pte[a := pte[a].(accessed := false)];
      }
    }

    /** The body of the rotation loop: move the tail to the head. */
    method MoveTailToHead()
      requires Listed() && |order| >= 2
      modifies `head, `tail, `order, next, prev
      ensures Listed() && order == [old(order)[|old(order)| - 1]] + old(order)[..|old(order)| - 1]
    {
      ghost var nx: seq<nat>, pv: seq<nat> := next[..], prev[..];
      RotateLinked(nx, pv, head, tail, order);
      var mover := tail;
      tail := prev[tail];
      next[tail] := N;
      prev[mover] := N;
      next[mover] := head;
      prev[head] := mover;
      head := mover;
      order := [mover] + order[..|order| - 1];
      assert next[..] == nx[pv[mover] := N][mover := old(head)] && prev[..] == pv[mover := N][old(head) := mover];
    }

    /** k turns after the rotation began on list `was` and page table pte0. The verifier
        unfolds this only where `Key` is mentioned. */
    ghost predicate Turning(was: seq<nat>, pte0: map<nat, Pte>, k: nat)
      reads this, va, next, prev
    {
      forall key: int {:trigger Key(key)} :: Key(key) ==>
        && Listed() && DistinctPages(va[..], was) && |was| >= 2 && k <= |was| && order == Rotated(was, k)
        && (forall i, j :: 0 <= i < j < |was| ==> was[i] != was[j])
        && (forall j :: 1 <= j <= |was| ==> FromTail(va[..], was, j) in pte0)
        && BitsCleared(va[..], was, pte0, pte, k)
    }

    /** Whether the page k places from the tail had been accessed. */
    ghost predicate WasAccessed(was: seq<nat>, pte0: map<nat, Pte>, k: int)
      reads va
    {
      1 <= k <= |was| && was[|was| - k] < va.Length && Accessed(pte0, va[was[|was| - k]])
    }

    /** One turn: the next page from the tail comes to the head, its bit is read and cleared. */
    method Turn(ghost was: seq<nat>, ghost pte0: map<nat, Pte>, ghost k: nat) returns (accessed: bool)
      requires Turning(was, pte0, k) && k < |was|
      modifies `head, `tail, `order, `pte, next, prev
      ensures Turning(was, pte0, k + 1)
      ensures accessed == WasAccessed(was, pte0, k + 1) && (tail == was[|was| - 1] <==> k + 1 == |was|)
    {
      assert Key(0);
      RotatedStep(was, k);
      MoveTailToHead();
      assert FromTail(va[..], was, k + 1) in pte0;
      ClearedMore(va[..], was, pte0, pte, k);
      NotPassed(va[..], was, k);
      accessed := CheckAccBit(va[head]);
      LastTurn(was, k + 1);
    }

    lemma Began()
      requires Listed() && |order| >= 2 && DistinctPages(va[..], order)
      requires forall i :: 0 <= i < |order| ==> va[order[i]] in pte
      ensures Turning(order, pte, 0) && tail == order[|order| - 1]
    {
      assert Rotated(order, 0) == order;
    }

    lemma Ended(was: seq<nat>, pte0: map<nat, Pte>, k: nat)
      requires Turning(was, pte0, k) && 1 <= k
      requires forall j :: 1 <= j < k ==> WasAccessed(was, pte0, j)
      requires k < |was| ==> !WasAccessed(was, pte0, k)
      ensures Listed() && DistinctPages(va[..], was) && IsVictim(va[..], was, pte0, k)
      ensures order == Rotated(was, k) && BitsCleared(va[..], was, pte0, pte, k)
    {
      assert Key(0);
      forall j | 1 <= j <= |was| ensures WasAccessed(was, pte0, j) == Accessed(pte0, FromTail(va[..], was, j)) {
      }
    }

    /** The loop that `scWrite` and `scSwap` both run. */
    method Rotate(ghost was: seq<nat>, ghost pte0: map<nat, Pte>) returns (ghost k: nat)
      requires Turning(was, pte0, 0) && |was| >= 2 && tail == was[|was| - 1] && va != next && va != prev
      modifies `head, `tail, `order, `pte, next, prev
      ensures Turning(was, pte0, k) && 1 <= k
      ensures forall j :: 1 <= j < k ==> WasAccessed(was, pte0, j)
      ensures k < |was| ==> !WasAccessed(was, pte0, k)
    {
      k := 0;
      var oldTail := tail;
      var again := true;
      while again
        invariant Turning(was, pte0, k) && (again ==> k < |was|) && (!again ==> k >= 1)
        invariant forall j :: 1 <= j < k ==> WasAccessed(was, pte0, j)
        invariant again && k > 0 ==> WasAccessed(was, pte0, k)
        invariant !again && k < |was| ==> !WasAccessed(was, pte0, k)
        decreases again, |was| - k
      {
        var accessed := Turn(was, pte0, k);
        k := k + 1;
        again := accessed && tail != oldTail;
      }
    }

    /** The rotation stops with the victim at the head, the cyclic order kept and the bits
        of the pages passed over cleared. */
    method SelectVictim() returns (ghost k: nat)
      requires Listed() && |order| >= 2 && DistinctPages(va[..], order)
      requires forall i :: 0 <= i < |order| ==> va[order[i]] in pte
      modifies `head, `tail, `order, `pte, next, prev
      ensures Listed() && IsVictim(va[..], old(order), old(pte), k)
      ensures order == Rotated(old(order), k) && BitsCleared(va[..], old(order), old(pte), pte, k)
    {
      Began();
      k := Rotate(order, pte);
      Ended(old(order), old(pte), k);
    }

    /** The first slot of the array that holds a, or N. */
    method Search(slots: array<nat>, a: nat) returns (i: nat)
      requires slots.Length == N
      ensures i <= N && (i < N ==> slots[i] == a) && forall j :: 0 <= j < i ==> slots[j] != a
    {
      i := 0;
      while i < N
        invariant i <= N && forall j :: 0 <= j < i ==> slots[j] != a
      {
        if slots[i] == a {
          return;
        }
        i := i + 1;
      }
    }

    /** `scRecord`: the new page's slot goes to the head of the list. */
    method Record(i: nat, a: nat)
      requires Listed() && i < N && i !in order
      modifies `head, `tail, `order, va, next, prev
      ensures Listed() && order == [i] + old(order) && va[..] == old(va[..])[i := a]
    {
      ghost var nx: seq<nat>, pv: seq<nat> := next[..], prev[..];
      PushLinked(nx, pv, head, tail, order, i);
      va[i] := a;
      next[i] := head;
      prev[i] := N;
      if head != N {
        prev[head] := i;
      } else {
        tail := i;
      }
      head := i;
      order := [i] + order;
      assert next[..] == nx[i := old(head)];
    }

    /** The tests both policies make first: there are at least two resident pages. */
    method HasTwo() returns (ok: bool)
      requires Listed()
      ensures ok <==> |order| >= 2
    {
      if head == N {
        return false;
      }
      assert LinkedAt(next[..], prev[..], order, 0);
      ok := next[head] != N;
    }

    /** The rotation seen from the program: nothing. */
    method TurnRound() returns (ghost k: nat)
      requires Valid() && |order| >= 2
      modifies `head, `tail, `order, `pte, next, prev
      ensures Valid() && SameView(old(View()), View()) && SameButBits(old(pte), pte)
      ensures k <= |old(order)| && IsVictim(va[..], old(order), old(pte), k)
      ensures BitsCleared(va[..], old(order), old(pte), pte, k)
      ensures View() == old(View()).(order := Rotated(old(order), k), pte := pte)
    {
      ghost var m := View();
      ListSound(m);
      k := SelectVictim();
      assert View() == m.(order := Rotated(m.order, k), pte := pte);
      assert Sound(View()) && SameView(m, View()) && SameButBits(m.pte, pte) by {
        RotationSound(m, pte, k);
      }
    }

    /** The rotation brings the victim to the head and clears the bits it has passed. */
    method BringVictim() returns (ghost k: nat)
      requires Valid() && |order| >= 2
      modifies `head, `tail, `order, `pte, next, prev
      ensures Valid() && SameView(old(View()), View()) && SameButBits(old(pte), pte)
      ensures Chooses(old(View()), k, View())
    {
      ghost var m := View();
      k := TurnRound();
      Brought(m, View(), k);
    }

    /** `scSwap`: page a, whose fault this is, comes in from the swap file in exchange for
        the victim of the rotation. The program sees every page as before. */
    method ScSwap(a: nat) returns (ok: bool, ghost k: nat, ghost mid: Memory)
      requires Valid() && a in pte && pte[a] == OnDisk
      modifies this, va, next, prev, swapva, swap
      ensures ok <==> |old(order)| >= 2
      ensures Valid() && SameView(old(View()), View())
      ensures !ok ==> View() == old(View())
      ensures ok ==> Chooses(old(View()), k, mid) && Exchanges(mid, a, View())
    {
      ok := HasTwo();
      k, mid := 0, View();
      if ok {
        ghost var m0 := View();
        k := BringVictim();
        mid := View();
        SwapIn(a);
        ViewTrans(m0, mid, View());
      }
    }

    /** `scSwap` once the victim is at the head: the faulting page is looked up in the swap
        file and exchanged with it. */
    method SwapIn(a: nat)
      requires Valid() && a in pte && pte[a] == OnDisk && order != []
      modifies `pte, `frames, va, swapva, swap
      ensures Valid() && SameView(old(View()), View())
      ensures Exchanges(old(View()), a, View())
    {
      SwapHas(View(), a);
      var i := Search(swapva, a);
      Exchange(i, a);
    }

    /** One turn of the copying loop of `scSwap`: a quarter of a page goes each way,
        through a buffer. */
    method MoveQuarter(i: nat, f: nat, at: nat)
      requires i < swap.Length && f in frames && at + BUF_SIZE <= PGSIZE
      modifies `frames, swap
      ensures frames == old(frames)[f := Patched(old(frames)[f], at, old(swap[i])[at..at + BUF_SIZE])]
      ensures swap[..] == old(swap[..])[i := Patched(old(swap[i]), at, old(frames)[f][at..at + BUF_SIZE])]
    {
      var buf := swap[i][at..at + BUF_SIZE];
      swap[i] := Patched(swap[i], at, frames[f][at..at + BUF_SIZE]);
      frames := frames[f := Patched(frames[f], at, buf)];
    }

    /** After four quarters the page in frame f and the one in slot i of the swap file have
        changed places, and nothing else has moved. */
    method ExchangeContents(i: nat, f: nat)
      requires i < swap.Length && f in frames
      modifies `frames, swap
      ensures frames == old(frames)[f := old(swap[i])]
      ensures swap[..] == old(swap[..])[i := old(frames)[f]]
    {
      ghost var a, b := frames[f], swap[i];
      MixedEnds(a, b);
      MixedEnds(b, a);
      for j := 0 to 4
        invariant frames == old(frames)[f := Mixed(b, a, j * BUF_SIZE)]
        invariant swap[..] == old(swap[..])[i := Mixed(a, b, j * BUF_SIZE)]
      {
        MixedMore(a, b, j * BUF_SIZE, BUF_SIZE);
        MixedMore(b, a, j * BUF_SIZE, BUF_SIZE);
        MoveQuarter(i, f, j * BUF_SIZE);
      }
    }

    /** The stores of `scSwap` once the victim is at the head and page a found in slot i. */
    method Exchange(i: nat, a: nat)
      requires Valid() && order != [] && i < N && swapva[i] == a != NONE
      modifies `pte, `frames, va, swapva, swap
      ensures Valid() && SameView(old(View()), View())
      ensures HeadOnFrame(old(View())) && View() == Exchanged(old(View()), i, a)
    {
      ghost var m := View();
      ListSound(m);
      ExchangeSound(m, i, a);
      var v := va[head];
      var f := pte[v].frame;
      swapva[i] := v;
      pte := pte[a := Present(f, false)];
      ExchangeContents(i, f);
      pte := pte[v := OnDisk];
      va[head] := a;
      assert View() == Exchanged(m, i, a);
    }

    /** The stores of `scWrite` once the victim is at the head and slot i of the swap file
        is free, then `kalloc`, which may hand out the very frame just freed, and
        `mappages` for the new page. When `kalloc` has no memory the list is left naming a
        page that is not there, and the invariant is lost. */
    method PageOut(i: nat, a: nat, memory: bool) returns (ghost f: nat)
      requires Valid() && order != [] && i < N && FirstFree(View(), i) && a !in pte && a != NONE
      modifies `pte, `frames, va, swapva, swap
      ensures Listed() && SameView(old(View()), View()) && (Valid() <==> memory)
      ensures if memory then Sees(View(), a, ZeroPage()) else va[order[0]] == a && a !in pte
      ensures if memory then Pages(old(View()), a, f, View()) else Loses(old(View()), a, View())
      ensures pte.Keys == old(pte.Keys) + (if memory then {a} else {}) && AnyOnDisk(pte)
    {
      ghost var m := View();
      ListSound(m);
      StoreVictim(i, a);
      VictimOnDisk(m, i, a);
      f := 0;
      if memory {
        f := TakeFrame(i, a, m);
        ByPages(m, i, a, f, View());
      } else {
        SwappedOutLost(m, i, a);
        ByLoses(m, i, a, View());
      }
    }

    /** `kalloc` and `mappages` for page a, after the victim of m has gone to slot i of the swap
        file. */
    method TakeFrame(i: nat, a: nat, ghost m: Memory) returns (f: nat)
      requires Sound(m) && HeadOnFrame(m) && i < |m.swapva| == |m.swap| && m.swapva[i] == NONE
      requires a !in m.pte && a != NONE && View() == SwappedOut(m, i, a) && AnyOnDisk(pte)
      modifies `pte, `frames
      ensures Sound(View()) && SameView(m, View()) && Sees(View(), a, ZeroPage())
      ensures pte.Keys == old(pte.Keys) + {a} && AnyOnDisk(pte)
      ensures f !in m.frames - {VictimFrame(m)} && View() == PagedOut(m, i, a, f, ZeroPage())
    {
      FrameFree(frames.Keys);
      f :| f !in frames;
      frames := frames[f := ZeroPage()];
      StillOnDisk(pte, a, Present(f, false));
      pte := pte[a := Present(f, false)];
      PagedOutSound(m, i, a, f, ZeroPage());
      assert View() == PagedOut(m, i, a, f, ZeroPage());
    }

    method StoreVictim(i: nat, a: nat)
      requires Listed() && swapva.Length == swap.Length == N && i < N && HeadOnFrame(View())
      requires swapva != va && swapva != next && swapva != prev
      modifies `pte, `frames, va, swapva, swap
      ensures Listed() && View() == SwappedOut(old(View()), i, a)
      ensures va[order[0]] == a && pte.Keys == old(pte.Keys)
    {
      var v := va[head];
      swapva[i] := v;
      swap[i] := frames[pte[v].frame];
      frames := frames - {pte[v].frame};
      pte := pte[v := OnDisk];
      va[head] := a;
    }

    method BringAny() returns (ghost k: nat)
      requires Valid() && |order| >= 2
      modifies `head, `tail, `order, `pte, next, prev
      ensures Valid() && SameView(old(View()), View()) && pte.Keys == old(pte.Keys) && |order| == |old(order)|
      ensures Chooses(old(View()), k, View()) && swapva[..] == old(swapva[..])
    {
      k := BringVictim();
    }

    /** `writePageToSwapFile` and `kalloc` for the new page a. It panics when no slot of the
        swap file is free or there is no second page to choose from. */
    method SwapOut(a: nat, memory: bool) returns (r: Growth, ghost k: nat, ghost f: nat, ghost mid: Memory)
      requires Valid() && a !in pte && a != NONE
      modifies this, va, next, prev, swapva, swap
      ensures Listed() && SameView(old(View()), View()) && |order| == |old(order)|
      ensures r.Panicked? <==> |old(order)| < 2 || !InSwap(old(swapva[..]), NONE)
      ensures !r.Panicked? ==> (r.Grown? <==> memory)
      ensures r.Grown? ==> Sees(View(), a, ZeroPage())
      ensures r.OutOfMemory? ==> order != [] && va[order[0]] == a && a !in pte
      ensures r.Grown? ==> pte.Keys == old(pte.Keys) + {a} && AnyOnDisk(pte)
      ensures Valid() <==> !r.OutOfMemory?
      ensures r.Panicked? ==> View() == old(View())
      ensures !r.Panicked? ==> Chooses(old(View()), k, mid)
      ensures !r.Panicked? ==> if memory then Pages(mid, a, f, View()) else Loses(mid, a, View())
    {
      ghost var m0 := View();
      k, f, mid := 0, 0, m0;
      var i := Search(swapva, NONE);
      if i == N {
        r := Panicked;
        return;
      }
      var two := HasTwo();
      if !two {
        r := Panicked;
        return;
      }
      k := BringAny();
      mid := View();
      assert FirstFree(mid, i);
      f := PageOut(i, a, memory);
      ViewTrans(m0, mid, View());
      r := if memory then Grown else OutOfMemory;
    }

    /** The step of `allocuvm` for one page: when memory is full of resident pages the
        victim of the rotation is paged out and its place in the list given to the new
        page, otherwise the new page is recorded at the head. `memory` tells whether
        `kalloc` finds a frame; when it does not the invariant survives exactly if nothing
        had been paged out. */
    method AllocPage(a: nat, memory: bool) returns (r: Growth, ghost k: nat, ghost f: nat, ghost mid: Memory)
      requires Valid() && a !in pte && a != NONE
      modifies this, va, next, prev, swapva, swap
      ensures Listed() && SameView(old(View()), View())
      ensures r.Panicked? <==> |old(order)| >= N && (|old(order)| < 2 || !InSwap(old(swapva[..]), NONE))
      ensures !r.Panicked? ==> (r.Grown? <==> memory)
      ensures r.Grown? ==> Sees(View(), a, ZeroPage())
      ensures r.Grown? ==> |order| == if |old(order)| < N then |old(order)| + 1 else |old(order)|
      ensures r.Grown? ==> pte.Keys == old(pte.Keys) + {a} && (|old(order)| >= N ==> AnyOnDisk(pte))
      ensures |old(order)| < N ==> swapva[..] == old(swapva[..])
      ensures r.OutOfMemory? && |old(order)| >= N ==> order != [] && va[order[0]] == a && a !in pte
      ensures Valid() <==> !(r.OutOfMemory? && |old(order)| >= N)
      ensures |old(order)| >= N && !r.Panicked? ==>
        Chooses(old(View()), k, mid) && if memory then Pages(mid, a, f, View()) else Loses(mid, a, View())
      ensures |old(order)| < N && r.Grown? ==> Records(old(View()), a, f, View())
      ensures r.Panicked? || (r.OutOfMemory? && |old(order)| < N) ==> View() == old(View())
    {
      if pagesinmem >= N {
        r, k, f, mid := SwapOut(a, memory);
        return;
      }
      k, f, mid := 0, 0, View();
      if !memory {
        ViewSame(View());
        r := OutOfMemory;
        return;
      }
      SlotFree(View());
      var i := Search(va, NONE);
      f := RecordPage(i, a);
      r := Grown;
    }

    method RecordPage(i: nat, a: nat) returns (f: nat)
      requires Valid() && i < N && va[i] == NONE && a !in pte && a != NONE
      modifies `head, `tail, `order, `pagesinmem, `pte, `frames, va, next, prev
      ensures Valid() && SameView(old(View()), View()) && Sees(View(), a, ZeroPage())
      ensures |order| == |old(order)| + 1 && pte.Keys == old(pte.Keys) + {a}
      ensures f !in old(frames) && View() == Recorded(old(View()), i, a, f, ZeroPage())
    {
      ghost var m := View();
      FrameFree(frames.Keys);
      f :| f !in frames;
      RecordSound(m, i, a, f, ZeroPage());
      Record(i, a);
      pagesinmem := pagesinmem + 1;
      frames := frames[f := ZeroPage()];
      pte := pte[a := Present(f, false)];
      assert View() == Recorded(m, i, a, f, ZeroPage());
    }

    /** The SCFIFO branch of `deallocuvm`: slot i, in place k of the list, is taken out. */
    method Unlink(i: nat, ghost k: nat)
      requires Listed() && k < |order| && order[k] == i < N
      modifies `head, `tail, `order, next, prev
      ensures Listed() && order == Without(old(order), k)
    {
      ghost var nx: seq<nat>, pv: seq<nat> := next[..], prev[..];
      CutLinked(nx, pv, head, tail, order, k);
      assert LinkedAt(nx, pv, order, k);
      assert k > 0 ==> LinkedAt(nx, pv, order, k - 1);
      assert k + 1 < |order| ==> LinkedAt(nx, pv, order, k + 1);
      if head == i {
        head := next[i];
        if head != N {
          prev[head] := N;
        }
      } else if tail == i {
        tail := prev[i];
        next[tail] := N;
      } else {
        var l := FindBefore(i, k);
        next[l] := next[i];
        if next[i] != N {
          prev[next[i]] := l;
        }
      }
      next[i] := N;
      prev[i] := N;
      assert next[..] == CutNext(nx, order, k) && prev[..] == CutPrev(pv, order, k);
      order := Without(order, k);
    }

    /** The scan for the slot before i. */
    method FindBefore(i: nat, ghost k: nat) returns (l: nat)
      requires Listed() && 0 < k < |order| && order[k] == i
      ensures l == order[k - 1]
    {
      l := head;
      ghost var x := 0;
      assert LinkedAt(next[..], prev[..], order, 0);
      while next[l] != N && next[l] != i
        invariant 0 <= x < k && l == order[x] && LinkedAt(next[..], prev[..], order, x)
        decreases k - x
      {
        l, x := next[l], x + 1;
        assert LinkedAt(next[..], prev[..], order, x);
      }
    }

    /** `deallocuvm` for page a. A resident page gives up its slot, its place in the list
        and its frame. A page in the swap file gives up its slot there, but its page-table
        entry goes on saying that it is in the swap file: the invariant is lost, and
        clearing that entry would restore it. */
    method FreePage(a: nat)
      requires Valid() && a != NONE
      modifies `head, `tail, `order, `pagesinmem, `pte, `frames, va, next, prev, swapva
      ensures Listed() && (Valid() <==> !(a in old(pte) && old(pte)[a] == OnDisk))
      ensures Sound(View().(pte := pte - {a})) && !InSwap(swapva[..], a)
      ensures pte == if a in old(pte) && old(pte)[a].Present? then old(pte) - {a} else old(pte)
      ensures |order| == if a in old(pte) && old(pte)[a].Present? then |old(order)| - 1 else |old(order)|
      ensures if a !in old(pte) then View() == old(View())
              else if old(pte)[a].Present? then Removes(old(View()), a, View())
              else Drops(old(View()), a, View())
      ensures forall b, page :: b != a && Sees(old(View()), b, page) ==> Sees(View(), b, page)
    {
      NotBoth(View(), a);
      if a in pte {
        if pte[a].Present? {
          FreeResident(a);
        } else {
          FreeSwapped(a);
        }
      }
    }

    method FreeResident(a: nat)
      requires Valid() && a in pte && pte[a].Present? && a != NONE
      modifies `head, `tail, `order, `pagesinmem, `pte, `frames, va, next, prev
      ensures Valid() && pte == old(pte) - {a} && |order| == |old(order)| - 1
      ensures Removes(old(View()), a, View())
      ensures Sound(View().(pte := pte - {a})) && !InSwap(swapva[..], a)
      ensures forall b, page :: b != a && Sees(old(View()), b, page) ==> Sees(View(), b, page)
    {
      ghost var m := View();
      var i := Search(va, a);
      ghost var k := SlotOf(m, a, i);
      RemoveSound(m, k);
      va[i] := NONE;
      Unlink(i, k);
      pagesinmem := pagesinmem - 1;
      frames := frames - {pte[a].frame};
      pte := pte - {a};
      assert View() == Removed(m, k);
      NotBoth(View(), a);
    }

    method FreeSwapped(a: nat)
      requires Valid() && a in pte && pte[a] == OnDisk
      modifies swapva
      ensures Listed() && !Valid() && Sound(View().(pte := pte - {a})) && !InSwap(swapva[..], a)
      ensures Drops(old(View()), a, View())
      ensures forall b, page :: b != a && Sees(old(View()), b, page) ==> Sees(View(), b, page)
    {
      ghost var m := View();
      SwapHas(m, a);
      var i := Search(swapva, a);
      DropSound(m, i, a);
      swapva[i] := NONE;
      assert View() == Dropped(m, i);
    }
  }

  /** A new process with n list slots and the pages 0 to n - 1. */
  method Filled(n: nat) returns (p: Process)
    ensures fresh(p) && fresh(p.va) && fresh(p.next) && fresh(p.prev) && fresh(p.swapva) && fresh(p.swap)
    ensures p.N == n && p.Valid() && |p.order| == n && (forall i :: 0 <= i < n ==> p.swapva[i] == NONE)
    ensures forall a :: a in p.pte ==> a < n * PGSIZE
  {
    p := new Process(n);
    for k := 0 to n
      invariant p.N == n && p.Valid() && |p.order| == k && (forall i :: 0 <= i < n ==> p.swapva[i] == NONE)
      invariant forall a :: a in p.pte ==> a < k * PGSIZE
    {
      PageMark(k);
      ghost var slots := p.swapva[..];
      var r, _, _, _ := p.AllocPage(k * PGSIZE, true);
      assert p.swapva[..] == slots && r == Grown;
    }
  }

  /** No page address is the mark of an unused slot. */
  lemma PageMark(k: nat)
    ensures k * PGSIZE != NONE && k * PGSIZE < (k + 1) * PGSIZE
  {
    assert (k * PGSIZE) % 2 == 0;
  }

  /** With two pages or more that fill the list, a further page for which `kalloc` fails
      leaves the list naming a page that is not there. */
  method FullMemoryLost(n: nat) returns (p: Process, r: Growth)
    requires n >= 2
    ensures fresh(p) && r == OutOfMemory && p.Listed() && !p.Valid()
    ensures p.order != [] && p.va[p.order[0]] == n * PGSIZE && n * PGSIZE !in p.pte
  {
    p := Filled(n);
    PageMark(n);
    assert p.swapva[..][0] == NONE;
    var growth, _, _, _ := p.AllocPage(n * PGSIZE, false);
    r := growth;
  }

  /** When the further page has taken the place of a victim and the victim is given up, its
      entry goes on saying that it is in the swap file, where it is not. */
  method SwappedPageLost(n: nat) returns (p: Process, a: nat)
    requires n >= 2
    ensures fresh(p) && p.Listed() && !p.Valid()
    ensures a in p.pte && p.pte[a] == OnDisk && !InSwap(p.swapva[..], a)
  {
    p := Filled(n);
    PageMark(n);
    assert p.swapva[..][0] == NONE;
    var r, _, _, _ := p.AllocPage(n * PGSIZE, true);
    assert AnyOnDisk(p.pte);
    a :| a in p.pte && p.pte[a] == OnDisk;
    SwapHas(p.View(), a);
    p.FreePage(a);
  }

  lemma NotPassed(vas: seq<nat>, order: seq<nat>, k: nat)
    requires DistinctPages(vas, order) && k < |order|
    ensures !Passed(vas, order, k, FromTail(vas, order, k + 1))
  {
  }

  /** The tail is the old tail again only after a full turn. */
  lemma LastTurn(order: seq<nat>, k: nat)
    requires 1 <= k <= |order| && forall i, j :: 0 <= i < j < |order| ==> order[i] != order[j]
    ensures Rotated(order, k)[|order| - 1] == order[|order| - 1] <==> k == |order|
  {
  }
}
