/** The buffer cache: a circular list of buffers through `prev` and `next`, most recently
    released first, in which a block is looked up and a buffer recycled. Each method is
    one stretch run under `bcache.lock`, or one step of the holder of a buffer's lock, so
    every interleaving of callers is a sequence of calls. */
module BufferCache {
  import opened Basics

  type Block = seq<bv8>

  datatype Buf = Buf(dev: nat, blockno: nat, refcnt: nat, locked: bool, valid: bool, dirty: bool, data: Block)

  /** How far a caller of `bread` has got with its buffer: waiting for its lock, holding
      it, or past `releasesleep` in `brelse`. */
  datatype Use = Waiting(b: nat) | Holding(b: nat) | Leaving(b: nat)

  // ---------------------------------------------------------------- the list

  /** What stands at place i of the ring: the head before the first and after the last. */
  function Spot(head: nat, order: seq<nat>, i: int): nat {
    if 0 <= i < |order| then order[i] else head
  }

  ghost predicate Distinct(head: nat, order: seq<nat>) {
    && (forall i :: 0 <= i < |order| ==> order[i] < head)
    && forall i, j :: 0 <= i < j < |order| ==> order[i] != order[j]
  }

  /** The places i - 1 and i of the ring point at each other. */
  ghost predicate Joined(next: seq<nat>, prev: seq<nat>, head: nat, order: seq<nat>, i: int) {
    var a, c := Spot(head, order, i - 1), Spot(head, order, i);
    a < |next| && c < |prev| && next[a] == c && prev[c] == a
  }

  /** next and prev link head, order[0], order[1], ... into one ring. */
  ghost predicate Ring(next: seq<nat>, prev: seq<nat>, head: nat, order: seq<nat>) {
    && |next| == |prev| == head + 1 && Distinct(head, order)
    && forall i :: 0 <= i <= |order| ==> Joined(next, prev, head, order, i)
  }

  lemma RingAt(next: seq<nat>, prev: seq<nat>, head: nat, order: seq<nat>, k: nat)
    requires Ring(next, prev, head, order) && k < |order|
    ensures order[k] < head && next[order[k]] == Spot(head, order, k + 1) <= head
      && prev[order[k]] == Spot(head, order, k - 1) <= head
    ensures next[head] == Spot(head, order, 0) <= head && prev[head] == Spot(head, order, |order| - 1) <= head
  {
    assert Joined(next, prev, head, order, k) && Joined(next, prev, head, order, k + 1);
    assert Joined(next, prev, head, order, 0) && Joined(next, prev, head, order, |order|);
  }

  lemma RingHead(next: seq<nat>, prev: seq<nat>, head: nat, order: seq<nat>)
    requires Ring(next, prev, head, order)
    ensures next[head] == Spot(head, order, 0) && prev[head] == Spot(head, order, |order| - 1)
  {
    assert Joined(next, prev, head, order, 0) && Joined(next, prev, head, order, |order|);
  }

  lemma SpotsDiffer(head: nat, order: seq<nat>, i: int, j: int)
    requires Distinct(head, order) && -1 <= i < j <= |order| && !(i == -1 && j == |order|)
    ensures Spot(head, order, i) != Spot(head, order, j)
  {
  }

  function Removed(order: seq<nat>, k: nat): seq<nat>
    requires k < |order|
  {
    order[..k] + order[k + 1..]
  }

  lemma RemovedJoin(next: seq<nat>, prev: seq<nat>, head: nat, order: seq<nat>, k: nat, i: int)
    requires Ring(next, prev, head, order) && k < |order| && 0 <= i <= |order| - 1
    requires prev[order[k]] <= head && next[order[k]] <= head
    ensures Joined(next[prev[order[k]] := next[order[k]]], prev[next[order[k]] := prev[order[k]]], head,
      Removed(order, k), i)
  {
    var order' := Removed(order, k);
    RingAt(next, prev, head, order, k);
    var m := if i < k then i else i + 1;
    assert Spot(head, order', i) == Spot(head, order, m);
    assert Spot(head, order', i - 1) == Spot(head, order, if i <= k then i - 1 else i);
    assert Joined(next, prev, head, order, m);
    if i < k {
      SpotsDiffer(head, order, i - 1, k - 1);
      SpotsDiffer(head, order, i, k + 1);
    } else if i > k {
      SpotsDiffer(head, order, k - 1, i);
      SpotsDiffer(head, order, k + 1, i + 1);
    }
  }

  /** Taking the k-th buffer out: its neighbours are linked to each other. */
  lemma UnlinkRing(next: seq<nat>, prev: seq<nat>, head: nat, order: seq<nat>, k: nat)
    requires Ring(next, prev, head, order) && k < |order|
    ensures prev[order[k]] <= head && next[order[k]] <= head
    ensures Ring(next[prev[order[k]] := next[order[k]]], prev[next[order[k]] := prev[order[k]]], head,
      Removed(order, k))
  {
    RingAt(next, prev, head, order, k);
    var next' := next[prev[order[k]] := next[order[k]]];
    var prev' := prev[next[order[k]] := prev[order[k]]];
    forall i | 0 <= i <= |order| - 1 ensures Joined(next', prev', head, Removed(order, k), i) {
      RemovedJoin(next, prev, head, order, k, i);
    }
  }

  /** Putting a buffer that is not in the ring just after the head. */
  lemma PushRing(next: seq<nat>, prev: seq<nat>, head: nat, order: seq<nat>, b: nat)
    requires Ring(next, prev, head, order) && b < head && b !in order
    ensures next[head] <= head
    ensures Ring(next[b := next[head]][head := b], prev[b := head][next[head] := b], head, [b] + order)
  {
    assert Joined(next, prev, head, order, 0);
    var order' := [b] + order;
    var next', prev' := next[b := next[head]][head := b], prev[b := head][next[head] := b];
    forall i | 0 <= i <= |order'| ensures Joined(next', prev', head, order', i) {
      if i >= 2 {
        assert Spot(head, order', i) == Spot(head, order, i - 1)
          && Spot(head, order', i - 1) == Spot(head, order, i - 2);
        assert Joined(next, prev, head, order, i - 1);
        SpotsDiffer(head, order, 0, i - 1);
      }
    }
  }

  /** Every buffer is in the list, and the list is sorted by the time of last release. */
  ghost predicate Sorted(n: nat, order: seq<nat>, stamp: map<nat, nat>, clock: nat) {
    && (forall b: nat :: b < n ==> b in order && b in stamp && stamp[b] < clock)
    && (forall i :: 0 <= i < |order| ==> order[i] < n)
    && forall i, j :: 0 <= i < j < |order| ==> stamp[order[i]] > stamp[order[j]]
  }

  lemma PlaceOf(n: nat, order: seq<nat>, stamp: map<nat, nat>, clock: nat, b: nat) returns (i: nat)
    requires Sorted(n, order, stamp, clock) && b < n
    ensures i < |order| && order[i] == b
  {
    assert b in order;
    i :| 0 <= i < |order| && order[i] == b;
  }

  lemma RemovedAt(order: seq<nat>, k: nat, i: nat)
    requires k < |order| && i < |order| - 1
    ensures |Removed(order, k)| == |order| - 1 && Removed(order, k)[i] == order[if i < k then i else i + 1]
  {
  }

  /** The list with its k-th buffer moved to the front. */
  function Fronted(order: seq<nat>, k: nat): seq<nat>
    requires k < |order|
  {
    [order[k]] + Removed(order, k)
  }

  lemma FrontedAt(order: seq<nat>, k: nat, i: nat)
    requires k < |order| && i < |order|
    ensures |Fronted(order, k)| == |order|
    ensures Fronted(order, k)[i] == order[if i == 0 then k else if i <= k then i - 1 else i]
  {
    if i > 0 {
      RemovedAt(order, k, i - 1);
    }
  }

  lemma FrontedHas(n: nat, order: seq<nat>, stamp: map<nat, nat>, clock: nat, k: nat, b: nat)
    requires Sorted(n, order, stamp, clock) && k < |order| && b < n
    ensures b in Fronted(order, k)
  {
    var i := PlaceOf(n, order, stamp, clock, b);
    var m := if i == k then 0 else if i < k then i + 1 else i;
    FrontedAt(order, k, m);
    assert Fronted(order, k)[m] == b;
  }

  /** Moving the k-th buffer to the front, released just now. */
  lemma SortedMoved(n: nat, order: seq<nat>, stamp: map<nat, nat>, clock: nat, k: nat)
    requires Sorted(n, order, stamp, clock) && k < |order| && Distinct(n, order)
    ensures Sorted(n, Fronted(order, k), stamp[order[k] := clock], clock + 1)
  {
    var order', stamp' := Fronted(order, k), stamp[order[k] := clock];
    FrontedAt(order, k, 0);
    forall b: nat | b < n ensures b in order' {
      FrontedHas(n, order, stamp, clock, k, b);
    }
    forall i | 0 <= i < |order'| ensures order'[i] < n {
      FrontedAt(order, k, i);
    }
    forall i, j | 0 <= i < j < |order'| ensures stamp'[order'[i]] > stamp'[order'[j]] {
      StampsFall(n, order, stamp, clock, k, i, j);
    }
  }

  lemma StampsFall(n: nat, order: seq<nat>, stamp: map<nat, nat>, clock: nat, k: nat, i: nat, j: nat)
    requires Sorted(n, order, stamp, clock) && Distinct(n, order) && k < |order| && i < j < |order|
    ensures |Fronted(order, k)| == |order| && Fronted(order, k)[i] in stamp && Fronted(order, k)[j] in stamp
    ensures var stamp' := stamp[order[k] := clock]; stamp'[Fronted(order, k)[i]] > stamp'[Fronted(order, k)[j]]
  {
    FrontedAt(order, k, i);
    FrontedAt(order, k, j);
  }

  lemma RemovedLacks(n: nat, order: seq<nat>, k: nat)
    requires Distinct(n, order) && k < |order|
    ensures order[k] !in Removed(order, k)
  {
    forall i: nat | i < |order| - 1 ensures Removed(order, k)[i] != order[k] {
      RemovedAt(order, k, i);
    }
  }

  /** Buffers count as released in the order binit puts them in. */
  ghost function Stamps(n: nat): (stamp: map<nat, nat>)
    ensures forall b: nat :: b in stamp <==> b < n
    ensures forall b: nat :: b < n ==> stamp[b] == b
  {
    if n == 0 then map[] else Stamps(n - 1)[n - 1 := n - 1]
  }

  lemma RingNone(next: seq<nat>, prev: seq<nat>, head: nat)
    requires |next| == |prev| == head + 1 && next[head] == head && prev[head] == head
    ensures Ring(next, prev, head, [])
  {
    assert Joined(next, prev, head, [], 0);
  }

  lemma SortedInit(n: nat, order: seq<nat>)
    requires |order| == n && forall i :: 0 <= i < n ==> order[i] == n - 1 - i
    ensures Sorted(n, order, Stamps(n), n)
  {
    forall c: nat | c < n ensures c in order {
      assert order[n - 1 - c] == c;
    }
  }

  // ---------------------------------------------------------------- callers

  /** The calls that count towards the reference count of buffer b. */
  ghost function Refs(calls: map<nat, Use>, b: nat): set<nat> {
    set t | t in calls && calls[t].b == b
  }

  /** The calls that hold the lock of buffer b. */
  ghost function Holders(calls: map<nat, Use>, b: nat): set<nat> {
    set t | t in calls && calls[t] == Holding(b)
  }

  /** Reference counts and locks are those of the calls under way. */
  ghost predicate Counted(bufs: seq<Buf>, calls: map<nat, Use>) {
    && (forall t :: t in calls ==> calls[t].b < |bufs|)
    && forall b: nat :: b < |bufs| ==> Tallied(bufs[b], calls, b)
  }

  lemma CallAdded(calls: map<nat, Use>, t: nat, b: nat, c: nat)
    requires t !in calls
    ensures |Refs(calls[t := Waiting(b)], c)| == |Refs(calls, c)| + if c == b then 1 else 0
    ensures Holders(calls[t := Waiting(b)], c) == Holders(calls, c)
  {
    var calls' := calls[t := Waiting(b)];
    if c == b {
      assert Refs(calls', c) == Refs(calls, c) + {t};
    } else {
      assert Refs(calls', c) == Refs(calls, c);
    }
  }

  lemma RefsMoved(calls: map<nat, Use>, t: nat, u: Use, c: nat)
    requires t in calls && calls[t].b == u.b
    ensures Refs(calls[t := u], c) == Refs(calls, c)
  {
    forall s ensures s in Refs(calls[t := u], c) <==> s in Refs(calls, c) {
    }
  }

  lemma HoldersMoved(calls: map<nat, Use>, t: nat, u: Use, c: nat)
    requires t in calls
    ensures Holders(calls[t := u], c) - {t} == Holders(calls, c) - {t}
    ensures t in Holders(calls[t := u], c) <==> u == Holding(c)
    ensures t in Holders(calls, c) <==> calls[t] == Holding(c)
  {
    forall s | s != t ensures s in Holders(calls[t := u], c) <==> s in Holders(calls, c) {
    }
  }

  lemma CallMoved(calls: map<nat, Use>, t: nat, u: Use, c: nat)
    requires t in calls && calls[t].b == u.b
    ensures Refs(calls[t := u], c) == Refs(calls, c)
    ensures |Holders(calls[t := u], c)| == |Holders(calls, c)|
      + (if u == Holding(c) then 1 else 0) - (if calls[t] == Holding(c) then 1 else 0)
  {
    RefsMoved(calls, t, u, c);
    HoldersMoved(calls, t, u, c);
    LessOne(Holders(calls[t := u], c), t);
    LessOne(Holders(calls, c), t);
  }

  lemma LessOne(s: set<nat>, t: nat)
    ensures |s| == |s - {t}| + if t in s then 1 else 0
  {
    if t in s {
      assert s == (s - {t}) + {t};
    } else {
      assert s - {t} == s;
    }
  }

  lemma CallDropped(calls: map<nat, Use>, t: nat, c: nat)
    requires t in calls && calls[t].Leaving?
    ensures |Refs(calls - {t}, c)| == |Refs(calls, c)| - if calls[t].b == c then 1 else 0
    ensures Holders(calls - {t}, c) == Holders(calls, c)
  {
    if calls[t].b == c {
      assert Refs(calls, c) == Refs(calls - {t}, c) + {t};
    } else {
      assert Refs(calls, c) == Refs(calls - {t}, c);
    }
  }

  ghost predicate Tallied(buf: Buf, calls: map<nat, Use>, b: nat) {
    buf.refcnt == |Refs(calls, b)| && |Holders(calls, b)| == if buf.locked then 1 else 0
  }

  lemma CountedAdd(bufs: seq<Buf>, calls: map<nat, Use>, t: nat, b: nat, buf': Buf)
    requires Counted(bufs, calls) && t !in calls && b < |bufs|
    requires buf'.refcnt == bufs[b].refcnt + 1 && buf'.locked == bufs[b].locked
    ensures Counted(bufs[b := buf'], calls[t := Waiting(b)])
  {
    var bufs', calls' := bufs[b := buf'], calls[t := Waiting(b)];
    forall c: nat | c < |bufs| ensures Tallied(bufs'[c], calls', c) {
      assert Tallied(bufs[c], calls, c);
      CallAdded(calls, t, b, c);
    }
  }

  /** A call takes or gives up the lock of its buffer. */
  lemma CountedMove(bufs: seq<Buf>, calls: map<nat, Use>, t: nat, u: Use, buf': Buf)
    requires Counted(bufs, calls) && t in calls && calls[t].b == u.b && buf'.refcnt == bufs[u.b].refcnt
    requires u.Holding? ==> !bufs[u.b].locked && !calls[t].Holding?
    requires buf'.locked == if u.Holding? then true else if calls[t].Holding? then false else bufs[u.b].locked
    ensures Counted(bufs[u.b := buf'], calls[t := u])
  {
    var bufs', calls' := bufs[u.b := buf'], calls[t := u];
    forall c: nat | c < |bufs| ensures Tallied(bufs'[c], calls', c) {
      assert Tallied(bufs[c], calls, c);
      CallMoved(calls, t, u, c);
      assert calls[t] == Holding(c) ==> t in Holders(calls, c);
    }
  }

  lemma CountedDrop(bufs: seq<Buf>, calls: map<nat, Use>, t: nat, buf': Buf)
    requires Counted(bufs, calls) && t in calls && calls[t].Leaving?
    requires buf'.refcnt == bufs[calls[t].b].refcnt - 1 && buf'.locked == bufs[calls[t].b].locked
    ensures Counted(bufs[calls[t].b := buf'], calls - {t})
  {
    var bufs', calls' := bufs[calls[t].b := buf'], calls - {t};
    forall c: nat | c < |bufs| ensures Tallied(bufs'[c], calls', c) {
      assert Tallied(bufs[c], calls, c);
      CallDropped(calls, t, c);
    }
  }

  lemma OnlyOne(held: set<nat>, t: nat, s: nat)
    requires |held| == 1 && t in held && s in held
    ensures s == t
  {
    LessOne(held, t);
    if s != t {
      LessOne(held - {t}, s);
    }
  }

  /** A call in progress keeps its buffer referenced; a holder keeps it locked; and only
      one call holds a buffer. */
  lemma CountedUse(bufs: seq<Buf>, calls: map<nat, Use>, t: nat)
    requires Counted(bufs, calls) && t in calls
    ensures calls[t].b < |bufs| && bufs[calls[t].b].refcnt > 0
    ensures calls[t].Holding? ==> bufs[calls[t].b].locked
    ensures forall s :: s in calls && calls[t].Holding? && calls[s] == calls[t] ==> s == t
  {
    var b := calls[t].b;
    assert Tallied(bufs[b], calls, b);
    assert t in Refs(calls, b);
    if calls[t].Holding? {
      assert t in Holders(calls, b);
      LessOne(Holders(calls, b), t);
      forall s | s in calls && calls[s] == calls[t] ensures s == t {
        OnlyOne(Holders(calls, b), t, s);
      }
    }
  }

  // ---------------------------------------------------------------- the cache

  predicate Caches(bufs: seq<Buf>, b: nat, dev: nat, blockno: nat) {
    b < |bufs| && bufs[b].dev == dev && bufs[b].blockno == blockno
  }

  predicate Idle(bufs: seq<Buf>, b: nat) {
    b < |bufs| && bufs[b].refcnt == 0 && !bufs[b].dirty
  }

  /** A block of a real device is in at most one buffer, and a buffer nobody holds that is
      valid and clean has the contents of its disk block. */
  ghost predicate Coherent(bufs: seq<Buf>, disk: map<(nat, nat), Block>) {
    && (forall b, c :: 0 <= b < c < |bufs| && bufs[b].dev != 0 && bufs[b].dev == bufs[c].dev ==>
      bufs[b].blockno != bufs[c].blockno)
    && (forall b :: 0 <= b < |bufs| && bufs[b].dirty ==> bufs[b].valid)
    && (forall b :: 0 <= b < |bufs| && bufs[b].valid ==> bufs[b].dev != 0 && (bufs[b].dev, bufs[b].blockno) in disk)
    && forall b :: 0 <= b < |bufs| && bufs[b].valid && !bufs[b].dirty && !bufs[b].locked ==>
      bufs[b].data == disk[(bufs[b].dev, bufs[b].blockno)]
  }

  ghost predicate MovedToFront(order: seq<nat>, order': seq<nat>, b: nat) {
    exists k: nat :: k < |order| && order[k] == b && order' == Fronted(order, k)
  }

  function Referenced(buf: Buf): Buf {
    buf.(refcnt := buf.refcnt + 1)
  }

  function Released(buf: Buf): Buf {
    if buf.refcnt == 0 then buf else buf.(refcnt := buf.refcnt - 1)
  }

  function Recycled(buf: Buf, dev: nat, blockno: nat): Buf {
    Buf(dev, blockno, 1, buf.locked, false, false, buf.data)
  }

  lemma CountedSame(bufs: seq<Buf>, calls: map<nat, Use>, b: nat, buf': Buf)
    requires Counted(bufs, calls) && b < |bufs| && buf'.refcnt == bufs[b].refcnt && buf'.locked == bufs[b].locked
    ensures Counted(bufs[b := buf'], calls)
  {
    var bufs' := bufs[b := buf'];
    forall c: nat | c < |bufs| ensures Tallied(bufs'[c], calls, c) {
      assert Tallied(bufs[c], calls, c);
    }
  }

  /** A buffer may change in any way that keeps its block and is coherent by itself. */
  lemma CoherentSame(bufs: seq<Buf>, disk: map<(nat, nat), Block>, b: nat, buf': Buf)
    requires Coherent(bufs, disk) && b < |bufs| && buf'.dev == bufs[b].dev && buf'.blockno == bufs[b].blockno
    requires buf'.dirty ==> buf'.valid
    requires buf'.valid ==> buf'.dev != 0 && (buf'.dev, buf'.blockno) in disk
    requires buf'.valid && !buf'.dirty && !buf'.locked ==> buf'.data == disk[(buf'.dev, buf'.blockno)]
    ensures Coherent(bufs[b := buf'], disk)
  {
  }

  lemma CoherentNew(bufs: seq<Buf>, disk: map<(nat, nat), Block>, b: nat, dev: nat, blockno: nat)
    requires Coherent(bufs, disk) && b < |bufs| && forall c :: !Caches(bufs, c, dev, blockno)
    ensures Coherent(bufs[b := Recycled(bufs[b], dev, blockno)], disk)
  {
    forall c: nat | c < |bufs| ensures bufs[c].dev == dev ==> bufs[c].blockno != blockno {
      assert !Caches(bufs, c, dev, blockno);
    }
  }

  lemma CoherentWritten(bufs: seq<Buf>, disk: map<(nat, nat), Block>, b: nat)
    requires Coherent(bufs, disk) && b < |bufs| && bufs[b].valid
    ensures Coherent(bufs[b := bufs[b].(dirty := false)], disk[(bufs[b].dev, bufs[b].blockno) := bufs[b].data])
  {
    var bufs' := bufs[b := bufs[b].(dirty := false)];
    forall c | 0 <= c < |bufs'| && bufs'[c].valid && c != b
      ensures (bufs'[c].dev, bufs'[c].blockno) != (bufs[b].dev, bufs[b].blockno)
    {
      assert bufs'[c] == bufs[c];
      if c < b {
        assert bufs[c].dev == bufs[b].dev ==> bufs[c].blockno != bufs[b].blockno;
      } else {
        assert bufs[b].dev == bufs[c].dev ==> bufs[b].blockno != bufs[c].blockno;
      }
    }
  }

  lemma StartsEmpty(bufs: seq<Buf>, disk: map<(nat, nat), Block>)
    requires forall b :: 0 <= b < |bufs| ==> bufs[b] == Buf(0, 0, 0, false, false, false, [])
    ensures Counted(bufs, map[]) && Coherent(bufs, disk)
  {
    forall c: nat | c < |bufs| ensures Tallied(bufs[c], map[], c) {
      assert Refs(map[], c) == {} && Holders(map[], c) == {};
    }
  }

  class Cache {
    const N: nat
    const buf: array<Buf>
    const next: array<nat>
    const prev: array<nat>
    var disk: map<(nat, nat), Block>
    /** The buffers in list order, the calls under way, and when each buffer was last
        released by its last user. */
    ghost var order: seq<nat>
    ghost var calls: map<nat, Use>
    ghost var stamp: map<nat, nat>
    ghost var clock: nat

    /** `binit`: every buffer is put in at the front, none holds a block. */
    constructor (n: nat, disk: map<(nat, nat), Block>)
      ensures Valid() && N == n && this.disk == disk && calls == map[]
      ensures fresh(buf) && fresh(next) && fresh(prev)
      ensures forall b: nat :: b < N ==> buf[b] == Buf(0, 0, 0, false, false, false, [])
    {
      N, this.disk := n, disk;
      buf := new Buf[n](_ => Buf(0, 0, 0, false, false, false, []));
      next, prev := new nat[n + 1](_ => n), new nat[n + 1](_ => n);
      order, calls, stamp, clock := [], map[], Stamps(n), n;
      new;
      LinkAll();
      StartsEmpty(buf[..], disk);
    }

    /** The loop of `binit`. */
    method LinkAll()
      requires next != prev && next.Length == prev.Length == N + 1 && next[N] == N && prev[N] == N && order == []
      modifies this`order, next, prev
      ensures Ring(next[..], prev[..], N, order) && Sorted(N, order, Stamps(N), N)
    {
      RingNone(next[..], prev[..], N);
      var b := 0;
      while b < N
        invariant 0 <= b <= N && Ring(next[..], prev[..], N, order) && |order| == b
        invariant forall i :: 0 <= i < b ==> order[i] == b - 1 - i
      {
        PushFront(b);
        b := b + 1;
      }
      SortedInit(N, order);
    }

    /** `b->next = head.next; b->prev = &head; head.next->prev = b; head.next = b`. */
    method PushFront(b: nat)
      requires next != prev && Ring(next[..], prev[..], N, order) && b < N && b !in order
      modifies this`order, next, prev
      ensures Ring(next[..], prev[..], N, order) && order == [b] + old(order)
    {
      ghost var nx: seq<nat>, pv: seq<nat> := next[..], prev[..];
      PushRing(nx, pv, N, order, b);
      next[b] := next[N];
      prev[b] := N;
      prev[next[N]] := b;
      next[N] := b;
      assert next[..] == nx[b := nx[N]][N := b] && prev[..] == pv[b := N][nx[N] := b];
      order := [b] + order;
    }

    ghost predicate Listed()
      reads this, next, prev
    {
      next != prev && Ring(next[..], prev[..], N, order) && Sorted(N, order, stamp, clock)
    }

    ghost predicate Valid()
      reads this, buf, next, prev
    {
      Listed() && buf.Length == N && Counted(buf[..], calls) && Coherent(buf[..], disk)
    }

    /** The first loop of `bget`, forwards; N when the block is not cached. */
    method Find(dev: nat, blockno: nat) returns (b: nat)
      requires Listed() && buf.Length == N
      ensures if b < N then Caches(buf[..], b, dev, blockno)
              else b == N && forall c :: !Caches(buf[..], c, dev, blockno)
    {
      ghost var i, nx, pv := 0, next[..], prev[..];
      RingHead(nx, pv, N, order);
      b := next[N];
      while b != N
        invariant 0 <= i <= |order| && b == Spot(N, order, i)
        invariant forall j :: 0 <= j < i ==> !Caches(buf[..], order[j], dev, blockno)
        decreases |order| - i
      {
        RingAt(nx, pv, N, order, i);
        if buf[b].dev == dev && buf[b].blockno == blockno {
          return;
        }
        b, i := next[b], i + 1;
      }
      forall c: nat | c < N ensures !Caches(buf[..], c, dev, blockno) {
        var j := PlaceOf(N, order, stamp, clock, c);
      }
    }

    /** The second loop of `bget`, backwards; N when no buffer is idle and clean. */
    method Oldest() returns (b: nat)
      requires Listed() && buf.Length == N
      ensures if b < N then Idle(buf[..], b) else b == N && forall c :: !Idle(buf[..], c)
      ensures b < N ==> forall c :: Idle(buf[..], c) ==> c in stamp && b in stamp && stamp[b] <= stamp[c]
    {
      ghost var i, nx, pv := |order| - 1, next[..], prev[..];
      RingHead(nx, pv, N, order);
      b := prev[N];
      while b != N
        invariant -1 <= i < |order| && b == Spot(N, order, i)
        invariant forall j :: i < j < |order| ==> !Idle(buf[..], order[j])
        decreases i
      {
        RingAt(nx, pv, N, order, i);
        if buf[b].refcnt == 0 && !buf[b].dirty {
          return;
        }
        b, i := prev[b], i - 1;
      }
      forall c: nat | c < N ensures !Idle(buf[..], c) {
        var j := PlaceOf(N, order, stamp, clock, c);
      }
    }

    /** `bget` under `bcache.lock`. A cached block is found where it is. Otherwise the
        buffer recycled is the idle clean one released longest ago; None, the panic, means
        that every buffer is referenced or dirty. */
    method Bget(dev: nat, blockno: nat, ghost t: nat) returns (r: Option<nat>)
      requires Valid() && dev != 0 && t !in calls
      modifies this`calls, buf
      ensures Valid()
      ensures r.Some? ==> r.value < N && calls == old(calls)[t := Waiting(r.value)]
      ensures r.Some? && (exists b :: Caches(old(buf[..]), b, dev, blockno)) ==>
        && Caches(old(buf[..]), r.value, dev, blockno)
        && buf[..] == old(buf[..])[r.value := Referenced(old(buf[..])[r.value])]
      ensures r.Some? && (forall b :: !Caches(old(buf[..]), b, dev, blockno)) ==>
        && Idle(old(buf[..]), r.value)
        && (forall b :: Idle(old(buf[..]), b) ==> b in stamp && r.value in stamp && stamp[r.value] <= stamp[b])
        && buf[..] == old(buf[..])[r.value := Recycled(old(buf[..])[r.value], dev, blockno)]
      ensures r.None? <==> forall b :: !Caches(old(buf[..]), b, dev, blockno) && !Idle(old(buf[..]), b)
      ensures r.None? ==> calls == old(calls) && buf[..] == old(buf[..])
    {
      var b := Find(dev, blockno);
      ghost var bufs := buf[..];
      if b != N {
        CountedAdd(bufs, calls, t, b, Referenced(bufs[b]));
        CoherentSame(bufs, disk, b, Referenced(bufs[b]));
        buf[b] := buf[b].(refcnt := buf[b].refcnt + 1);
        assert buf[..] == bufs[b := Referenced(bufs[b])];
        calls := calls[t := Waiting(b)];
        assert Caches(bufs, b, dev, blockno);
        return Some(b);
      }
      b := Oldest();
      if b != N {
        CountedAdd(bufs, calls, t, b, Recycled(bufs[b], dev, blockno));
        CoherentNew(bufs, disk, b, dev, blockno);
        buf[b] := buf[b].(dev := dev, blockno := blockno, valid := false, dirty := false, refcnt := 1);
        assert buf[..] == bufs[b := Recycled(bufs[b], dev, blockno)];
        calls := calls[t := Waiting(b)];
        return Some(b);
      }
      return None;
    }

    /** The end of `bget`: the sleep-lock of the buffer is free and now taken. */
    method AcquireSleep(b: nat, ghost t: nat)
      requires Valid() && t in calls && calls[t] == Waiting(b) && b < N && !buf[b].locked
      modifies this`calls, buf
      ensures Valid() && calls == old(calls)[t := Holding(b)]
      ensures buf[..] == old(buf[..])[b := old(buf[..])[b].(locked := true)]
    {
      ghost var bufs := buf[..];
      CountedMove(bufs, calls, t, Holding(b), bufs[b].(locked := true));
      CoherentSame(bufs, disk, b, bufs[b].(locked := true));
      buf[b] := buf[b].(locked := true);
      assert buf[..] == bufs[b := bufs[b].(locked := true)];
      calls := calls[t := Holding(b)];
    }

    /** The rest of `bread`: the holder gets the block's contents, from the disk unless
        they are in the buffer already. */
    method Fill(b: nat, ghost t: nat)
      requires Valid() && t in calls && calls[t] == Holding(b) && b < N
      requires buf[b].dev != 0 && (buf[b].dev, buf[b].blockno) in disk
      modifies buf
      ensures Valid() && buf[b].valid
      ensures buf[b].data == if old(buf[b]).valid then old(buf[b]).data else disk[(buf[b].dev, buf[b].blockno)]
      ensures buf[..] == old(buf[..])[b := old(buf[..])[b].(valid := true, data := buf[b].data)]
    {
      ghost var bufs := buf[..];
      CountedUse(bufs, calls, t);
      if !buf[b].valid {
        var data := disk[(buf[b].dev, buf[b].blockno)];
        CountedSame(bufs, calls, b, bufs[b].(valid := true, data := data));
        CoherentSame(bufs, disk, b, bufs[b].(valid := true, data := data));
        buf[b] := buf[b].(valid := true, data := data);
      }
      assert buf[..] == bufs[b := bufs[b].(valid := true, data := buf[b].data)];
    }

    /** The holder changes the data; `dirty` when it goes through `log_write`. */
    method Store(b: nat, data: Block, dirty: bool, ghost t: nat)
      requires Valid() && t in calls && calls[t] == Holding(b) && b < N && buf[b].valid
      modifies buf
      ensures Valid()
      ensures buf[..] == old(buf[..])[b := old(buf[..])[b].(data := data, dirty := dirty || old(buf[b]).dirty)]
    {
      ghost var bufs := buf[..];
      CountedUse(bufs, calls, t);
      ghost var next := bufs[b].(data := data, dirty := dirty || bufs[b].dirty);
      CountedSame(bufs, calls, b, next);
      CoherentSame(bufs, disk, b, next);
      buf[b] := buf[b].(data := data, dirty := dirty || buf[b].dirty);
      assert buf[..] == bufs[b := next];
    }

    /** `bwrite`: the disk block becomes the buffer's contents, and the buffer is clean. */
    method Bwrite(b: nat, ghost t: nat)
      requires Valid() && t in calls && calls[t] == Holding(b) && b < N && buf[b].valid
      modifies this`disk, buf
      ensures Valid() && disk == old(disk)[(old(buf[b]).dev, old(buf[b]).blockno) := old(buf[b]).data]
      ensures buf[..] == old(buf[..])[b := old(buf[..])[b].(dirty := false)]
    {
      ghost var bufs := buf[..];
      CountedUse(bufs, calls, t);
      CountedSame(bufs, calls, b, bufs[b].(dirty := false));
      CoherentWritten(bufs, disk, b);
      buf[b] := buf[b].(dirty := true);
      disk := disk[(buf[b].dev, buf[b].blockno) := buf[b].data];
      buf[b] := buf[b].(dirty := false);
      assert buf[..] == bufs[b := bufs[b].(dirty := false)];
    }

    /** `brelse` up to `releasesleep`. The holder leaves the buffer dirty or equal to its
        disk block: it has changed it only through `log_write` or written it back. */
    method ReleaseSleep(b: nat, ghost t: nat)
      requires Valid() && t in calls && calls[t] == Holding(b) && b < N && buf[b].locked
      requires buf[b].valid && !buf[b].dirty ==>
        (buf[b].dev, buf[b].blockno) in disk && buf[b].data == disk[(buf[b].dev, buf[b].blockno)]
      modifies this`calls, buf
      ensures Valid() && calls == old(calls)[t := Leaving(b)]
      ensures buf[..] == old(buf[..])[b := old(buf[..])[b].(locked := false)]
    {
      ghost var bufs := buf[..];
      CountedMove(bufs, calls, t, Leaving(b), bufs[b].(locked := false));
      CoherentSame(bufs, disk, b, bufs[b].(locked := false));
      buf[b] := buf[b].(locked := false);
      assert buf[..] == bufs[b := bufs[b].(locked := false)];
      calls := calls[t := Leaving(b)];
    }

    /** The rest of `brelse`, under `bcache.lock`: the last user moves the buffer to the
        front of the list; the other buffers keep their order. */
    method Drop(b: nat, ghost t: nat)
      requires Valid() && t in calls && calls[t] == Leaving(b) && b < N
      modifies this`calls, this`order, this`stamp, this`clock, buf, next, prev
      ensures Valid() && calls == old(calls) - {t}
      ensures buf[..] == old(buf[..])[b := Released(old(buf[..])[b])]
      ensures old(buf[b]).refcnt > 1 ==> order == old(order) && stamp == old(stamp)
      ensures old(buf[b]).refcnt == 1 ==> MovedToFront(old(order), order, b) && stamp == old(stamp)[b := old(clock)]
    {
      ghost var bufs := buf[..];
      CountedUse(bufs, calls, t);
      CountedDrop(bufs, calls, t, bufs[b].(refcnt := bufs[b].refcnt - 1));
      CoherentSame(bufs, disk, b, bufs[b].(refcnt := bufs[b].refcnt - 1));
      buf[b] := buf[b].(refcnt := buf[b].refcnt - 1);
      assert buf[..] == bufs[b := bufs[b].(refcnt := bufs[b].refcnt - 1)];
      calls := calls - {t};
      if buf[b].refcnt == 0 {
        MoveToFront(b);
      }
    }

    method MoveToFront(b: nat)
      requires Listed() && b < N
      modifies this`order, this`stamp, this`clock, next, prev
      ensures Listed() && stamp == old(stamp)[b := old(clock)]
      ensures MovedToFront(old(order), order, b)
    {
      ghost var k := PlaceOf(N, order, stamp, clock, b);
      ghost var nx: seq<nat>, pv: seq<nat> := next[..], prev[..];
      RingAt(nx, pv, N, order, k);
      UnlinkRing(nx, pv, N, order, k);
      prev[next[b]] := prev[b];
      next[prev[b]] := next[b];
      ghost var nx1: seq<nat>, pv1: seq<nat> := next[..], prev[..];
      assert nx1 == nx[pv[b] := nx[b]] && pv1 == pv[nx[b] := pv[b]];
      RemovedLacks(N, order, k);
      SortedMoved(N, order, stamp, clock, k);
      ghost var was := order;
      order := Removed(was, k);
      PushFront(b);
      assert order == Fronted(was, k);
      stamp, clock := stamp[b := clock], clock + 1;
    }

    /** What the invariant says to a reader: a block of a real device has one buffer, and
        what an idle clean valid buffer holds is what the disk holds. */
    lemma CacheAgreesWithDisk(b: nat, c: nat)
      requires Valid() && b < N && c < N && buf[b].dev != 0
      ensures buf[c].dev == buf[b].dev && buf[c].blockno == buf[b].blockno ==> b == c
      ensures Idle(buf[..], b) && buf[b].valid ==>
        (buf[b].dev, buf[b].blockno) in disk && buf[b].data == disk[(buf[b].dev, buf[b].blockno)]
    {
      var bufs := buf[..];
      if b < c {
        assert bufs[b].dev == bufs[c].dev ==> bufs[b].blockno != bufs[c].blockno;
      } else if c < b {
        assert bufs[c].dev == bufs[b].dev ==> bufs[c].blockno != bufs[b].blockno;
      }
      assert Tallied(bufs[b], calls, b);
      if bufs[b].refcnt == 0 {
        assert Holders(calls, b) <= Refs(calls, b) == {};
      }
    }
  }
}
