/** How large the log and the cache must be. `log_write` tests `log.lh.n >= log.size - 1`
    without the lock, and the reservation of `begin_op` does not mention `log.size`: the
    test is binding only when the log has more than LOGSIZE blocks. `mkfs` makes it
    LOGSIZE. A commit reads a log block while its transaction is pinned and others read
    too, so the cache needs a buffer for each of LOGSIZE blocks and each hand. NBUF is
    LOGSIZE. */
module LogLimits {
  import opened Basics
  import opened LogDisk
  import opened LogMachine
  import opened LogReads
  import opened LogRuns

  /** The i-th block after the log. */
  function Target(g: Geometry, i: nat): nat {
    g.start + g.size + i
  }

  /** The header that `mkfs` has zeroed. */
  function EmptyHead(): Sector {
    Head(0, Repeat(0, LOGSIZE))
  }

  /** The first n blocks as `mkfs` leaves them, as far as the log is concerned. */
  function Blank(g: Geometry, n: nat): Disk {
    if n == 0 then map[]
    else Blank(g, n - 1)[n - 1 := if n - 1 == g.start then EmptyHead() else Data([])]
  }

  function FreshDisk(g: Geometry): Disk {
    Blank(g, Target(g, LOGSIZE + g.hands))
  }

  lemma FreshAt(g: Geometry)
    ensures forall b: nat :: b in FreshDisk(g) <==> b < Target(g, LOGSIZE + g.hands)
    ensures forall b: nat :: b in FreshDisk(g) ==> FreshDisk(g)[b] == if b == g.start then EmptyHead() else Data([])
  {
    BlankAt(g, Target(g, LOGSIZE + g.hands));
  }

  /** What the operations write. */
  function Written(): Sector {
    Data([1])
  }

  lemma {:induction false} BlankAt(g: Geometry, n: nat)
    ensures forall b: nat :: b in Blank(g, n) <==> b < n
    ensures forall b: nat :: b < n ==>
      Blank(g, n)[b] == if b == g.start then EmptyHead() else Data([])
  {
    if n > 0 {
      BlankAt(g, n - 1);
    }
  }

  /** The targets that process j of three has logged after k writes in turn. */
  function Own(g: Geometry, j: nat, k: nat): set<nat> {
    if k == 0 then {}
    else if (k - 1) % 3 == j then Own(g, j, k - 1) + {Target(g, k - 1)}
    else Own(g, j, k - 1)
  }

  function Pins(g: Geometry, k: nat): map<nat, Buf> {
    if k == 0 then map[]
    else Pins(g, k - 1)[Target(g, k - 1) := Buf(Written(), true)]
  }

  function Targets(g: Geometry, k: nat): (ts: seq<nat>)
    ensures |ts| == k
    ensures forall i :: 0 <= i < k ==> ts[i] == Target(g, i)
  {
    if k == 0 then [] else Targets(g, k - 1) + [Target(g, k - 1)]
  }

  /** Three operations have logged the first k targets, taking turns. */
  function Filled(g: Geometry, k: nat): State {
    State(Running, FreshDisk(g), Pins(g, k), Targets(g, k), 3, false,
          [Op(Own(g, 0, k)), Op(Own(g, 1, k)), Op(Own(g, 2, k))], {})
  }

  lemma {:induction false} OwnBelow(g: Geometry, j: nat, k: nat)
    ensures forall b :: b in Own(g, j, k) ==> Target(g, 0) <= b < Target(g, k)
  {
    if k > 0 {
      OwnBelow(g, j, k - 1);
    }
  }

  lemma {:induction false} OwnSize(g: Geometry, j: nat, k: nat)
    requires j < 3
    ensures |Own(g, j, k)| == Turns(j, k)
  {
    if k > 0 {
      OwnSize(g, j, k - 1);
      OwnBelow(g, j, k - 1);
      TurnTaken(j, k - 1);
    }
  }

  /** How many of the numbers below k leave remainder j modulo 3. */
  function Turns(j: nat, k: nat): nat
    requires j < 3
  {
    (k + 2 - j) / 3
  }

  lemma TurnTaken(j: nat, k: nat)
    requires j < 3
    ensures Turns(j, k + 1) == Turns(j, k) + if k % 3 == j then 1 else 0
  {
    var m, r := k / 3, k % 3;
    assert k == 3 * m + r;
    if j == 0 {
    } else if j == 1 {
    } else {
    }
  }

  lemma {:induction false} PinsDomain(g: Geometry, k: nat)
    ensures forall b :: b in Pins(g, k) <==> Target(g, 0) <= b < Target(g, k)
    ensures forall b :: Target(g, 0) <= b < Target(g, k) ==> Pins(g, k)[b].dirty
    ensures |Pins(g, k).Keys| == k
  {
    if k > 0 {
      PinsDomain(g, k - 1);
      assert Pins(g, k).Keys == Pins(g, k - 1).Keys + {Target(g, k - 1)};
    }
  }

  /** Some run ends in s. */
  ghost predicate Reachable(g: Geometry, s: State) {
    exists run, steps :: IsRun(g, run, steps) && run[|run| - 1] == s
  }

  lemma Step(g: Geometry, s: State, e: Step)
    requires Reachable(g, s) && Enabled(g, s, e)
    ensures Reachable(g, Apply(g, s, e))
  {
    var run, steps := Extend(g, s, e);
    assert run[|run| - 1] == Apply(g, s, e);
  }

  lemma Extend(g: Geometry, s: State, e: Step) returns (run: seq<State>, steps: seq<Step>)
    requires Reachable(g, s) && Enabled(g, s, e)
    ensures IsRun(g, run, steps) && |run| >= 2 && run[|run| - 1] == Apply(g, s, e)
    ensures run[|run| - 2] == s && steps[|steps| - 1] == e
  {
    var run0, steps0 :| IsRun(g, run0, steps0) && run0[|run0| - 1] == s;
    run, steps := run0 + [Apply(g, s, e)], steps0 + [e];
    forall i | 0 <= i < |steps| ensures Linked(g, run[i], steps[i], run[i + 1]) {
      if i < |steps0| {
        assert Linked(g, run0[i], steps0[i], run0[i + 1]);
      }
    }
  }

  function Booted(g: Geometry): State {
    State(ReadHead, FreshDisk(g), map[], [], 0, false, [Idle, Idle, Idle], {})
  }

  lemma BootedReachable(g: Geometry)
    requires g.size >= 1
    ensures Reachable(g, Booted(g)) && DiskOk(g, FreshDisk(g))
  {
    FreshAt(g);
    assert Logged(g, Booted(g).disk) == [];
    assert IsRun(g, [Booted(g)], []);
  }

  /** The machine with an idle log and nothing cached. */
  function IdleMachine(g: Geometry): State {
    Booted(g).(mode := Running)
  }

  /** After booting, the empty header has been read. */
  function HeadSeen(g: Geometry): State {
    Booted(g).(cache := map[g.start := Buf(EmptyHead(), false)], mode := ClearHead)
  }

  lemma HeadRead(g: Geometry)
    requires g.size >= 1 && g.nbuf >= 1
    ensures Reachable(g, HeadSeen(g))
  {
    BootedReachable(g);
    FreshAt(g);
    var s0 := Booted(g);
    var s1 := s0.(cache := map[g.start := Buf(EmptyHead(), false)]);
    Step(g, s0, Load(g.start));
    assert Apply(g, s0, Load(g.start)) == s1;
    Step(g, s1, Recover);
    assert Apply(g, s1, Recover) == HeadSeen(g);
  }

  lemma Idles(g: Geometry)
    requires g.size >= 1 && g.nbuf >= 1
    ensures Reachable(g, IdleMachine(g))
  {
    HeadRead(g);
    FreshAt(g);
    var h, s2 := EmptyHead(), HeadSeen(g);
    assert [] + h.block[0..] == h.block;
    var s3 := s2.(mode := Running);
    Step(g, s2, Recover);
    assert FreshDisk(g)[g.start := h] == FreshDisk(g);
    assert Apply(g, s2, Recover) == s3;
    assert !BeingWritten(s3.procs, g.start);
    Step(g, s3, Evict(g.start));
    assert s3.cache - {g.start} == map[];
  }

  lemma Boot(g: Geometry)
    requires g.size >= 1 && g.nbuf >= 1
    ensures Reachable(g, Filled(g, 0))
  {
    Idles(g);
    var s0 := IdleMachine(g);
    var s1 := s0.(outstanding := 1, procs := [Op({}), Idle, Idle]);
    Step(g, s0, BeginOp(0));
    assert Apply(g, s0, BeginOp(0)) == s1;
    var s2 := s1.(outstanding := 2, procs := [Op({}), Op({}), Idle]);
    Step(g, s1, BeginOp(1));
    assert Apply(g, s1, BeginOp(1)) == s2;
    Step(g, s2, BeginOp(2));
    assert Apply(g, s2, BeginOp(2)).procs == [Op({}), Op({}), Op({})];
  }

  // One `log_write` in three parts.

  /** The process has read block b and modified it. */
  function Started(s: State, p: nat, b: nat): State
    requires p < |s.procs| && IsOp(s.procs[p])
  {
    s.(cache := s.cache[b := Buf(Written(), false)], procs := s.procs[p := Writing(s.procs[p].blocks, b, false)])
  }

  lemma Start(g: Geometry, s: State, p: nat, b: nat)
    requires Reachable(g, s) && s.mode == Running && p < |s.procs| && s.procs[p].Op?
    requires b in s.disk && !g.InLog(b) && b !in s.cache && |s.cache.Keys| < g.nbuf
    requires |s.procs[p].blocks + {b}| <= MAXOPBLOCKS && !BeingWritten(s.procs, b) && s.held == {}
    ensures Reachable(g, Started(s, p, b))
  {
    var s1 := Apply(g, s, Load(b));
    Step(g, s, Load(b));
    Step(g, s1, Modify(p, b, [1]));
    assert Apply(g, s1, Modify(p, b, [1])).cache == Started(s, p, b).cache;
  }

  function Tested(s: State, p: nat): State
    requires p < |s.procs| && s.procs[p].Writing?
  {
    s.(procs := s.procs[p := s.procs[p].(checked := true)])
  }

  lemma Test(g: Geometry, s: State, p: nat)
    requires Reachable(g, s) && s.mode == Running && p < |s.procs| && s.procs[p].Writing? && !s.procs[p].checked
    requires !LogFull(g, s) && s.outstanding >= 1
    ensures Reachable(g, Tested(s, p))
  {
    Step(g, s, Check(p));
  }

  function Appended(s: State, p: nat): State
    requires p < |s.procs| && s.procs[p].Writing?
  {
    var b := s.procs[p].b;
    s.(lh := s.lh + [b], cache := s.cache[b := Buf(Written(), true)],
       procs := s.procs[p := Op(s.procs[p].blocks + {b})])
  }

  lemma Pin(g: Geometry, s: State, p: nat)
    requires Reachable(g, s) && s.mode == Running && p < |s.procs| && s.procs[p].Writing? && s.procs[p].checked
    requires s.procs[p].b in s.cache && s.cache[s.procs[p].b] == Buf(Written(), false) && s.procs[p].b !in s.lh
    ensures Reachable(g, Appended(s, p))
  {
    Step(g, s, Append(p));
  }

  /** What holds of the state with k blocks logged, and of a further target i. */
  lemma FilledIs(g: Geometry, k: nat, p: nat, i: nat)
    requires g.size >= 1 && k <= i < LOGSIZE && p < 3 && Turns(p, k) < MAXOPBLOCKS
    ensures var s, b := Filled(g, k), Target(g, i);
      && b in s.disk && !g.InLog(b) && b !in s.cache && b !in s.lh && |s.cache.Keys| == k && |s.lh| == k
      && |Own(g, p, k) + {b}| <= MAXOPBLOCKS
  {
    OwnSize(g, p, k);
    PinsDomain(g, k);
    FreshAt(g);
    SubsetSize(Own(g, p, k), Target(g, i));
  }

  lemma NoWriters(g: Geometry, k: nat, b: nat)
    ensures !BeingWritten(Filled(g, k).procs, b)
  {
  }

  /** In every geometry that lets an operation log a block there is a run in which another
      operation begins when the first has logged one and is still inside. */
  lemma BeginsBesideLogged(g: Geometry) returns (s: State)
    requires g.size >= 2 && g.nbuf >= 1
    ensures Reachable(g, s) && |s.lh| == 1 && s.procs == [Op({s.lh[0]}), Idle, Idle]
    ensures Enabled(g, s, BeginOp(1)) && Apply(g, s, BeginOp(1)).procs == [Op({s.lh[0]}), Op({}), Idle]
  {
    Idles(g);
    FreshAt(g);
    var b, s0 := Target(g, 0), IdleMachine(g).(outstanding := 1, procs := [Op({}), Idle, Idle]);
    Step(g, IdleMachine(g), BeginOp(0));
    assert Apply(g, IdleMachine(g), BeginOp(0)) == s0;
    LogOne(g, s0, 0, b);
    s := Appended(Tested(Started(s0, 0, b), 0), 0);
    assert s.procs == [Op({b}), Idle, Idle] && s.lh == [b];
  }

  /** Process p may read block b and modify it. */
  predicate MayStart(g: Geometry, s: State, p: nat, b: nat) {
    && s.mode == Running && p < |s.procs| && s.procs[p].Op? && |s.procs[p].blocks + {b}| <= MAXOPBLOCKS
    && b in s.disk && !g.InLog(b) && b !in s.cache && b !in s.lh && s.held == {}
  }

  /** One operation reads a block, modifies it and logs it. */
  lemma LogOne(g: Geometry, s: State, p: nat, b: nat)
    requires Reachable(g, s) && MayStart(g, s, p, b) && |s.cache.Keys| < g.nbuf && !BeingWritten(s.procs, b)
    requires !LogFull(g, s) && s.outstanding >= 1
    ensures Reachable(g, Appended(Tested(Started(s, p, b), p), p))
  {
    Start(g, s, p, b);
    Test(g, Started(s, p, b), p);
    Pin(g, Tested(Started(s, p, b), p), p);
  }

  lemma OneFilled(g: Geometry, k: nat, p: nat)
    requires p == k % 3
    ensures Appended(Tested(Started(Filled(g, k), p, Target(g, k)), p), p) == Filled(g, k + 1)
  {
    var s := Appended(Tested(Started(Filled(g, k), p, Target(g, k)), p), p);
    assert s.cache == Filled(g, k + 1).cache;
    assert s.procs == Filled(g, k + 1).procs;
  }

  /** One operation logs its next target. */
  lemma LogNext(g: Geometry, k: nat)
    requires k < LOGSIZE && k + 1 < g.size && k < g.nbuf && Reachable(g, Filled(g, k))
    ensures Reachable(g, Filled(g, k + 1))
  {
    var p, s, b := k % 3, Filled(g, k), Target(g, k);
    FilledIs(g, k, p, k);
    NoWriters(g, k, b);
    LogOne(g, s, p, b);
    OneFilled(g, k, p);
  }

  lemma {:induction false} Fill(g: Geometry, k: nat)
    requires g.size >= 1 && g.nbuf >= 1 && k <= LOGSIZE && k < g.size && k <= g.nbuf
    ensures Reachable(g, Filled(g, k))
  {
    if k == 0 {
      Boot(g);
    } else {
      Fill(g, k - 1);
      LogNext(g, k - 1);
    }
  }

  /** Two operations read and modify a block each. */
  lemma StartTwo(g: Geometry, s: State, p: nat, b: nat, q: nat, c: nat)
    requires Reachable(g, s) && MayStart(g, s, p, b) && MayStart(g, s, q, c) && p != q && b != c
    requires |s.cache.Keys| + 2 <= g.nbuf && !BeingWritten(s.procs, b) && !BeingWritten(s.procs, c)
    ensures Reachable(g, Started(Started(s, p, b), q, c))
  {
    var s1 := Started(s, p, b);
    Start(g, s, p, b);
    assert s1.cache.Keys == s.cache.Keys + {b};
    assert !BeingWritten(s1.procs, c);
    Start(g, s1, q, c);
  }

  /** The state after both have passed the size test before either appends. */
  function BothLogged(s: State, p: nat, q: nat): State
    requires p < |s.procs| && q < |s.procs| && p != q && s.procs[p].Writing? && s.procs[q].Writing?
  {
    Appended(Appended(Tested(Tested(s, p), q), p), q)
  }

  lemma TwoLogged(g: Geometry, s: State, p: nat, b: nat, q: nat, c: nat)
    requires Reachable(g, s) && s.mode == Running && p < |s.procs| && q < |s.procs| && p != q && b != c
    requires s.procs[p].Writing? && s.procs[p].b == b && !s.procs[p].checked
    requires s.procs[q].Writing? && s.procs[q].b == c && !s.procs[q].checked
    requires b in s.cache && s.cache[b] == Buf(Written(), false) && c in s.cache && s.cache[c] == Buf(Written(), false)
    requires b !in s.lh && c !in s.lh && !LogFull(g, s) && s.outstanding >= 1
    ensures Reachable(g, BothLogged(s, p, q))
  {
    var s1 := Tested(s, p);
    Test(g, s, p);
    var s2 := Tested(s1, q);
    Test(g, s1, q);
    Pin(g, s2, p);
    Pin(g, Appended(s2, p), q);
  }

  lemma LogTwo(g: Geometry, s: State, p: nat, b: nat, q: nat, c: nat)
    requires Reachable(g, s) && MayStart(g, s, p, b) && MayStart(g, s, q, c) && p != q && b != c
    requires |s.cache.Keys| + 2 <= g.nbuf && !BeingWritten(s.procs, b) && !BeingWritten(s.procs, c)
    requires !LogFull(g, s) && s.outstanding >= 1
    ensures Reachable(g, BothLogged(Started(Started(s, p, b), q, c), p, q))
  {
    StartTwo(g, s, p, b, q, c);
    TwoLogged(g, Started(Started(s, p, b), q, c), p, b, q, c);
  }

  /** In a log of at most LOGSIZE blocks, with a cache that can pin as many, two operations
      can both pass the unlocked test for the last slot, and the second append leaves the
      log. */
  lemma Overflow(g: Geometry) returns (s: State)
    requires 2 <= g.size <= LOGSIZE && g.nbuf >= g.size
    ensures s == Filled(g, g.size) && Reachable(g, s) && s.mode == Running && |s.lh| == g.size
  {
    var k := g.size - 2;
    Fill(g, k);
    TurnsLeft(k);
    LogLastTwo(g, k, k % 3, (k + 1) % 3);
    s := Filled(g, g.size);
  }

  lemma TurnsLeft(k: nat)
    requires k + 2 <= LOGSIZE
    ensures k % 3 != (k + 1) % 3 && Turns(k % 3, k) < MAXOPBLOCKS && Turns((k + 1) % 3, k) < MAXOPBLOCKS
  {
  }

  lemma LogLastTwo(g: Geometry, k: nat, p: nat, q: nat)
    requires k + 2 == g.size <= LOGSIZE && g.nbuf >= g.size && Reachable(g, Filled(g, k))
    requires p == k % 3 && q == (k + 1) % 3 && p != q && Turns(p, k) < MAXOPBLOCKS && Turns(q, k) < MAXOPBLOCKS
    ensures Reachable(g, Filled(g, k + 2))
  {
    PinsDomain(g, k);
    NoWriters(g, k, Target(g, k));
    NoWriters(g, k, Target(g, k + 1));
    FilledStart(g, k, p, k);
    FilledStart(g, k, q, k + 1);
    LogTwo(g, Filled(g, k), p, Target(g, k), q, Target(g, k + 1));
    TwoFilled(g, k, p, q);
  }

  lemma TwoFilled(g: Geometry, k: nat, p: nat, q: nat)
    requires p == k % 3 && q == (k + 1) % 3 && p != q
    ensures BothLogged(Started(Started(Filled(g, k), p, Target(g, k)), q, Target(g, k + 1)), p, q) == Filled(g, k + 2)
  {
    var b, c := Target(g, k), Target(g, k + 1);
    var s := BothLogged(Started(Started(Filled(g, k), p, b), q, c), p, q);
    TwoPinned(Pins(g, k), b, c);
    assert Pins(g, k + 1) == Pins(g, k)[b := Buf(Written(), true)];
    assert Pins(g, k + 2) == Pins(g, k + 1)[c := Buf(Written(), true)];
    assert Targets(g, k + 1) == Targets(g, k) + [b];
    assert Targets(g, k + 2) == Targets(g, k + 1) + [c];
    TwoOwned(g, k, p, q);
    assert s.procs == Filled(g, k).procs[p := Op(Own(g, p, k) + {b})][q := Op(Own(g, q, k) + {c})];
  }

  lemma TwoPinned(m: map<nat, Buf>, b: nat, c: nat)
    requires b != c
    ensures var u, v := Buf(Written(), false), Buf(Written(), true);
      m[b := u][c := u][b := v][c := v] == m[b := v][c := v]
  {
  }

  lemma TwoOwned(g: Geometry, k: nat, p: nat, q: nat)
    requires p == k % 3 && q == (k + 1) % 3 && p != q
    ensures Filled(g, k).procs[p := Op(Own(g, p, k) + {Target(g, k)})][q := Op(Own(g, q, k) + {Target(g, k + 1)})]
         == Filled(g, k + 2).procs
  {
    forall j | 0 <= j < 3
      ensures Own(g, j, k + 1) == if j == p then Own(g, j, k) + {Target(g, k)} else Own(g, j, k)
      ensures Own(g, j, k + 2) == if j == q then Own(g, j, k + 1) + {Target(g, k + 1)} else Own(g, j, k + 1)
    {
    }
  }

  lemma FilledStart(g: Geometry, k: nat, p: nat, i: nat)
    requires g.size >= 1 && k <= i < LOGSIZE && p < 3 && Turns(p, k) < MAXOPBLOCKS
    ensures MayStart(g, Filled(g, k), p, Target(g, i))
  {
    FilledIs(g, k, p, i);
  }

  /** The transaction always fits in the log, leaving room for the header, exactly when
      the superblock gives the log more than LOGSIZE blocks, or the cache cannot pin as many
      blocks as the log has, or the log has no block for a transaction at all. */
  lemma LogFitsIff(g: Geometry)
    ensures (forall run: seq<State>, steps: seq<Step>, k: nat :: IsRun(g, run, steps) && k < |run| ==>
      |run[k].lh| < g.size)
            <==> g.size > LOGSIZE || g.nbuf < g.size || g.size <= 1
  {
    if g.size > LOGSIZE || g.nbuf < g.size || g.size <= 1 {
      forall run: seq<State>, steps: seq<Step>, k: nat | IsRun(g, run, steps) && k < |run|
        ensures |run[k].lh| < g.size
      {
        RunInv(g, run, steps, k);
      }
    } else {
      var s := Overflow(g);
      var run, steps :| IsRun(g, run, steps) && run[|run| - 1] == s;
      assert 0 <= |run| - 1 < |run|;
    }
  }

  /** However large the log, when the cache can pin LOGSIZE blocks, three operations of ten
      blocks each fill it, and a further `log_write` of a block that is already logged then
      panics instead of being absorbed. */
  lemma RewriteOfFullLogPanics(g: Geometry) returns (s: State, b: nat)
    requires g.size > LOGSIZE && g.nbuf >= LOGSIZE
    ensures Reachable(g, s) && b in s.lh && Enabled(g, s, Modify(0, b, []))
    ensures var s1 := Apply(g, s, Modify(0, b, [])); Enabled(g, s1, Check(0)) && Apply(g, s1, Check(0)).mode == Panicked
  {
    s, b := Filled(g, LOGSIZE), Target(g, 0);
    Fill(g, LOGSIZE);
    OwnSize(g, 0, LOGSIZE);
    PinsDomain(g, LOGSIZE);
    assert s.lh[0] == b;
    OwnFirst(g, LOGSIZE);
    assert Own(g, 0, LOGSIZE) + {b} == Own(g, 0, LOGSIZE);
  }

  lemma {:induction false} OwnFirst(g: Geometry, k: nat)
    requires k > 0
    ensures Target(g, 0) in Own(g, 0, k)
  {
    if k > 1 {
      OwnFirst(g, k - 1);
    }
  }

  // ---------------------------------------------------------------- buffers

  /** All three operations have ended; the last one is about to commit k blocks. */
  function Ending(g: Geometry, k: nat): State {
    Filled(g, k).(outstanding := 0, committing := true, procs := [Idle, Idle, Committer(WriteLog(0))])
  }

  lemma AllEnd(g: Geometry, k: nat)
    requires k > 0 && Reachable(g, Filled(g, k))
    ensures Reachable(g, Ending(g, k))
  {
    var s0 := Filled(g, k);
    var s1 := s0.(outstanding := 2, procs := [Idle, s0.procs[1], s0.procs[2]]);
    Step(g, s0, EndOp(0));
    assert Apply(g, s0, EndOp(0)) == s1;
    var s2 := s1.(outstanding := 1, procs := [Idle, Idle, s0.procs[2]]);
    Step(g, s1, EndOp(1));
    assert Apply(g, s1, EndOp(1)) == s2;
    Step(g, s2, EndOp(2));
    assert Apply(g, s2, EndOp(2)).procs == [Idle, Idle, Committer(WriteLog(0))];
  }

  /** Readers have brought in the blocks of `bs` and hold their buffers. */
  function Taken(s: State, bs: seq<nat>): State
    requires forall b :: b in bs ==> b in s.disk
  {
    if bs == [] then s
    else
      var b, t := bs[|bs| - 1], Taken(s, bs[..|bs| - 1]);
      t.(cache := t.cache[b := Buf(s.disk[b], false)], held := t.held + {b})
  }

  /** The blocks of `bs` are there to be read and buffers and hands for them are free. */
  ghost predicate Holdable(g: Geometry, s: State, bs: seq<nat>) {
    && s.mode == Running && s.held == {} && |s.cache.Keys| + |bs| <= g.nbuf && |bs| <= g.hands
    && (forall b :: b in bs ==> b in s.disk && b !in s.cache && !BeingWritten(s.procs, b))
    && (forall i, j :: 0 <= i < j < |bs| ==> bs[i] != bs[j])
  }

  lemma {:induction false} TakenHeld(s: State, bs: seq<nat>)
    requires s.held == {} && forall b :: b in bs ==> b in s.disk && b !in s.cache
    ensures var t := Taken(s, bs);
      && t == s.(cache := t.cache, held := Elems(bs))
      && t.cache.Keys == s.cache.Keys + Elems(bs) && (forall b :: b in s.cache ==> t.cache[b] == s.cache[b])
  {
    if bs != [] {
      var n := |bs| - 1;
      TakenHeld(s, bs[..n]);
      assert Elems(bs) == Elems(bs[..n]) + {bs[n]};
      assert Taken(s, bs).cache.Keys == Taken(s, bs[..n]).cache.Keys + {bs[n]};
    }
  }

  lemma {:induction false} ElemsCount(bs: seq<nat>)
    requires forall i, j :: 0 <= i < j < |bs| ==> bs[i] != bs[j]
    ensures |Elems(bs)| == |bs|
  {
    if bs != [] {
      var n := |bs| - 1;
      ElemsCount(bs[..n]);
      assert Elems(bs) == Elems(bs[..n]) + {bs[n]};
    }
  }

  lemma TakenIs(g: Geometry, s: State, bs: seq<nat>)
    requires Holdable(g, s, bs)
    ensures var t := Taken(s, bs);
      && t == s.(cache := t.cache, held := Elems(bs))
      && t.cache.Keys == s.cache.Keys + Elems(bs) && (forall b :: b in s.cache ==> t.cache[b] == s.cache[b])
      && |Elems(bs)| == |bs| && |t.cache.Keys| == |s.cache.Keys| + |bs|
  {
    TakenHeld(s, bs);
    ElemsCount(bs);
    assert s.cache.Keys !! Elems(bs);
  }

  lemma {:induction false} Take(g: Geometry, s: State, bs: seq<nat>)
    requires Reachable(g, s) && Holdable(g, s, bs)
    ensures Reachable(g, Taken(s, bs))
  {
    if bs != [] {
      var n := |bs| - 1;
      HoldableLess(g, s, bs, bs[..n]);
      Take(g, s, bs[..n]);
      TakeNext(g, s, bs, Taken(s, bs[..n]));
    }
  }

  lemma TakeNext(g: Geometry, s: State, bs: seq<nat>, t: State)
    requires Holdable(g, s, bs) && bs != [] && t == Taken(s, bs[..|bs| - 1]) && Reachable(g, t)
    ensures Reachable(g, Taken(s, bs))
  {
    NextFree(g, s, bs, t);
    HoldNew(g, t, bs[|bs| - 1]);
  }

  lemma NextFree(g: Geometry, s: State, bs: seq<nat>, t: State)
    requires Holdable(g, s, bs) && bs != [] && t == Taken(s, bs[..|bs| - 1])
    ensures t == s.(cache := t.cache, held := t.held) && HandFree(g, t) && |t.cache.Keys| < g.nbuf
    ensures bs[|bs| - 1] !in t.cache && bs[|bs| - 1] !in t.held
  {
    var few := bs[..|bs| - 1];
    HoldableLess(g, s, bs, few);
    TakenIs(g, s, few);
    assert bs[|bs| - 1] !in Elems(few);
  }

  lemma HoldableLess(g: Geometry, s: State, bs: seq<nat>, few: seq<nat>)
    requires Holdable(g, s, bs) && few <= bs
    ensures Holdable(g, s, few)
  {
    assert forall b :: b in few ==> b in bs;
  }

  /** A process reads a block and holds its buffer. */
  lemma HoldNew(g: Geometry, s: State, b: nat)
    requires Reachable(g, s) && s.mode == Running && HandFree(g, s) && |s.cache.Keys| < g.nbuf
    requires b in s.disk && b !in s.cache && b !in s.held && !BeingWritten(s.procs, b)
    ensures Reachable(g, s.(cache := s.cache[b := Buf(s.disk[b], false)], held := s.held + {b}))
  {
    Step(g, s, Load(b));
    Step(g, Apply(g, s, Load(b)), Hold(b));
  }

  /** n home blocks after the first k targets. */
  function Further(g: Geometry, k: nat, n: nat): (bs: seq<nat>)
    ensures |bs| == n && forall i :: 0 <= i < n ==> bs[i] == Target(g, k + i)
  {
    if n == 0 then [] else Further(g, k, n - 1) + [Target(g, k + n - 1)]
  }

  lemma Ends(g: Geometry, k: nat)
    requires 0 < k <= g.size && g.size >= 2 && k <= LOGSIZE && k <= g.nbuf
    ensures Reachable(g, Ending(g, k)) && |Ending(g, k).cache.Keys| == k
    ensures forall b :: b in Ending(g, k).cache ==> Ending(g, k).cache[b].dirty && !g.InLog(b)
  {
    if k == g.size {
      var s := Overflow(g);
    } else {
      Fill(g, k);
    }
    AllEnd(g, k);
    PinsDomain(g, k);
  }

  /** Home blocks beyond those pinned can be held, as many as there are buffers and hands. */
  lemma MoreHoldable(g: Geometry, k: nat, n: nat)
    requires k <= LOGSIZE && n < g.hands && k + n <= g.nbuf
    ensures Holdable(g, Ending(g, k), Further(g, k, n))
  {
    PinsDomain(g, k);
    FreshAt(g);
  }

  /** When the pinned buffers and those taken are all there are, the read of another block
      panics. */
  lemma AllGone(g: Geometry, s: State, bs: seq<nat>, b: nat)
    requires Holdable(g, s, bs) && |s.cache.Keys| + |bs| == g.nbuf && |bs| < g.hands
    requires forall c :: c in s.cache ==> s.cache[c].dirty
    requires b in s.disk && b !in s.cache && b !in bs
    ensures var t := Taken(s, bs); HandFree(g, t) && Enabled(g, t, Load(b)) && Apply(g, t, Load(b)).mode == Panicked
  {
    TakenIs(g, s, bs);
  }

  /** With a buffer less than one for each of LOGSIZE blocks and each hand, three operations
      and some readers can take them all; then the first read of the commit panics. */
  lemma CommitPanics(g: Geometry) returns (s: State)
    requires Roomy(g) && g.size >= 2 && 1 <= g.nbuf < LOGSIZE + g.hands
    ensures Reachable(g, s) && s.mode == Running && |s.procs| == 3 && s.procs[2] == Committer(WriteLog(0))
    ensures HandFree(g, s) && Enabled(g, s, Load(g.Slot(0))) && Apply(g, s, Load(g.Slot(0))).mode == Panicked
  {
    s := CommitStops(g, if g.nbuf < LOGSIZE then g.nbuf else LOGSIZE);
  }

  lemma CommitStops(g: Geometry, k: nat) returns (s: State)
    requires g.size >= 2 && 0 < k <= g.size && k <= LOGSIZE && k <= g.nbuf < k + g.hands
    ensures Reachable(g, s) && s.mode == Running && |s.procs| == 3 && s.procs[2] == Committer(WriteLog(0))
    ensures HandFree(g, s) && Enabled(g, s, Load(g.Slot(0))) && Apply(g, s, Load(g.Slot(0))).mode == Panicked
  {
    var bs := Further(g, k, g.nbuf - k);
    Ends(g, k);
    MoreHoldable(g, k, g.nbuf - k);
    Take(g, Ending(g, k), bs);
    s := Taken(Ending(g, k), bs);
    SlotFree(g, k);
    SlotStarves(g, Ending(g, k), bs);
  }

  lemma SlotStarves(g: Geometry, s: State, bs: seq<nat>)
    requires Holdable(g, s, bs) && |s.cache.Keys| + |bs| == g.nbuf && |bs| < g.hands
    requires forall c :: c in s.cache ==> s.cache[c].dirty
    requires g.Slot(0) in s.disk && g.Slot(0) !in s.cache && g.InLog(g.Slot(0)) && forall b :: b in bs ==> !g.InLog(b)
    ensures var t := Taken(s, bs);
      && t.mode == s.mode && t.procs == s.procs && HandFree(g, t)
      && Enabled(g, t, Load(g.Slot(0))) && Apply(g, t, Load(g.Slot(0))).mode == Panicked
  {
    TakenIs(g, s, bs);
    AllGone(g, s, bs, g.Slot(0));
  }

  lemma SlotFree(g: Geometry, k: nat)
    requires g.size > 1
    ensures g.Slot(0) in Ending(g, k).disk && g.Slot(0) !in Ending(g, k).cache && g.InLog(g.Slot(0))
  {
    PinsDomain(g, k);
    FreshAt(g);
  }

  /** The first log block and further home blocks. */
  function SlotAndMore(g: Geometry, n: nat): (bs: seq<nat>)
    requires n > 0
    ensures |bs| == n && bs[0] == g.Slot(0)
  {
    [g.Slot(0)] + Further(g, LOGSIZE, n - 1)
  }

  lemma SlotHoldable(g: Geometry, n: nat)
    requires g.size > LOGSIZE && 0 < n < g.hands && LOGSIZE + n <= g.nbuf
    ensures Holdable(g, Ending(g, LOGSIZE), SlotAndMore(g, n))
    ensures var b := Target(g, LOGSIZE + n);
      b in Ending(g, LOGSIZE).disk && b !in Ending(g, LOGSIZE).cache && b !in SlotAndMore(g, n)
  {
    PinsDomain(g, LOGSIZE);
    FreshAt(g);
    assert SlotAndMore(g, n)[1..] == Further(g, LOGSIZE, n - 1);
  }

  /** With more buffers than LOGSIZE and less than that, the commit can begin; but while it
      holds the buffer of its first log block the read of another process panics. */
  lemma ReadPanicsDuringCommit(g: Geometry) returns (s: State, b: nat)
    requires g.size > LOGSIZE && LOGSIZE < g.nbuf < LOGSIZE + g.hands
    ensures Reachable(g, s) && g.Slot(0) in s.held && Enabled(g, s, Commit(2)) && !IsCommitPoint(s, Commit(2))
    ensures !g.InLog(b) && Enabled(g, s, Load(b)) && Apply(g, s, Load(b)).mode == Panicked
  {
    var n, s0 := g.nbuf - LOGSIZE, Ending(g, LOGSIZE);
    var bs := SlotAndMore(g, n);
    Ends(g, LOGSIZE);
    SlotHoldable(g, n);
    Take(g, s0, bs);
    s, b := Taken(s0, bs), Target(g, LOGSIZE + n);
    AllGone(g, s0, bs, b);
    FirstCopy(g, s0, bs);
  }

  /** The commit goes on once its first log block is held. */
  lemma FirstCopy(g: Geometry, s: State, bs: seq<nat>)
    requires s == Ending(g, LOGSIZE) && Holdable(g, s, bs) && bs != [] && bs[0] == g.Slot(0)
    ensures var t := Taken(s, bs); g.Slot(0) in t.held && Enabled(g, t, Commit(2)) && !IsCommitPoint(t, Commit(2))
  {
    TakenIs(g, s, bs);
    PinsDomain(g, LOGSIZE);
    assert s.lh[0] == Target(g, 0);
    assert bs[0] in Elems(bs);
  }

  predicate Commits(s: State, p: nat) {
    s.mode == Running && p < |s.procs| && s.procs[p].Committer?
  }

  /** In every state of every run a process that commits and may take a buffer can go on with
      its commit, after some reads, exactly when the cache has a buffer for each of LOGSIZE
      blocks and each hand, or none at all, so that no commit ever begins. */
  lemma CommitsGoOnIff(g: Geometry)
    requires Roomy(g) && g.size >= 2
    ensures (forall run: seq<State>, steps: seq<Step>, k: nat, p: nat ::
        IsRun(g, run, steps) && k < |run| && Commits(run[k], p) && HandFree(g, run[k]) ==> CanCommit(g, run[k], p))
      <==> g.nbuf >= LOGSIZE + g.hands || g.nbuf == 0
  {
    if g.nbuf >= LOGSIZE + g.hands || g.nbuf == 0 {
      forall run: seq<State>, steps: seq<Step>, k: nat, p: nat
        | IsRun(g, run, steps) && k < |run| && Commits(run[k], p) && HandFree(g, run[k])
        ensures CanCommit(g, run[k], p)
      {
        CommitGoes(g, run, steps, k, p);
      }
    } else {
      var s := CommitPanics(g);
      var run, steps :| IsRun(g, run, steps) && run[|run| - 1] == s;
      RunInv(g, run, steps, |run| - 1);
      CommitStuck(g, s, 2);
      assert Commits(run[|run| - 1], 2);
    }
  }

  lemma CommitGoes(g: Geometry, run: seq<State>, steps: seq<Step>, k: nat, p: nat)
    requires Roomy(g) && IsRun(g, run, steps) && k < |run| && Commits(run[k], p) && HandFree(g, run[k])
    requires g.nbuf >= LOGSIZE + g.hands || g.nbuf == 0
    ensures CanCommit(g, run[k], p)
  {
    CommitNeverStuck(g, run, steps, k, p);
    if g.nbuf == 0 {
      RunInv(g, run, steps, k);
      NoCommit(g, run[k], p);
    }
  }

  lemma NoCommit(g: Geometry, s: State, p: nat)
    requires Inv(g, s) && Commits(s, p) && g.nbuf == 0
    ensures s.procs[p].pc == Finish
  {
    CommitAlone(g, s, p);
    if s.procs[p].pc == WriteLog(0) {
      PinnedSize(s.lh, s.cache.Keys);
    }
  }

  /** Step k of a run is a read that panics. */
  predicate ReadPanics(run: seq<State>, steps: seq<Step>, k: nat) {
    k < |steps| && k + 1 < |run| && steps[k].Load? && run[k + 1].mode == Panicked
  }

  /** No read of any run, by an operation, a commit, recovery or any other process, panics for
      want of a buffer, exactly when the cache has one for each of LOGSIZE blocks and each
      hand. */
  lemma ReadsSafeIff(g: Geometry)
    requires Roomy(g) && g.size >= 2
    ensures (forall run: seq<State>, steps: seq<Step>, k: nat :: IsRun(g, run, steps) ==> !ReadPanics(run, steps, k))
      <==> g.nbuf >= LOGSIZE + g.hands
  {
    if g.nbuf >= LOGSIZE + g.hands {
      forall run: seq<State>, steps: seq<Step>, k: nat | IsRun(g, run, steps) ensures !ReadPanics(run, steps, k) {
        if k < |steps| && steps[k].Load? {
          ReadsNeverPanic(g, run, steps, k);
        }
      }
    } else {
      var run, steps := PanickingRead(g);
      assert ReadPanics(run, steps, |steps| - 1);
    }
  }

  lemma PanickingRead(g: Geometry) returns (run: seq<State>, steps: seq<Step>)
    requires Roomy(g) && g.size >= 2 && g.nbuf < LOGSIZE + g.hands
    ensures IsRun(g, run, steps) && |steps| > 0 && ReadPanics(run, steps, |steps| - 1)
  {
    if g.nbuf == 0 {
      run, steps := BootPanics(g);
    } else {
      var s := CommitPanics(g);
      run, steps := PanicsAt(g, s, g.Slot(0));
    }
  }

  lemma BootPanics(g: Geometry) returns (run: seq<State>, steps: seq<Step>)
    requires g.size >= 1 && g.nbuf == 0
    ensures IsRun(g, run, steps) && |steps| > 0 && ReadPanics(run, steps, |steps| - 1)
  {
    BootedReachable(g);
    FreshAt(g);
    run, steps := PanicsAt(g, Booted(g), g.start);
  }

  lemma PanicsAt(g: Geometry, s: State, b: nat) returns (run: seq<State>, steps: seq<Step>)
    requires Reachable(g, s) && Enabled(g, s, Load(b)) && Apply(g, s, Load(b)).mode == Panicked
    ensures IsRun(g, run, steps) && |steps| > 0 && ReadPanics(run, steps, |steps| - 1)
  {
    run, steps := Extend(g, s, Load(b));
  }

  // ---------------------------------------------------------------- crash atomicity

  /** A crash in state k restores what the cache showed at the last commit point, or what the
      first boot recovered if there was none. */
  ghost predicate CrashAtomic(g: Geometry, run: seq<State>, steps: seq<Step>, k: nat)
    requires k < |run| == |steps| + 1 && DiskOk(g, run[0].disk)
  {
    var c := LastCommit(run, steps, k);
    && DiskOk(g, run[k].disk)
    && if c == 0 then Home(g, Recovered(g, run[k].disk)) == Home(g, Recovered(g, run[0].disk))
       else
         && run[c - 1].cache.Keys <= run[c - 1].disk.Keys
         && Home(g, Recovered(g, run[k].disk)) == View(g, run[c - 1])
  }

  lemma RoomyAtomic(g: Geometry, run: seq<State>, steps: seq<Step>, k: nat)
    requires Roomy(g) && IsRun(g, run, steps) && k < |run|
    ensures CrashAtomic(g, run, steps, k)
  {
    CrashAtomicity(g, run, steps, k);
    var c := LastCommit(run, steps, k);
    if c > 0 {
      RunInv(g, run, steps, c - 1);
    }
  }

  /** The disk after i blocks of `write_log`. */
  function Copies(g: Geometry, i: nat): Disk {
    if i == 0 then FreshDisk(g) else Copies(g, i - 1)[g.Slot(i - 1) := Written()]
  }

  lemma {:induction false} CopiesAt(g: Geometry, i: nat)
    requires i < g.size
    ensures forall b: nat :: b in Copies(g, i) <==> b < Target(g, LOGSIZE + g.hands)
    ensures forall b: nat :: b < Target(g, LOGSIZE + g.hands) && (b <= g.start || b >= g.Slot(i)) ==>
      Copies(g, i)[b] == if b == g.start then EmptyHead() else Data([])
  {
    FreshAt(g);
    if i > 0 {
      CopiesAt(g, i - 1);
    }
  }

  /** The commit of `size` blocks has copied the first i of them. */
  function Copying(g: Geometry, i: nat): State {
    Ending(g, g.size).(disk := Copies(g, i), procs := [Idle, Idle, Committer(WriteLog(i))])
  }

  /** The commit copies one more block and the buffer of its log block is given up. */
  lemma CopyBlock(g: Geometry, s: State, i: nat)
    requires Reachable(g, s) && s.mode == Running && s.procs == [Idle, Idle, Committer(WriteLog(i))] && s.held == {}
    requires i + 1 < |s.lh| && s.lh[i] in s.cache && s.cache[s.lh[i]].data == Written()
    requires g.Slot(i) in s.disk && g.Slot(i) !in s.cache && |s.cache.Keys| < g.nbuf
    ensures Reachable(g, s.(disk := s.disk[g.Slot(i) := Written()], procs := [Idle, Idle, Committer(WriteLog(i + 1))]))
  {
    var b := g.Slot(i);
    var s1 := s.(cache := s.cache[b := Buf(s.disk[b], false)]);
    Step(g, s, Load(b));
    var s2 := CopyDone(g, s1, i);
    Step(g, s2, Evict(b));
    assert s2.cache - {b} == s.cache;
  }

  lemma CopyDone(g: Geometry, s: State, i: nat) returns (s': State)
    requires Reachable(g, s) && s.mode == Running && s.procs == [Idle, Idle, Committer(WriteLog(i))]
    requires i + 1 < |s.lh| && s.lh[i] in s.cache && s.cache[s.lh[i]].data == Written() && g.Slot(i) in s.cache
    ensures s' == BWrite(s, g.Slot(i), Written()).(procs := [Idle, Idle, Committer(WriteLog(i + 1))])
    ensures Reachable(g, s')
  {
    Step(g, s, Commit(2));
    s' := Apply(g, s, Commit(2));
    assert s'.procs == [Idle, Idle, Committer(WriteLog(i + 1))];
  }

  lemma CopyOne(g: Geometry, i: nat)
    requires 2 <= g.size <= LOGSIZE && g.nbuf > g.size && i + 1 < g.size && Reachable(g, Copying(g, i))
    ensures Reachable(g, Copying(g, i + 1))
  {
    PinsDomain(g, g.size);
    CopiesAt(g, i);
    PinsWritten(g, g.size, i);
    CopyBlock(g, Copying(g, i), i);
  }

  lemma {:induction false} PinsWritten(g: Geometry, k: nat, i: nat)
    requires i < k
    ensures Target(g, i) in Pins(g, k) && Pins(g, k)[Target(g, i)] == Buf(Written(), true)
  {
    if i < k - 1 {
      PinsWritten(g, k - 1, i);
    }
  }

  lemma {:induction false} Copy(g: Geometry, i: nat)
    requires 2 <= g.size <= LOGSIZE && g.nbuf > g.size && i < g.size
    ensures Reachable(g, Copying(g, i))
  {
    if i == 0 {
      var s := Overflow(g);
      AllEnd(g, g.size);
    } else {
      Copy(g, i - 1);
      CopyOne(g, i - 1);
    }
  }

  /** The last block of a transaction that has outgrown the log is copied to the first home
      block after it: a write that commits nothing and that a crash does not undo. */
  lemma WritesPastLog(g: Geometry) returns (s: State, s': State)
    requires 2 <= g.size <= LOGSIZE && g.nbuf > g.size
    ensures Reachable(g, s) && Enabled(g, s, Commit(2)) && !IsCommitPoint(s, Commit(2)) && s' == Apply(g, s, Commit(2))
    ensures !g.InLog(g.Slot(g.size - 1)) && s'.disk == s.disk[g.Slot(g.size - 1) := Written()]
    ensures Differ(g, s.disk, s'.disk)
  {
    s := Copying(g, g.size - 1);
    Copy(g, g.size - 1);
    LastCopy(g, s);
    s' := Apply(g, s, Commit(2));
    LastCopyCounts(g);
  }

  lemma LastCopy(g: Geometry, s: State)
    requires 2 <= g.size && s == Copying(g, g.size - 1)
    ensures Enabled(g, s, Commit(2)) && Apply(g, s, Commit(2)).disk == s.disk[g.Slot(g.size - 1) := Written()]
  {
    PinsWritten(g, g.size, 0);
    PinsWritten(g, g.size, g.size - 1);
  }

  lemma LastCopyCounts(g: Geometry)
    requires 2 <= g.size <= LOGSIZE
    ensures Differ(g, Copies(g, g.size - 1), Copies(g, g.size - 1)[g.Slot(g.size - 1) := Written()])
  {
    CopiesAt(g, g.size - 1);
    HomeChanges(g, Copies(g, g.size - 1), g.Slot(g.size - 1), Written());
  }

  /** A crash restores different contents from these disks. */
  ghost predicate Differ(g: Geometry, d: Disk, d': Disk) {
    DiskOk(g, d) && DiskOk(g, d') && Home(g, Recovered(g, d)) != Home(g, Recovered(g, d'))
  }

  /** With an empty header every write to a home block counts. */
  lemma HomeChanges(g: Geometry, d: Disk, b: nat, x: Sector)
    requires HasHead(g, d) && d[g.start].n == 0 && b in d && !g.InLog(b) && d[b] != x
    requires forall c :: g.InLog(c) ==> c in d
    ensures Differ(g, d, d[b := x])
  {
    assert Logged(g, d) == [];
    assert Logged(g, d[b := x]) == [];
    NothingLogged(g, d);
    NothingLogged(g, d[b := x]);
    assert Home(g, d)[b] != Home(g, d[b := x])[b];
  }

  /** Every state of every run is crash-atomic exactly when the log has more than LOGSIZE
      blocks, or at least as many as the cache can pin, or no block for a transaction. */
  lemma CrashAtomicIff(g: Geometry)
    ensures (forall run: seq<State>, steps: seq<Step>, k: nat ::
        IsRun(g, run, steps) && k < |run| ==> CrashAtomic(g, run, steps, k))
      <==> g.size > LOGSIZE || g.nbuf <= g.size || g.size <= 1
  {
    if Roomy(g) {
      forall run: seq<State>, steps: seq<Step>, k: nat | IsRun(g, run, steps) && k < |run|
        ensures CrashAtomic(g, run, steps, k)
      {
        RoomyAtomic(g, run, steps, k);
      }
    } else {
      var s, s' := WritesPastLog(g);
      NotAtomic(g, s, Commit(2), s');
    }
  }

  lemma NotAtomic(g: Geometry, s: State, e: Step, s': State)
    requires Reachable(g, s) && Enabled(g, s, e) && s' == Apply(g, s, e)
    requires !IsCommitPoint(s, e) && Differ(g, s.disk, s'.disk)
    ensures exists run: seq<State>, steps: seq<Step>, k: nat ::
      IsRun(g, run, steps) && k < |run| && !CrashAtomic(g, run, steps, k)
  {
    var run, steps := Extend(g, s, e);
    RunNotAtomic(g, run, steps, |run| - 2, s, e, s');
  }

  lemma RunNotAtomic(g: Geometry, run: seq<State>, steps: seq<Step>, k: nat, s: State, e: Step, s': State)
    requires IsRun(g, run, steps) && k < |steps|
    requires run[k] == s && steps[k] == e && run[k + 1] == s' && !IsCommitPoint(s, e) && Differ(g, s.disk, s'.disk)
    ensures exists run: seq<State>, steps: seq<Step>, k: nat ::
      IsRun(g, run, steps) && k < |run| && !CrashAtomic(g, run, steps, k)
  {
    AtomicTwice(g, run, steps, k, s, e, s');
  }

  /** A step that is no commit point changes nothing a crash restores. */
  lemma AtomicTwice(g: Geometry, run: seq<State>, steps: seq<Step>, k: nat, s: State, e: Step, s': State)
    requires k < |steps| == |run| - 1 && DiskOk(g, run[0].disk)
    requires run[k] == s && steps[k] == e && run[k + 1] == s' && !IsCommitPoint(s, e) && Differ(g, s.disk, s'.disk)
    ensures !CrashAtomic(g, run, steps, k + 1) || !CrashAtomic(g, run, steps, k)
  {
    assert LastCommit(run, steps, k + 1) == LastCommit(run, steps, k);
  }
}
