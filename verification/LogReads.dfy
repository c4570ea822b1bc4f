/** Reading blocks through a cache of NBUF buffers: what `bread` does to the machine, when
    it panics for want of a buffer, and why a commit can or cannot go on. */
module LogReads {
  import opened LogDisk
  import opened LogMachine

  // ---------------------------------------------------------------- bread

  /** s' is s after `bread` of block b by a caller that holds the buffers of `held`: b was
      cached, or an unused buffer was taken, or a clean buffer nobody holds was recycled. */
  ghost predicate Got(g: Geometry, s: State, b: nat, held: set<nat>, s': State) {
    && b in s.disk && s' == s.(cache := s'.cache)
    && if b in s.cache then s' == s
       else if |s.cache.Keys| < g.nbuf then s'.cache == s.cache[b := Buf(s.disk[b], false)]
       else exists v :: Recycled(s, b, held, v, s')
  }

  ghost predicate Recycled(s: State, b: nat, held: set<nat>, v: nat, s': State) {
    b in s.disk && Recyclable(s, v) && v !in held && s'.cache == (s.cache - {v})[b := Buf(s.disk[b], false)]
  }

  /** `bread` of b panics exactly when this holds. */
  ghost predicate Starved(g: Geometry, s: State, b: nat, held: set<nat>) {
    b !in s.cache && |s.cache.Keys| >= g.nbuf && forall v :: v in s.cache ==> v in held || !Recyclable(s, v)
  }

  /** Unless it panics, `bread` has a result. */
  lemma CanGet(g: Geometry, s: State, b: nat, held: set<nat>) returns (s': State)
    requires b in s.disk && !Starved(g, s, b, held)
    ensures Got(g, s, b, held, s')
  {
    if b in s.cache {
      s' := s;
    } else if |s.cache.Keys| < g.nbuf {
      s' := s.(cache := s.cache[b := Buf(s.disk[b], false)]);
    } else {
      var v :| v in s.cache && v !in held && Recyclable(s, v);
      s' := s.(cache := (s.cache - {v})[b := Buf(s.disk[b], false)]);
      assert Recycled(s, b, held, v, s');
    }
  }

  /** One step that brings a block in or gives a buffer up. The verifier unfolds this only
      where `Reading` is mentioned. */
  ghost predicate ReadMove(g: Geometry, s: State, e: Step, s': State) {
    forall key: int {:trigger Reading(key)} :: Reading(key) ==>
      (e.Load? || e.Evict?) && Enabled(g, s, e) && s' == Apply(g, s, e)
  }

  ghost predicate Reading(key: int) {
    true
  }

  /** Steps that only read. */
  ghost predicate Reads(g: Geometry, s: State, steps: seq<Step>, s': State)
    decreases |steps|
  {
    if steps == [] then s' == s
    else exists mid :: ReadMove(g, s, steps[0], mid) && Reads(g, mid, steps[1..], s')
  }

  /** A `bread` is a run of the machine: an eviction if need be, and a load. */
  lemma GotReads(g: Geometry, s: State, b: nat, held: set<nat>, s': State) returns (steps: seq<Step>)
    requires Got(g, s, b, held, s') && s.mode != Panicked && |s.cache.Keys| <= g.nbuf && HandFree(g, s)
    ensures Reads(g, s, steps, s')
  {
    if b in s.cache {
      steps := [];
    } else if |s.cache.Keys| < g.nbuf {
      steps := [Load(b)];
      LoadReads(g, s, b, s');
    } else {
      var v :| Recycled(s, b, held, v, s');
      var mid := Apply(g, s, Evict(v));
      assert mid.cache.Keys == s.cache.Keys - {v};
      LoadReads(g, mid, b, s');
      steps := [Evict(v)] + [Load(b)];
      ReadsOn(g, s, Evict(v), mid, [Load(b)], s');
    }
  }

  lemma LoadReads(g: Geometry, s: State, b: nat, s': State)
    requires Enabled(g, s, Load(b)) && |s.cache.Keys| < g.nbuf
    requires s' == s.(cache := s.cache[b := Buf(s.disk[b], false)])
    ensures Reads(g, s, [Load(b)], s')
  {
    assert Apply(g, s, Load(b)) == s';
    ReadsOn(g, s, Load(b), s', [], s');
    assert [Load(b)] + [] == [Load(b)];
  }

  lemma ReadsOn(g: Geometry, s: State, e: Step, mid: State, steps: seq<Step>, s': State)
    requires ReadMove(g, s, e, mid) && Reads(g, mid, steps, s')
    ensures Reads(g, s, [e] + steps, s')
  {
    assert ([e] + steps)[1..] == steps;
  }

  lemma Moves(g: Geometry, s: State, e: Step, s': State)
    requires ReadMove(g, s, e, s')
    ensures (e.Load? || e.Evict?) && Enabled(g, s, e) && s' == Apply(g, s, e)
  {
    assert Reading(0);
  }

  /** Only the cache differs, it is as good as before, and every block reads the same. */
  ghost predicate ReadOnly(g: Geometry, s: State, s': State)
    requires s.cache.Keys <= s.disk.Keys
  {
    && s' == s.(cache := s'.cache) && Inv(g, s') && View(g, s') == View(g, s)
    && forall b :: b in s.disk && !BeingWritten(s.procs, b) ==> Read(s', b) == Read(s, b)
  }

  lemma ReadStep(g: Geometry, s: State, e: Step)
    requires Inv(g, s) && Enabled(g, s, e) && CacheMove(g, s, e)
    ensures ReadOnly(g, s, Apply(g, s, e))
  {
    CacheInv(g, s, e);
    CacheMoveKeeps(g, s, e);
    var s' := Apply(g, s, e);
    forall b | b in s.disk ensures Read(s', b) == Read(s, b) {
    }
    assert View(g, s').Keys == View(g, s).Keys;
  }

  lemma {:induction false} ReadsKeep(g: Geometry, s: State, steps: seq<Step>, s': State)
    requires Inv(g, s) && Reads(g, s, steps, s') && s'.mode != Panicked
    ensures ReadOnly(g, s, s')
    decreases |steps|
  {
    if steps == [] {
      assert ReadOnly(g, s, s);
    } else {
      var mid :| ReadMove(g, s, steps[0], mid) && Reads(g, mid, steps[1..], s');
      Moves(g, s, steps[0], mid);
      if !CacheMove(g, s, steps[0]) {
        PanickedForGood(g, mid, steps[1..], s');
      }
      ReadStep(g, s, steps[0]);
      ReadsKeep(g, mid, steps[1..], s');
      ReadOnlyTrans(g, s, mid, s');
    }
  }

  lemma ReadOnlyTrans(g: Geometry, s: State, mid: State, s': State)
    requires s.cache.Keys <= s.disk.Keys && ReadOnly(g, s, mid) && ReadOnly(g, mid, s')
    ensures ReadOnly(g, s, s')
  {
  }

  lemma PanickedForGood(g: Geometry, s: State, steps: seq<Step>, s': State)
    requires s.mode == Panicked && Reads(g, s, steps, s')
    ensures s' == s
  {
    if steps != [] {
      var mid :| ReadMove(g, s, steps[0], mid) && Reads(g, mid, steps[1..], s');
      Moves(g, s, steps[0], mid);
    }
  }

  lemma GotKeeps(g: Geometry, s: State, b: nat, held: set<nat>, s': State)
    requires Inv(g, s) && s.mode != Panicked && HandFree(g, s) && Got(g, s, b, held, s')
    ensures ReadOnly(g, s, s') && b in s'.cache
    ensures forall c :: c in s.cache && (c in held || !Recyclable(s, c)) ==>
      c in s'.cache && s'.cache[c] == s.cache[c]
  {
    var steps := GotReads(g, s, b, held, s');
    ReadsKeep(g, s, steps, s');
  }

  // ---------------------------------------------------------------- how many buffers are taken

  /** The blocks that writers have modified and not logged yet. */
  ghost function NewBlocks(ps: seq<Proc>, lh: seq<nat>): set<nat> {
    if ps == [] then {}
    else
      var q := ps[|ps| - 1];
      NewBlocks(ps[..|ps| - 1], lh) + if q.Writing? && q.b !in lh then {q.b} else {}
  }

  lemma {:induction false} NewBlocksAre(ps: seq<Proc>, lh: seq<nat>, b: nat)
    requires BeingWritten(ps, b) && b !in lh
    ensures b in NewBlocks(ps, lh)
  {
    var q :| 0 <= q < |ps| && ps[q].Writing? && ps[q].b == b;
    if q < |ps| - 1 {
      assert ps[..|ps| - 1][q] == ps[q];
      NewBlocksAre(ps[..|ps| - 1], lh, b);
    }
  }

  /** A process that has modified a block it has not logged has not used up its quota. */
  ghost predicate QuotaLeft(q: Proc, lh: seq<nat>) {
    Unused(q) >= if q.Writing? && q.b !in lh then 1 else 0
  }

  lemma {:induction false} NewBlocksFew(ps: seq<Proc>, lh: seq<nat>)
    requires forall i :: 0 <= i < |ps| ==> QuotaLeft(ps[i], lh)
    ensures |NewBlocks(ps, lh)| <= Total(ps, Unused)
  {
    if ps != [] {
      NewBlocksFew(ps[..|ps| - 1], lh);
      var q := ps[|ps| - 1];
      assert QuotaLeft(q, lh);
      if q.Writing? && q.b !in lh {
        SubsetSize(NewBlocks(ps[..|ps| - 1], lh), q.b);
      }
    }
  }

  ghost function Elems(bl: seq<nat>): set<nat> {
    set i | 0 <= i < |bl| :: bl[i]
  }

  lemma {:induction false} ElemsFew(bl: seq<nat>)
    ensures |Elems(bl)| <= |bl|
  {
    if bl != [] {
      var n := |bl| - 1;
      ElemsFew(bl[..n]);
      assert Elems(bl) == Elems(bl[..n]) + {bl[n]};
    }
  }

  lemma SubsetFew(a: set<nat>, b: set<nat>)
    requires a <= b
    ensures |a| <= |b|
  {
    assert b == a + (b - a);
  }

  /** The buffers taken are those held by readers and, pinned or modified, at most LOGSIZE
      others. */
  lemma TakenFew(g: Geometry, s: State)
    requires Inv(g, s) && s.mode == Running
    ensures |set b | b in s.cache && !Recyclable(s, b)| <= LOGSIZE + |s.held|
  {
    var unlogged := NewBlocks(s.procs, s.lh);
    var taken := set b | b in s.cache && !Recyclable(s, b);
    forall b | b in taken ensures b in Elems(s.lh) + unlogged + s.held {
      if !s.cache[b].dirty && b !in s.lh && b !in s.held {
        NewBlocksAre(s.procs, s.lh, b);
      }
    }
    LoggedFew(g, s);
    SubsetFew(taken, Elems(s.lh) + unlogged + s.held);
  }

  lemma LoggedFew(g: Geometry, s: State)
    requires Inv(g, s) && s.mode == Running
    ensures |Elems(s.lh) + NewBlocks(s.procs, s.lh)| <= LOGSIZE
  {
    forall i | 0 <= i < |s.procs| ensures QuotaLeft(s.procs[i], s.lh) {
      UnusedNonNegative(g, s);
      assert ProcOk(g, s, s.procs[i]);
      if s.procs[i].Writing? {
        SubsetSize(s.procs[i].blocks, s.procs[i].b);
      }
    }
    NewBlocksFew(s.procs, s.lh);
    ElemsFew(s.lh);
  }

  /** With more buffers than LOGSIZE and the readers take together one is always left,
      whatever the operations under way have pinned or are modifying; during recovery one
      buffer is enough. */
  lemma BufferAlwaysLeft(g: Geometry, s: State)
    requires Inv(g, s) && s.mode != Panicked && g.nbuf > if s.mode == Running then LOGSIZE + |s.held| else 0
    ensures !NoBuffer(g, s)
  {
    if s.mode == Running {
      TakenFew(g, s);
      assert NoBuffer(g, s) ==> s.cache.Keys == set b | b in s.cache && !Recyclable(s, b);
    } else {
      IdleClean(g, s);
    }
  }

  lemma IdleClean(g: Geometry, s: State)
    requires Inv(g, s) && s.mode != Panicked && s.mode != Running
    ensures forall b :: b in s.cache ==> Recyclable(s, b)
    ensures NoBuffer(g, s) ==> s.cache.Keys == {}
  {
    forall b | b in s.cache ensures Recyclable(s, b) {
      assert !BeingWritten(s.procs, b);
    }
  }

  // ---------------------------------------------------------------- when a read goes on

  /** Some reads bring block b into the cache. */
  ghost predicate CanRead(g: Geometry, s: State, b: nat) {
    exists steps, s' :: Reads(g, s, steps, s') && b in s'.cache
  }

  /** A process that may take a buffer gets a block exactly when the block is cached, or a
      buffer is unused, or one is clean and neither being modified nor held. */
  lemma ReadGoesOn(g: Geometry, s: State, b: nat)
    requires Inv(g, s) && s.mode != Panicked && HandFree(g, s) && b in s.disk
    ensures CanRead(g, s, b) <==>
      || b in s.cache
      || |s.cache.Keys| < g.nbuf
      || exists v :: v in s.cache && !s.cache[v].dirty && !BeingWritten(s.procs, v) && v !in s.held
  {
    if b !in s.cache && NoBuffer(g, s) {
      ReadStuck(g, s, b);
    } else {
      var s' := CanGet(g, s, b, {});
      var steps := GotReads(g, s, b, {}, s');
      assert Reads(g, s, steps, s');
    }
    assert forall v :: v in s.cache ==>
      (Recyclable(s, v) <==> !s.cache[v].dirty && !BeingWritten(s.procs, v) && v !in s.held);
  }

  lemma ReadStuck(g: Geometry, s: State, b: nat)
    requires b !in s.cache && NoBuffer(g, s)
    ensures !CanRead(g, s, b)
  {
    forall steps, s' | Reads(g, s, steps, s') ensures b !in s'.cache {
      if steps != [] {
        var mid :| ReadMove(g, s, steps[0], mid) && Reads(g, mid, steps[1..], s');
        Moves(g, s, steps[0], mid);
        PanickedForGood(g, mid, steps[1..], s');
      }
    }
  }

  // ---------------------------------------------------------------- when a commit goes on

  /** The block a commit step reads that its transaction has not pinned. */
  function Need(g: Geometry, pc: CommitPc): nat {
    match pc
    case WriteLog(i) => g.Slot(i)
    case Install(i) => g.Slot(i)
    case _ => g.start
  }

  /** The blocks of the transaction that are pinned at this point of its commit. */
  ghost function StillPinned(lh: seq<nat>, pc: CommitPc): set<nat> {
    match pc
    case WriteLog(_) => Elems(lh)
    case WriteHead => Elems(lh)
    case Install(i) => if i < |lh| then Elems(lh[i..]) else {}
    case _ => {}
  }

  lemma PinnedAre(g: Geometry, s: State, p: nat)
    requires Inv(g, s) && s.mode == Running && p < |s.procs| && s.procs[p].Committer?
    ensures forall b :: b in s.cache && s.cache[b].dirty <==> b in StillPinned(s.lh, s.procs[p].pc)
  {
    CommitAlone(g, s, p);
    match s.procs[p].pc
    case WriteLog(_) => PinnedFrom(s, 0);
    case WriteHead => PinnedFrom(s, 0);
    case Install(i) => PinnedFrom(s, i);
    case _ =>
  }

  lemma PinnedFrom(s: State, i: nat)
    requires i <= |s.lh| && Pinned(s, i)
    requires forall j :: 0 <= j < i && s.lh[j] in s.cache ==> !s.cache[s.lh[j]].dirty
    requires forall b :: b in s.cache && s.cache[b].dirty ==> b in s.lh
    ensures forall b :: b in s.cache && s.cache[b].dirty <==> b in Elems(s.lh[i..])
    ensures s.lh[0..] == s.lh
  {
    forall b | b in s.cache && s.cache[b].dirty ensures b in Elems(s.lh[i..]) {
      var j :| 0 <= j < |s.lh| && s.lh[j] == b;
      assert s.lh[i..][j - i] == b;
    }
  }

  /** `few` of at most nbuf buffers are all of them exactly when they are nbuf. */
  lemma AllTaken(few: set<nat>, cached: set<nat>, nbuf: nat)
    requires few <= cached && |cached| <= nbuf
    ensures |few| >= nbuf <==> few == cached && |cached| >= nbuf
  {
    assert cached == few + (cached - few);
  }

  /** A commit meets a cache without a buffer to spare exactly when the blocks still pinned
      and those held by readers take every buffer. */
  lemma CommitStarves(g: Geometry, s: State, p: nat)
    requires Inv(g, s) && s.mode == Running && p < |s.procs| && s.procs[p].Committer?
    ensures NoBuffer(g, s) <==> |StillPinned(s.lh, s.procs[p].pc) + s.held| >= g.nbuf
  {
    PinnedAre(g, s, p);
    CommitAlone(g, s, p);
    var taken := StillPinned(s.lh, s.procs[p].pc) + s.held;
    assert forall b :: b in s.cache ==> (Recyclable(s, b) <==> b !in taken);
    AllTaken(taken, s.cache.Keys, g.nbuf);
    if NoBuffer(g, s) {
      assert taken == s.cache.Keys;
    }
  }

  /** After some reads the process can take its next commit step. */
  ghost predicate CanCommit(g: Geometry, s: State, p: nat) {
    exists steps, s' :: Reads(g, s, steps, s') && Enabled(g, s', Commit(p))
  }

  /** What a commit step reads is there once its block is cached. */
  lemma CommitReads(g: Geometry, s: State, p: nat)
    requires Inv(g, s) && s.mode == Running && p < |s.procs| && s.procs[p].Committer?
    requires s.procs[p].pc != Finish ==> Need(g, s.procs[p].pc) in s.cache
    ensures Enabled(g, s, Commit(p))
  {
    CommitAlone(g, s, p);
  }

  lemma CommitAdvances(g: Geometry, s: State, p: nat)
    requires Inv(g, s) && s.mode == Running && p < |s.procs| && s.procs[p].Committer?
    requires HandFree(g, s) && (s.procs[p].pc == Finish || Need(g, s.procs[p].pc) in s.cache || !NoBuffer(g, s))
    ensures CanCommit(g, s, p)
  {
    if s.procs[p].pc == Finish {
      CommitReads(g, s, p);
      assert Reads(g, s, [], s);
    } else {
      var b := Need(g, s.procs[p].pc);
      NeedOnDisk(g, s, p);
      var s' := CanGet(g, s, b, {});
      GotKeeps(g, s, b, {}, s');
      CommitReads(g, s', p);
      var steps := GotReads(g, s, b, {}, s');
      assert Reads(g, s, steps, s');
    }
  }

  /** The block a commit step reads is a block of the log. */
  lemma NeedOnDisk(g: Geometry, s: State, p: nat)
    requires Inv(g, s) && s.mode == Running && p < |s.procs| && s.procs[p].Committer? && s.procs[p].pc != Finish
    ensures Need(g, s.procs[p].pc) in s.disk
  {
    CommitAlone(g, s, p);
    var pc := s.procs[p].pc;
    assert pc.WriteLog? && pc.i == 0 ==> g.Slot(0) in s.disk by {
      assert g.size > 1 ==> g.InLog(g.Slot(0));
    }
    assert g.InLog(g.start);
    assert |s.lh| < g.size && (pc.WriteLog? || pc.Install?) ==> g.InLog(Need(g, pc));
  }

  lemma CommitStuck(g: Geometry, s: State, p: nat)
    requires Inv(g, s) && s.mode == Running && p < |s.procs| && s.procs[p].Committer? && s.procs[p].pc != Finish
    requires Need(g, s.procs[p].pc) !in s.cache && NoBuffer(g, s)
    ensures !CanCommit(g, s, p)
  {
    forall steps, s' | Reads(g, s, steps, s') ensures !Enabled(g, s', Commit(p)) {
      if steps != [] {
        var mid :| ReadMove(g, s, steps[0], mid) && Reads(g, mid, steps[1..], s');
        Moves(g, s, steps[0], mid);
        PanickedForGood(g, mid, steps[1..], s');
      }
    }
  }

  /** A commit can go on, after some reads, exactly when it reads no further block, or has
      it cached, or the blocks still pinned and those held by readers leave a buffer. */
  lemma CommitGoesOn(g: Geometry, s: State, p: nat)
    requires Inv(g, s) && s.mode == Running && p < |s.procs| && s.procs[p].Committer? && HandFree(g, s)
    ensures CanCommit(g, s, p) <==>
      || s.procs[p].pc == Finish
      || Need(g, s.procs[p].pc) in s.cache
      || |StillPinned(s.lh, s.procs[p].pc) + s.held| < g.nbuf
  {
    CommitStarves(g, s, p);
    if s.procs[p].pc != Finish && Need(g, s.procs[p].pc) !in s.cache && NoBuffer(g, s) {
      CommitStuck(g, s, p);
    } else {
      CommitAdvances(g, s, p);
    }
  }

  // ---------------------------------------------------------------- when recovery goes on

  predicate Recovering(s: State) {
    s.mode.ReadHead? || s.mode.Replaying? || s.mode.ClearHead?
  }

  /** Some reads bring the machine to s', where recovery can take its next step. */
  ghost predicate Fetched(g: Geometry, s: State, s': State) {
    (exists steps :: Reads(g, s, steps, s')) && Enabled(g, s', Recover)
  }

  lemma {:induction false} ReadsJoin(g: Geometry, s: State, a: seq<Step>, mid: State, b: seq<Step>, s': State)
    requires Reads(g, s, a, mid) && Reads(g, mid, b, s')
    ensures Reads(g, s, a + b, s')
    decreases |a|
  {
    if a == [] {
      assert a + b == b;
    } else {
      assert a + b == [a[0]] + (a[1..] + b);
      var next :| ReadMove(g, s, a[0], next) && Reads(g, next, a[1..], mid);
      ReadsJoin(g, next, a[1..], mid, b, s');
      ReadsOn(g, s, a[0], next, a[1..] + b, s');
    }
  }

  /** During recovery every cached copy is clean, so only a held buffer cannot be had. */
  lemma RecoveryGets(g: Geometry, s: State, b: nat, held: set<nat>) returns (s': State, steps: seq<Step>)
    requires Inv(g, s) && Recovering(s) && b in s.disk && |held| < g.nbuf
    ensures Reads(g, s, steps, s') && ReadOnly(g, s, s') && b in s'.cache
    ensures forall c :: c in s.cache && c in held ==> c in s'.cache
  {
    if Starved(g, s, b, held) {
      forall c | c in s.cache ensures c in held {
        assert c !in held ==> Recyclable(s, c);
      }
      SubsetFew(s.cache.Keys, held);
    }
    s' := CanGet(g, s, b, held);
    GotKeeps(g, s, b, held, s');
    steps := GotReads(g, s, b, held, s');
  }

  /** Two blocks can be had together during recovery. */
  lemma PairFetched(g: Geometry, s: State, a: nat, b: nat) returns (s': State)
    requires Inv(g, s) && Recovering(s) && a in s.disk && b in s.disk && g.nbuf >= 2
    ensures exists steps :: Reads(g, s, steps, s')
    ensures ReadOnly(g, s, s') && a in s'.cache && b in s'.cache
  {
    var mid, first := RecoveryGets(g, s, a, {});
    var second;
    s', second := RecoveryGets(g, mid, b, {a});
    ReadsJoin(g, s, first, mid, second, s');
    ReadOnlyTrans(g, s, mid, s');
  }

  lemma ReplayFetches(g: Geometry, s: State, i: nat) returns (s': State)
    requires Inv(g, s) && s.mode == Replaying(i) && g.nbuf >= 2
    ensures Fetched(g, s, s') && ReadOnly(g, s, s')
  {
    assert g.InLog(g.Slot(i));
    s' := PairFetched(g, s, g.Slot(i), s.lh[i]);
    ReplayReady(g, s', i);
  }

  lemma ReplayReady(g: Geometry, s: State, i: nat)
    requires s.mode == Replaying(i) && i < |s.lh| && g.Slot(i) in s.cache && s.lh[i] in s.cache
    ensures Enabled(g, s, Recover)
  {
  }

  lemma RecoveryFetches(g: Geometry, s: State) returns (s': State)
    requires Inv(g, s) && Recovering(s) && g.nbuf >= if s.mode.Replaying? then 2 else 1
    ensures Fetched(g, s, s') && ReadOnly(g, s, s')
  {
    if s.mode.Replaying? {
      s' := ReplayFetches(g, s, s.mode.i);
    } else {
      s' := HeadFetches(g, s);
    }
  }

  lemma HeadFetches(g: Geometry, s: State) returns (s': State)
    requires Inv(g, s) && Recovering(s) && !s.mode.Replaying? && g.nbuf >= 1
    ensures Fetched(g, s, s') && ReadOnly(g, s, s')
  {
    var steps;
    s', steps := RecoveryGets(g, s, g.start, {});
    HeadReady(g, s');
  }

  lemma HeadReady(g: Geometry, s: State)
    requires Inv(g, s) && Recovering(s) && !s.mode.Replaying? && g.start in s.cache
    ensures Enabled(g, s, Recover)
  {
    HeaderClean(g, s);
  }

  lemma HeaderClean(g: Geometry, s: State)
    requires Inv(g, s) && Recovering(s) && g.start in s.cache
    ensures s.cache[g.start].data == s.disk[g.start]
  {
    assert !BeingWritten(s.procs, g.start);
  }

  /** Recovery can go on, after some reads, exactly with one buffer, or with two while it
      copies blocks home. */
  lemma RecoveryGoesOn(g: Geometry, s: State)
    requires Inv(g, s) && Recovering(s)
    ensures (exists s' :: Fetched(g, s, s')) <==> g.nbuf >= if s.mode.Replaying? then 2 else 1
  {
    if g.nbuf >= if s.mode.Replaying? then 2 else 1 {
      var s' := RecoveryFetches(g, s);
    }
    forall s' | Fetched(g, s, s') ensures g.nbuf >= if s.mode.Replaying? then 2 else 1 {
      var steps :| Reads(g, s, steps, s');
      ReadsKeep(g, s, steps, s');
      RecoveryBuffers(g, s');
    }
  }

  lemma RecoveryBuffers(g: Geometry, s: State)
    requires Inv(g, s) && Recovering(s) && Enabled(g, s, Recover)
    ensures g.nbuf >= if s.mode.Replaying? then 2 else 1
  {
    if s.mode.Replaying? {
      assert g.InLog(g.Slot(s.mode.i));
      SubsetFew({g.Slot(s.mode.i), s.lh[s.mode.i]}, s.cache.Keys);
    } else {
      SubsetFew({g.start}, s.cache.Keys);
    }
  }
}
