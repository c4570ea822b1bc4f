/** The code of log.c itself, as `commit` and `recover_from_log` run it while other processes
    at most hold buffers: loops over the in-memory header, copying blocks through the cache.
    Every iteration is a step of LogMachine, whose invariant is the loop invariant, and
    the disk after each `bwrite` is recorded in a ghost trace. A method that returns false
    has panicked in `bget`, which found every buffer pinned or held. */
module LogDevice {
  import opened LogDisk
  import opened LogMachine
  import opened LogReads

  /** Recovery from disk d would leave the home blocks at h. */
  ghost predicate RecoversTo(g: Geometry, d: Disk, h: Disk) {
    DiskOk(g, d) && Home(g, Recovered(g, d)) == h
  }

  /** The trace t1 extends t0, and recovery from each further disk would yield h. */
  ghost predicate Extends(g: Geometry, t0: seq<Disk>, t1: seq<Disk>, h: Disk) {
    t0 <= t1 && forall i :: |t0| <= i < |t1| ==> RecoversTo(g, t1[i], h)
  }

  /** The trace t1 extends t0 by writes up to which recovery restores h0 and from which
      on it restores h1. */
  ghost predicate Switches(g: Geometry, t0: seq<Disk>, t1: seq<Disk>, h0: Disk, h1: Disk) {
    exists t :: Extends(g, t0, t, h0) && Extends(g, t, t1, h1)
  }

  /** The machine invariant holds, a reboot would restore h, and while a commit runs
      readers see v. The quantifier keeps the verifier from unfolding the definition
      except where `Key` is mentioned. */
  ghost predicate Safe(g: Geometry, s: State, h: Disk, v: Disk) {
    forall k: int {:trigger Key(s, k)} :: Key(s, k) ==>
      Inv(g, s) && RecoversTo(g, s.disk, h) && (s.committing ==> View(g, s) == v)
  }

  ghost predicate Key(s: State, k: int) {
    true
  }

  lemma Unfold(g: Geometry, s: State, h: Disk, v: Disk)
    requires Safe(g, s, h, v)
    ensures Inv(g, s) && RecoversTo(g, s.disk, h) && (s.committing ==> View(g, s) == v)
  {
    assert Key(s, 0);
  }

  // ---------------------------------------------------------------- single steps

  /** `bread` of b makes cache' of the cache: b was there, or takes an unused buffer, or
      that of a clean block not in `held`. */
  ghost predicate GotCache(nbuf: nat, disk: Disk, cache: map<nat, Buf>, b: nat, held: set<nat>, cache': map<nat, Buf>) {
    && b in disk
    && if b in cache then cache' == cache
       else if |cache.Keys| < nbuf then cache' == cache[b := Buf(disk[b], false)]
       else exists v :: Reused(disk, cache, b, held, v, cache')
  }

  ghost predicate Reused(disk: Disk, cache: map<nat, Buf>, b: nat, held: set<nat>, v: nat, cache': map<nat, Buf>) {
    b in disk && Free(cache, v, held) && cache' == (cache - {v})[b := Buf(disk[b], false)]
  }

  predicate Free(cache: map<nat, Buf>, v: nat, held: set<nat>) {
    v in cache && !cache[v].dirty && v !in held
  }

  /** There is no buffer for block b. */
  predicate NoneFree(nbuf: nat, cache: map<nat, Buf>, b: nat, held: set<nat>) {
    b !in cache && |cache.Keys| >= nbuf && forall v :: v in cache ==> !Free(cache, v, held)
  }

  /** No other process has a buffer. */
  ghost predicate Solo(s: State) {
    forall b :: !BeingWritten(s.procs, b)
  }

  /** A read keeps the state good, what the caller holds, and what is pinned. */
  lemma ReadSafe(g: Geometry, s: State, b: nat, own: set<nat>, s': State, h: Disk, v: Disk)
    requires Safe(g, s, h, v) && s.mode != Panicked && Solo(s) && HandFree(g, s)
    requires s' == s.(cache := s'.cache) && GotCache(g.nbuf, s.disk, s.cache, b, s.held + own, s'.cache)
    ensures Safe(g, s', h, v) && b in s'.cache
    ensures forall c :: c in s.cache && (c in own || s.cache[c].dirty) ==>
      c in s'.cache && s'.cache[c] == s.cache[c]
  {
    GotBoth(g, s, b, own, s');
    Unfold(g, s, h, v);
    GotKeeps(g, s, b, own, s');
  }

  /** A read of the class is a read of the machine. */
  lemma GotBoth(g: Geometry, s: State, b: nat, own: set<nat>, s': State)
    requires Solo(s) && s' == s.(cache := s'.cache) && GotCache(g.nbuf, s.disk, s.cache, b, s.held + own, s'.cache)
    ensures Got(g, s, b, own, s')
  {
    if b !in s.cache && |s.cache.Keys| >= g.nbuf {
      var w :| Reused(s.disk, s.cache, b, s.held + own, w, s'.cache);
      assert Recycled(s, b, own, w, s');
    }
  }

  /** A step of the committing process other than the header write. */
  lemma CommitSafe(g: Geometry, s: State, s': State, h: Disk, v: Disk)
    requires Safe(g, s, h, v) && Enabled(g, s, Commit(0)) && s' == Apply(g, s, Commit(0))
    requires s.procs[0].pc != WriteHead
    ensures Safe(g, s', h, v) && RecoversTo(g, s'.disk, h)
  {
    Unfold(g, s, h, v);
    CommitAlone(g, s, 0);
    StepGood(g, s, Commit(0));
    CommitKeepsView(g, s, 0);
  }

  lemma RecoverSafe(g: Geometry, s: State, s': State, h: Disk, v: Disk)
    requires Safe(g, s, h, v) && Enabled(g, s, Recover) && s' == Apply(g, s, Recover)
    ensures Safe(g, s', h, v) && RecoversTo(g, s'.disk, h)
  {
    Unfold(g, s, h, v);
    StepGood(g, s, Recover);
  }

  lemma PairExists(g: Geometry, s: State, h: Disk, v: Disk, i: nat)
    requires Safe(g, s, h, v) && i < |s.lh|
    requires s.mode == Replaying(i) || (s.mode == Running && AtBlock(s, i))
    ensures g.Slot(i) in s.disk && s.lh[i] in s.disk && g.Slot(i) != s.lh[i] && g.InLog(g.Slot(i))
  {
    Unfold(g, s, h, v);
    if s.mode == Running {
      CommitAlone(g, s, 0);
    }
    assert g.InLog(g.Slot(i));
  }

  /** The process commits and block i is next to be copied. */
  predicate AtBlock(s: State, i: nat) {
    s.procs == [Committer(WriteLog(i))] || s.procs == [Committer(Install(i))]
  }

  /** Other processes hold home blocks only, and the caller may take a buffer. */
  ghost predicate Apart(g: Geometry, s: State) {
    HandFree(g, s) && forall b :: b in s.held ==> !g.InLog(b)
  }

  /** While a commit runs there is a buffer for a block of the log exactly when the blocks
      still pinned and those others hold leave one. */
  lemma LogReadable(g: Geometry, s: State, b: nat)
    requires Inv(g, s) && s.mode == Running && |s.procs| == 1 && s.procs[0].Committer?
    requires Apart(g, s) && g.InLog(b)
    ensures Solo(s)
    ensures NoneFree(g.nbuf, s.cache, b, s.held) <==> |StillPinned(s.lh, s.procs[0].pc) + s.held| >= g.nbuf
  {
    CommitAlone(g, s, 0);
    CommitStarves(g, s, 0);
    assert forall c :: c in s.cache ==> (Recyclable(s, c) <==> Free(s.cache, c, s.held));
    assert b in s.cache ==> Recyclable(s, b);
  }

  /** At block i of a commit the block itself is pinned, and there is a buffer for its log
      block unless the pinned blocks and those others hold take them all. */
  lemma PairReadable(g: Geometry, s: State, h: Disk, v: Disk, i: nat)
    requires Safe(g, s, h, v) && i < |s.lh| && s.mode == Running && AtBlock(s, i) && Apart(g, s)
    ensures Solo(s) && s.lh[i] in s.cache && s.cache[s.lh[i]].dirty
    ensures NoneFree(g.nbuf, s.cache, g.Slot(i), s.held)
        <==> |StillPinned(s.lh, s.procs[0].pc) + s.held| >= g.nbuf
  {
    PairExists(g, s, h, v, i);
    Unfold(g, s, h, v);
    CommitAlone(g, s, 0);
    LogReadable(g, s, g.Slot(i));
  }

  /** `write_log` or `install_trans` copies block i, both blocks being cached. */
  lemma CopyStep(g: Geometry, s: State, s': State, h: Disk, v: Disk, i: nat)
    requires Safe(g, s, h, v) && i < |s.lh| && s.mode == Running
    requires g.Slot(i) in s.cache && s.lh[i] in s.cache
    requires
      || (&& s.procs == [Committer(WriteLog(i))]
          && s' == BWrite(s, g.Slot(i), s.cache[s.lh[i]].data).
               (procs := [Committer(if i + 1 < |s.lh| then WriteLog(i + 1) else WriteHead)]))
      || (&& s.procs == [Committer(Install(i))]
          && s' == BWrite(s, s.lh[i], s.cache[g.Slot(i)].data).
               (procs := [Committer(if i + 1 < |s.lh| then Install(i + 1) else Clear)]))
    ensures Safe(g, s', h, v) && RecoversTo(g, s'.disk, h)
  {
    assert forall q :: s.procs[0 := q] == [q];
    CommitSafe(g, s, s', h, v);
  }

  lemma ReplayStep(g: Geometry, s: State, s': State, h: Disk, v: Disk, i: nat)
    requires Safe(g, s, h, v) && i < |s.lh| && s.mode == Replaying(i)
    requires g.Slot(i) in s.cache && s.lh[i] in s.cache
    requires s' == BWrite(s, s.lh[i], s.cache[g.Slot(i)].data).
      (mode := if i + 1 < |s.lh| then Replaying(i + 1) else ClearHead)
    ensures Safe(g, s', h, v) && RecoversTo(g, s'.disk, h)
  {
    RecoverSafe(g, s, s', h, v);
  }

  /** During recovery every buffer that is not held is free, and nobody else holds one. */
  lemma RecoveryReadable(g: Geometry, s: State, h: Disk, v: Disk, b: nat, own: set<nat>)
    requires Safe(g, s, h, v) && Recovering(s) && own <= s.cache.Keys
    ensures Solo(s) && s.held == {} && HandFree(g, s)
    ensures NoneFree(g.nbuf, s.cache, b, s.held + own) <==> b !in s.cache && |own| >= g.nbuf
  {
    Unfold(g, s, h, v);
    assert s.held + own == own;
    OnlyHeld(g.nbuf, s.cache, b, own);
  }

  /** When no buffer is dirty, only held ones cannot be recycled. */
  lemma OnlyHeld(nbuf: nat, cache: map<nat, Buf>, b: nat, held: set<nat>)
    requires held <= cache.Keys && |cache.Keys| <= nbuf && forall c :: c in cache ==> !cache[c].dirty
    ensures NoneFree(nbuf, cache, b, held) <==> b !in cache && |held| >= nbuf
  {
    SubsetFew(held, cache.Keys);
    if |held| >= nbuf {
      assert cache.Keys == held + (cache.Keys - held);
    }
    if NoneFree(nbuf, cache, b, held) {
      forall c | c in cache.Keys ensures c in held {
        assert !Free(cache, c, held);
      }
      assert cache.Keys == held;
    }
  }

  lemma HeaderOnDisk(g: Geometry, s: State, h: Disk, v: Disk)
    requires Safe(g, s, h, v) && s.mode != Panicked
    requires s.mode == Running ==> |s.procs| == 1 && s.procs[0].Committer?
    ensures HasHead(g, s.disk) && Read(s, g.start) == s.disk[g.start] && Solo(s) && |s.lh| <= LOGSIZE
  {
    Unfold(g, s, h, v);
    if s.mode == Running {
      CommitAlone(g, s, 0);
    }
    assert !BeingWritten(s.procs, g.start);
  }

  /** When a commit writes or erases the header there is a buffer for it unless the blocks
      still pinned and those others hold take them all. */
  lemma HeaderReadable(g: Geometry, s: State, h: Disk, v: Disk)
    requires Safe(g, s, h, v) && s.mode == Running && Apart(g, s)
    requires s.procs == [Committer(WriteHead)] || s.procs == [Committer(Clear)]
    ensures Solo(s)
    ensures NoneFree(g.nbuf, s.cache, g.start, s.held) <==> |StillPinned(s.lh, s.procs[0].pc) + s.held| >= g.nbuf
  {
    Unfold(g, s, h, v);
    assert g.InLog(g.start);
    LogReadable(g, s, g.start);
  }

  lemma EraseReadable(g: Geometry, s: State, h: Disk, v: Disk)
    requires Safe(g, s, h, v) && Apart(g, s)
    requires Recovering(s) || (s.mode == Running && s.procs == [Committer(Clear)])
    ensures Solo(s) && (NoneFree(g.nbuf, s.cache, g.start, s.held + {}) <==> |s.held| >= g.nbuf)
  {
    assert s.held + {} == s.held && {} + s.held == s.held;
    if s.mode == Running {
      HeaderReadable(g, s, h, v);
    } else {
      RecoveryReadable(g, s, h, v, g.start, {});
      SlotCached(g, s, h, v, g.start);
    }
  }

  lemma ReadHeadStep(g: Geometry, s: State, s': State, h: Disk, v: Disk)
    requires Safe(g, s, h, v) && s.mode == ReadHead && g.start in s.cache && HasHead(g, s.disk)
    requires var hd := s.cache[g.start].data;
      hd.Head? && hd.n <= |hd.block|
      && s' == s.(lh := hd.block[..hd.n], mode := if hd.n == 0 then ClearHead else Replaying(0))
    ensures Safe(g, s', h, v)
  {
    RecoverSafe(g, s, s', h, v);
  }

  lemma HeadStep(g: Geometry, s: State, s': State, h: Disk, v: Disk)
    requires Safe(g, s, h, v) && s.mode == Running && s.procs == [Committer(WriteHead)]
    requires s.committing && HeaderFits(g, s, s.lh) && |s.lh| > 0
    requires s' == WriteHeader(g, s).(procs := [Committer(Install(0))])
    ensures Safe(g, s', v, v) && RecoversTo(g, s'.disk, v)
  {
    Unfold(g, s, h, v);
    CommitAlone(g, s, 0);
    assert forall q :: s.procs[0 := q] == [q];
    CommitKeepsView(g, s, 0);
    StepGood(g, s, Commit(0));
  }

  /** With an empty header there is nothing to replay. */
  lemma EmptyHeader(g: Geometry, d: Disk)
    requires DiskOk(g, d) && d[g.start].n == 0
    ensures Home(g, Recovered(g, d)) == Home(g, d)
  {
    assert Logged(g, d) == [];
  }

  lemma ClearStep(g: Geometry, s: State, s': State, h: Disk, v: Disk)
    requires Safe(g, s, h, v) && s'.mode == Running
    requires || (s.mode == ClearHead && s'.procs == s.procs)
             || (s.mode == Running && s.procs == [Committer(Clear)] && s'.procs == [Committer(Finish)])
    requires HeaderFits(g, s, []) && s' == WriteHeader(g, s.(lh := [])).(mode := s'.mode, procs := s'.procs)
    ensures Safe(g, s', h, v) && RecoversTo(g, s'.disk, h) && Home(g, s'.disk) == h
  {
    if s.mode == Running {
      assert forall q :: s.procs[0 := q] == [q];
      CommitSafe(g, s, s', h, v);
    } else {
      RecoverSafe(g, s, s', h, v);
    }
    Unfold(g, s', h, v);
    EmptyHeader(g, s'.disk);
  }

  /** Reading the header block and then clearing it. */
  lemma EraseStep(g: Geometry, s: State, mid: map<nat, Buf>, s': State, h: Disk, v: Disk)
    requires Safe(g, s, h, v) && Solo(s) && HandFree(g, s) && s'.mode == Running
    requires || (s.mode == ClearHead && s'.procs == s.procs)
             || (s.mode == Running && s.procs == [Committer(Clear)] && s'.procs == [Committer(Finish)])
    requires GotCache(g.nbuf, s.disk, s.cache, g.start, s.held + {}, mid) && HeaderFits(g, s.(cache := mid), [])
    requires s' == WriteHeader(g, s.(cache := mid, lh := [])).(mode := s'.mode, procs := s'.procs)
    ensures Safe(g, s', h, v) && RecoversTo(g, s'.disk, h) && Home(g, s'.disk) == h
  {
    ReadSafe(g, s, g.start, {}, s.(cache := mid), h, v);
    ClearStep(g, s.(cache := mid), s', h, v);
  }

  lemma ExtendsMore(g: Geometry, t0: seq<Disk>, t1: seq<Disk>, d: Disk, h: Disk)
    requires Extends(g, t0, t1, h) && RecoversTo(g, d, h)
    ensures Extends(g, t0, t1 + [d], h)
  {
  }

  lemma ExtendsTrans(g: Geometry, t0: seq<Disk>, t1: seq<Disk>, t2: seq<Disk>, h: Disk)
    requires Extends(g, t0, t1, h) && Extends(g, t1, t2, h)
    ensures Extends(g, t0, t2, h)
  {
  }

  // ---------------------------------------------------------------- the code

  class Log {
    const g: Geometry
    var disk: Disk
    var cache: map<nat, Buf>
    var held: set<nat>            // the blocks whose buffers other processes hold
    var outstanding: int
    var n: nat                    // log.lh.n
    const block: array<nat>       // log.lh.block
    ghost var trace: seq<Disk>    // the disk after each bwrite, oldest first

    /** `initlog` up to the call of `recover_from_log`. */
    constructor (start: nat, size: nat, nbuf: nat, hands: Pos, disk: Disk)
      ensures g == Geometry(start, size, nbuf, hands) && this.disk == disk
      ensures cache == map[] && held == {} && n == 0 && outstanding == 0
      ensures block.Length == LOGSIZE && fresh(block) && trace == []
    {
      this.g := Geometry(start, size, nbuf, hands);
      this.disk := disk;
      this.cache := map[];
      this.held := {};
      this.outstanding := 0;
      this.n := 0;
      this.block := new nat[LOGSIZE];
      this.trace := [];
    }

    ghost predicate Shape()
      reads this`n
    {
      block.Length == LOGSIZE && n <= LOGSIZE
    }

    ghost function Lh(): seq<nat>
      requires Shape()
      reads this`n, block
    {
      block[..n]
    }

    /** The machine state in which this log is at commit phase pc. */
    ghost function Committing(pc: CommitPc): State
      requires Shape()
      reads this, block
    {
      State(Running, disk, cache, Lh(), outstanding, true, [Committer(pc)], held)
    }

    /** The machine state in which this log is recovering. */
    ghost function Recovering(mode: Mode): State
      requires Shape()
      reads this, block
    {
      State(mode, disk, cache, Lh(), outstanding, false, [], held)
    }

    /** The state after i blocks of `write_log`. */
    ghost function Logging(i: nat): State
      requires Shape()
      reads this, block
    {
      Committing(if i < n then WriteLog(i) else WriteHead)
    }

    /** The state after i blocks of `install_trans`, called by `commit` or at boot. */
    ghost function Installing(boot: bool, i: nat): State
      requires Shape()
      reads this, block
    {
      if boot then Recovering(if i < n then Replaying(i) else ClearHead)
      else Committing(if i < n then Install(i) else Clear)
    }

    /** The state after the header has been erased. */
    ghost function Erased(boot: bool): State
      requires Shape()
      reads this, block
    {
      if boot then Recovering(Running) else Committing(Finish)
    }

    /** `bread` of b by a caller that holds the buffers of `own`. */
    method BRead(b: nat, own: set<nat>) returns (ok: bool, x: Sector)
      requires b in disk
      modifies this`cache
      ensures ok <==> !NoneFree(g.nbuf, old(cache), b, held + own)
      ensures ok ==> GotCache(g.nbuf, disk, old(cache), b, held + own, cache) && b in cache && x == cache[b].data
      ensures !ok ==> cache == old(cache)
    {
      if b !in cache {
        if |cache.Keys| >= g.nbuf {
          if v :| v in cache && !cache[v].dirty && v !in held && v !in own {
            assert Reused(disk, cache, b, held + own, v, (cache - {v})[b := Buf(disk[b], false)]);
            assert Free(cache, v, held + own);
            cache := cache - {v};
          } else {
            return false, Data([]);
          }
        }
        cache := cache[b := Buf(disk[b], false)];
      }
      return true, cache[b].data;
    }

    /** `memmove` of x into the cached copy of b, then `bwrite`. */
    method BWrite(b: nat, x: Sector)
      requires b in cache
      modifies this`disk, this`cache, this`trace
      ensures disk == old(disk)[b := x] && cache == old(cache)[b := Buf(x, false)]
      ensures trace == old(trace) + [disk]
    {
      cache := cache[b := Buf(x, cache[b].dirty)];
      disk := disk[b := cache[b].data];
      cache := cache[b := Buf(cache[b].data, false)];
      trace := trace + [disk];
    }

    /** `log_write` of a block the caller has modified in the cache: a block already in the
        transaction is absorbed, another is appended, and either way it is pinned. */
    method LogWrite(b: nat) returns (panic: bool)
      requires Shape() && b in cache
      modifies this`cache, this`n, block
      ensures Shape()
      ensures panic <==> old(n) >= LOGSIZE || old(n) >= g.size - 1 || outstanding < 1
      ensures panic ==> Lh() == old(Lh()) && cache == old(cache)
      ensures !panic ==>
        && Lh() == (if b in old(Lh()) then old(Lh()) else old(Lh()) + [b])
        && cache == old(cache)[b := Buf(old(cache)[b].data, true)]
    {
      if n >= LOGSIZE || n >= g.size - 1 || outstanding < 1 {
        return true;
      }
      var i := 0;
      while i < n && block[i] != b
        invariant i <= n && b !in block[..i]
      {
        i := i + 1;
      }
      ghost var was := Lh();
      block[i] := b;
      if i == n {
        n := n + 1;
      }
      assert Lh() == if b in was then was else was + [b];
      cache := cache[b := cache[b].(dirty := true)];
      panic := false;
    }

    /** Other processes hold home blocks only, and this one may take a buffer. */
    ghost predicate Alone()
      reads this`held
    {
      |held| < g.hands && forall b :: b in held ==> !g.InLog(b)
    }

    /** The transaction from block i on and what others hold leave a buffer. */
    ghost predicate BufferFree(i: nat)
      requires Shape() && i <= n
      reads this`n, this`held, block
    {
      |Elems(Lh()[i..]) + held| < g.nbuf
    }

    /** The body of the loop of `write_log`; it panics exactly when the transaction and what
        others hold take every buffer. */
    method LogBlock(tail: nat, ghost h: Disk, ghost v: Disk, ghost t: seq<Disk>) returns (ok: bool)
      requires Shape() && Alone() && tail < n && Safe(g, Logging(tail), h, v) && Extends(g, t, trace, h)
      modifies this`disk, this`cache, this`trace
      ensures ok <==> BufferFree(0)
      ensures ok ==> Safe(g, Logging(tail + 1), h, v) && Extends(g, t, trace, h) && trace == old(trace) + [disk]
      ensures !ok ==> disk == old(disk) && cache == old(cache) && trace == old(trace)
    {
      ghost var s := Logging(tail);
      assert s == s.(disk := disk, cache := cache, lh := Lh()[0..], held := held + {});
      PairExists(g, s, h, v, tail);
      PairReadable(g, s, h, v, tail);
      var to, from;
      ok, to := BRead(g.Slot(tail), {});
      if !ok {
        return;
      }
      ghost var s1 := Logging(tail);
      ReadSafe(g, s, g.Slot(tail), {}, s1, h, v);
      ok, from := BRead(block[tail], {g.Slot(tail)});
      BWrite(g.Slot(tail), from);
      CopyStep(g, s1, Logging(tail + 1), h, v, tail);
      ExtendsMore(g, t, old(trace), disk, h);
    }

    /** `write_log`: copy the transaction from the cache to the log blocks. */
    method WriteLogBlocks(ghost h: Disk, ghost v: Disk) returns (ok: bool)
      requires Shape() && Alone() && n > 0 && Safe(g, Logging(0), h, v)
      modifies this`disk, this`cache, this`trace
      ensures ok <==> BufferFree(0)
      ensures ok ==> Safe(g, Logging(n), h, v) && Extends(g, old(trace), trace, h)
      ensures !ok ==> disk == old(disk) && cache == old(cache) && trace == old(trace)
    {
      var tail := 0;
      while tail < n
        invariant tail <= n && Safe(g, Logging(tail), h, v)
        invariant Extends(g, old(trace), trace, h)
        invariant if tail == 0 then disk == old(disk) && cache == old(cache) && trace == old(trace) else BufferFree(0)
      {
        ok := LogBlock(tail, h, v, old(trace));
        if !ok {
          return;
        }
        tail := tail + 1;
      }
      ok := true;
    }

    /** The two reads of a turn of `install_trans`. */
    method ReadPair(ghost boot: bool, tail: nat, ghost h: Disk, ghost v: Disk) returns (ok: bool, lbuf: Sector)
      requires Shape() && Alone() && tail < n && Safe(g, Installing(boot, tail), h, v)
      modifies this`cache
      ensures ok <==> if boot then g.nbuf >= 2 else BufferFree(tail)
      ensures ok ==> Safe(g, Installing(boot, tail), h, v) && block[tail] in cache
      ensures ok ==> g.Slot(tail) in cache && lbuf == cache[g.Slot(tail)].data
    {
      ghost var s := Installing(boot, tail);
      PairExists(g, s, h, v, tail);
      assert held + {} == held;
      if boot {
        RecoveryReadable(g, s, h, v, g.Slot(tail), {});
        SlotCached(g, s, h, v, g.Slot(tail));
      } else {
        PairReadable(g, s, h, v, tail);
      }
      ok, lbuf := BRead(g.Slot(tail), {});
      if !ok {
        return;
      }
      ghost var s1 := Installing(boot, tail);
      ReadSafe(g, s, g.Slot(tail), {}, s1, h, v);
      if boot {
        RecoveryReadable(g, s1, h, v, block[tail], {g.Slot(tail)});
        PairCached(g, s1, h, v, g.Slot(tail), block[tail]);
      }
      ok := ReadSecond(boot, tail, h, v);
    }

    method ReadSecond(ghost boot: bool, tail: nat, ghost h: Disk, ghost v: Disk) returns (ok: bool)
      requires Shape() && Alone() && tail < n && Safe(g, Installing(boot, tail), h, v)
      requires block[tail] in disk && block[tail] != g.Slot(tail) && g.Slot(tail) in cache
      modifies this`cache
      ensures ok <==> !NoneFree(g.nbuf, old(cache), block[tail], held + {g.Slot(tail)})
      ensures ok ==> Safe(g, Installing(boot, tail), h, v) && block[tail] in cache
      ensures ok ==> g.Slot(tail) in cache && cache[g.Slot(tail)] == old(cache)[g.Slot(tail)]
      ensures ok && boot ==> g.nbuf >= 2
    {
      ghost var s := Installing(boot, tail);
      var dbuf;
      ok, dbuf := BRead(block[tail], {g.Slot(tail)});
      if ok {
        InstallSolo(g, s, h, v);
        ReadSafe(g, s, block[tail], {g.Slot(tail)}, Installing(boot, tail), h, v);
        PairCached(g, Installing(boot, tail), h, v, g.Slot(tail), block[tail]);
      }
    }

    /** The body of the loop of `install_trans`; it panics exactly at boot with fewer than
        two buffers, or when the blocks still pinned and what others hold take every one. */
    method InstallBlock(ghost boot: bool, tail: nat, ghost h: Disk, ghost v: Disk, ghost t: seq<Disk>)
      returns (ok: bool)
      requires Shape() && Alone() && tail < n && Safe(g, Installing(boot, tail), h, v) && Extends(g, t, trace, h)
      modifies this`disk, this`cache, this`trace
      ensures ok <==> if boot then g.nbuf >= 2 else BufferFree(tail)
      ensures !boot && BufferFree(0) ==> ok
      ensures ok ==> Safe(g, Installing(boot, tail + 1), h, v)
      ensures ok ==> Extends(g, t, trace, h) && trace == old(trace) + [disk]
      ensures !ok ==> disk == old(disk) && trace == old(trace)
    {
      FewerPinned(Lh(), tail, held);
      var lbuf;
      ok, lbuf := ReadPair(boot, tail, h, v);
      if ok {
        ghost var s := Installing(boot, tail);
        BWrite(block[tail], lbuf);
        if boot {
          ReplayStep(g, s, Installing(boot, tail + 1), h, v, tail);
        } else {
          CopyStep(g, s, Installing(boot, tail + 1), h, v, tail);
        }
        ExtendsMore(g, t, old(trace), disk, h);
      }
    }

    /** `install_trans`: copy the log blocks to their homes. */
    method InstallTrans(ghost boot: bool, ghost h: Disk, ghost v: Disk) returns (ok: bool)
      requires Shape() && Alone() && Safe(g, Installing(boot, 0), h, v)
      modifies this`disk, this`cache, this`trace
      ensures ok <==> n == 0 || if boot then g.nbuf >= 2 else BufferFree(0)
      ensures ok ==> Safe(g, Installing(boot, n), h, v) && Extends(g, old(trace), trace, h)
      ensures !ok ==> disk == old(disk) && trace == old(trace)
    {
      var tail := 0;
      while tail < n
        invariant tail <= n && Safe(g, Installing(boot, tail), h, v)
        invariant Extends(g, old(trace), trace, h)
        invariant tail == 0 ==> disk == old(disk) && trace == old(trace)
        invariant tail > 0 ==> if boot then g.nbuf >= 2 else BufferFree(0)
      {
        ok := InstallBlock(boot, tail, h, v, old(trace));
        if !ok {
          return;
        }
        tail := tail + 1;
      }
      ok := true;
    }

    /** `write_head`: store the in-memory header at the start of the log. */
    method WriteHeadBlock() returns (ok: bool, ghost mid: map<nat, Buf>)
      requires Shape() && HasHead(g, disk) && (g.start in cache ==> cache[g.start].data == disk[g.start])
      modifies this`disk, this`cache, this`trace
      ensures ok <==> !NoneFree(g.nbuf, old(cache), g.start, held + {})
      ensures ok ==> GotCache(g.nbuf, old(disk), old(cache), g.start, held + {}, mid)
      ensures ok ==> var s := old(Recovering(ClearHead)).(cache := mid);
        && HeaderFits(g, s, Lh()) && s.cache[g.start].data == old(disk)[g.start]
        && Recovering(ClearHead) == WriteHeader(g, s)
      ensures ok ==> trace == old(trace) + [disk]
      ensures !ok ==> disk == old(disk) && cache == old(cache) && trace == old(trace)
    {
      var buf;
      ok, buf := BRead(g.start, {});
      mid := cache;
      if !ok {
        return;
      }
      var hb := NewEntries(buf.block);
      BWrite(g.start, Head(n, hb));
    }

    /** The loop of `write_head`: its entries replace the first ones of the header block. */
    method NewEntries(entries: seq<nat>) returns (hb: seq<nat>)
      requires Shape() && |entries| == LOGSIZE
      ensures hb == Lh() + entries[n..]
    {
      hb := entries;
      for i := 0 to n
        invariant |hb| == |entries|
        invariant hb[..i] == block[..i] && hb[i..] == entries[i..]
      {
        hb := hb[i := block[i]];
        assert hb[..i + 1] == hb[..i] + [block[i]];
      }
      assert hb == Lh() + entries[n..];
    }

    /** `log.lh.n = 0; write_head();` */
    method EraseHead(ghost boot: bool, ghost h: Disk, ghost v: Disk) returns (ok: bool)
      requires Shape() && Alone() && Safe(g, Installing(boot, n), h, v)
      modifies this`disk, this`cache, this`n, this`trace
      ensures Shape() && n == 0 && (ok <==> |held| < g.nbuf)
      ensures ok ==> Safe(g, Erased(boot), h, v) && Home(g, disk) == h && RecoversTo(g, disk, h)
      ensures ok ==> trace == old(trace) + [disk]
      ensures !ok ==> disk == old(disk) && trace == old(trace)
    {
      ghost var s := Installing(boot, n);
      HeaderOnDisk(g, s, h, v);
      EraseReadable(g, s, h, v);
      n := 0;
      ok := WriteEmptyHead(boot, s, h, v);
    }

    /** `write_head` when the in-memory header has been emptied; s is the state before that. */
    method WriteEmptyHead(ghost boot: bool, ghost s: State, ghost h: Disk, ghost v: Disk) returns (ok: bool)
      requires Shape() && n == 0 && Safe(g, s, h, v) && Solo(s) && HandFree(g, s)
      requires s.disk == disk && s.cache == cache && s.held == held && s.outstanding == outstanding
      requires HasHead(g, disk) && (g.start in cache ==> cache[g.start].data == disk[g.start])
      requires if boot then s.mode == ClearHead && s.procs == [] && !s.committing
               else s.mode == Running && s.procs == [Committer(Clear)] && s.committing
      modifies this`disk, this`cache, this`trace
      ensures ok <==> !NoneFree(g.nbuf, old(cache), g.start, held + {})
      ensures ok ==> Safe(g, Erased(boot), h, v) && Home(g, disk) == h && RecoversTo(g, disk, h)
      ensures ok ==> trace == old(trace) + [disk]
      ensures !ok ==> disk == old(disk) && trace == old(trace)
    {
      ghost var mid;
      ok, mid := WriteHeadBlock();
      if ok {
        assert Lh() == [];
        EraseStep(g, s, mid, Erased(boot), h, v);
      }
    }

    /** `read_head`: fetch the header found at boot. */
    method ReadHeader(ghost h: Disk, ghost v: Disk) returns (ok: bool)
      requires Shape() && Safe(g, Recovering(ReadHead), h, v)
      modifies this`cache, this`n, block
      ensures Shape() && (ok <==> g.nbuf > 0)
      ensures ok ==> HasHead(g, disk) && Lh() == Logged(g, disk) && Safe(g, Installing(true, 0), h, v)
    {
      ghost var s := Recovering(ReadHead);
      HeaderOnDisk(g, s, h, v);
      RecoveryReadable(g, s, h, v, g.start, {});
      SlotCached(g, s, h, v, g.start);
      var buf;
      ok, buf := BRead(g.start, {});
      if !ok {
        return;
      }
      ghost var s1 := Recovering(ReadHead);
      ReadSafe(g, s, g.start, {}, s1, h, v);
      HeaderOnDisk(g, s1, h, v);
      n := buf.n;
      for i := 0 to n
        invariant block[..i] == buf.block[..i]
        modifies block
      {
        block[i] := buf.block[i];
        assert block[..i + 1] == block[..i] + [buf.block[i]];
      }
      assert Lh() == buf.block[..buf.n];
      ReadHeadStep(g, s1, Installing(true, 0), h, v);
    }

    /** `recover_from_log`: when it returns the home blocks hold what the log stood for,
        the header is empty, and a crash at any of its writes would have lost nothing. It
        needs one buffer, and two when there is something to replay; without them it panics
        before it has written anything. */
    method RecoverFromLog() returns (ok: bool)
      requires Shape() && Inv(g, Recovering(ReadHead))
      modifies this`disk, this`cache, this`n, this`trace, block
      ensures Shape() && (ok <==> g.nbuf >= if old(Logged(g, disk)) == [] then 1 else 2)
      ensures ok ==> n == 0 && Inv(g, Recovering(Running))
      ensures ok ==> Home(g, disk) == old(Home(g, Recovered(g, disk)))
      ensures ok ==> Extends(g, old(trace), trace, old(Home(g, Recovered(g, disk))))
      ensures !ok ==> disk == old(disk)
    {
      ghost var h := Home(g, Recovered(g, disk));
      assert Safe(g, Recovering(ReadHead), h, map[]);
      ok := ReadHeader(h, map[]);
      if ok {
        ok := InstallTrans(true, h, map[]);
        if ok {
          ghost var t := trace;
          ok := EraseHead(true, h, map[]);
          Unfold(g, Recovering(Running), h, map[]);
          ExtendsMore(g, old(trace), t, disk, h);
        }
      }
    }

    /** The write of the header that makes the transaction permanent. */
    method CommitHead(ghost h: Disk, ghost v: Disk) returns (ok: bool)
      requires Shape() && Alone() && n > 0 && Safe(g, Logging(n), h, v)
      modifies this`disk, this`cache, this`trace
      ensures ok <==> BufferFree(0)
      ensures ok ==> Safe(g, Installing(false, 0), v, v) && RecoversTo(g, disk, v) && trace == old(trace) + [disk]
      ensures !ok ==> disk == old(disk) && cache == old(cache) && trace == old(trace)
    {
      ghost var s := Logging(n);
      assert Lh()[0..] == Lh();
      HeaderOnDisk(g, s, h, v);
      HeaderReadable(g, s, h, v);
      assert held + {} == held;
      ghost var mid;
      ok, mid := WriteHeadBlock();
      if ok {
        ReadSafe(g, s, g.start, {}, s.(cache := mid), h, v);
        HeadStep(g, s.(cache := mid), Installing(false, 0), h, v);
      }
    }

    /** `commit` of a non-empty transaction: it panics exactly when that and what others hold
        take every buffer, before anything is written. */
    method CommitBlocks(ghost h: Disk, ghost v: Disk) returns (ok: bool)
      requires Shape() && Alone() && n > 0 && Safe(g, Logging(0), h, v)
      modifies this`disk, this`cache, this`n, this`trace
      ensures Shape() && (ok <==> old(BufferFree(0)))
      ensures ok ==> n == 0 && Safe(g, Committing(Finish), v, v) && Home(g, disk) == v && RecoversTo(g, disk, v)
      ensures ok ==> Switches(g, old(trace), trace, h, v)
      ensures !ok ==> disk == old(disk) && cache == old(cache) && n == old(n) && trace == old(trace)
    {
      FewerPinned(Lh(), 0, held);
      ok := WriteLogBlocks(h, v);
      if !ok {
        return;
      }
      assert |held| < g.nbuf;
      ghost var t := trace;
      var _ := CommitHead(h, v);
      ghost var t1 := trace;
      ExtendsMore(g, t, t, disk, v);
      var _ := InstallTrans(false, v, v);
      ghost var t2 := trace;
      ExtendsTrans(g, t, t1, t2, v);
      var _ := EraseHead(false, v, v);
      ExtendsMore(g, t, t2, disk, v);
    }

    /** `commit`: when it returns the disk holds what readers saw, the header is empty, and
        there is one write such that a crash before it loses the whole transaction while a
        crash after it loses nothing. It panics exactly when the transaction and what other
        processes hold take every buffer, and then nothing has been written. */
    method CommitTransaction() returns (ok: bool)
      requires Shape() && Alone() && Inv(g, if n > 0 then Logging(0) else Committing(Finish))
      modifies this`disk, this`cache, this`n, this`trace
      ensures Shape() && (ok <==> old(n) == 0 || old(BufferFree(0)))
      ensures ok ==> n == 0 && Inv(g, Committing(Finish))
      ensures ok ==> View(g, Committing(Finish)) == old(View(g, Committing(Finish)))
      ensures ok ==> Home(g, disk) == old(View(g, Committing(Finish)))
      ensures ok ==> RecoversTo(g, disk, old(View(g, Committing(Finish))))
      ensures ok ==> Switches(g, old(trace), trace, old(Home(g, Recovered(g, disk))), old(View(g, Committing(Finish))))
      ensures !ok ==> disk == old(disk) && cache == old(cache) && n == old(n) && trace == old(trace)
    {
      ghost var h, v := Home(g, Recovered(g, disk)), View(g, Committing(Finish));
      if n > 0 {
        assert Safe(g, Logging(0), h, v);
        ok := CommitBlocks(h, v);
        if ok {
          Unfold(g, Committing(Finish), v, v);
        }
      } else {
        FinishedView(g, Committing(Finish));
        assert Extends(g, trace, trace, h) && Extends(g, trace, trace, v);
        ok := true;
      }
    }
  }

  lemma InstallSolo(g: Geometry, s: State, h: Disk, v: Disk)
    requires Safe(g, s, h, v) && (Recovering(s) || (s.mode == Running && |s.procs| == 1 && s.procs[0].Committer?))
    ensures Solo(s)
  {
    Unfold(g, s, h, v);
    if s.mode == Running {
      CommitAlone(g, s, 0);
    }
  }

  lemma FewerPinned(lh: seq<nat>, i: nat, held: set<nat>)
    requires i <= |lh|
    ensures |Elems(lh[i..]) + held| <= |Elems(lh[0..]) + held| && |held| <= |Elems(lh[0..]) + held|
  {
    assert forall j :: 0 <= j < |lh| - i ==> lh[i..][j] == lh[0..][i + j];
    SubsetFew(Elems(lh[i..]) + held, Elems(lh[0..]) + held);
    SubsetFew(held, Elems(lh[0..]) + held);
  }

  /** A cached block takes a buffer; two take two. */
  lemma SlotCached(g: Geometry, s: State, h: Disk, v: Disk, b: nat)
    requires Safe(g, s, h, v)
    ensures b in s.cache ==> g.nbuf >= 1
  {
    Unfold(g, s, h, v);
    if b in s.cache {
      SubsetFew({b}, s.cache.Keys);
    }
  }

  lemma PairCached(g: Geometry, s: State, h: Disk, v: Disk, b: nat, c: nat)
    requires Safe(g, s, h, v) && b != c
    ensures b in s.cache && c in s.cache ==> g.nbuf >= 2
  {
    Unfold(g, s, h, v);
    if b in s.cache && c in s.cache {
      SubsetFew({b, c}, s.cache.Keys);
    }
  }

  /** With nothing pending, readers see the disk. */
  lemma FinishedView(g: Geometry, s: State)
    requires Inv(g, s) && s.mode == Running && s.procs == [Committer(Finish)]
    ensures Home(g, s.disk) == View(g, s) && RecoversTo(g, s.disk, View(g, s))
  {
    CommitAlone(g, s, 0);
    RecoveredHome(g, s.disk);
    assert View(g, s).Keys == Home(g, s.disk).Keys;
    assert Home(g, s.disk) == Home(g, Recovered(g, s.disk));
  }
}
