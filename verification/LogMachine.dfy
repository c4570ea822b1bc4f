/** Concurrent file-system operations over the log, with a crash possible between
    any two single-block writes.

    A process is outside any operation, inside one, in the middle of a `log_write`,
    or running the commit. Every section the code runs under `log.lock` is one step,
    every `bwrite` is one step, and the unlocked size test of `log_write` is a step
    of its own, so that other processes can run between the test and the append.

    The cache has NBUF buffers. A block must be in one to be used; getting it there
    recycles a buffer that is neither pinned nor being modified nor held by a reader, and
    panics when there is none. */
module LogMachine {
  import opened LogDisk

  /** A cached copy of a block; dirty means pinned by `log_write`. */
  datatype Buf = Buf(data: Sector, dirty: bool)

  datatype CommitPc = WriteLog(i: nat) | WriteHead | Install(i: nat) | Clear | Finish

  /** `blocks` are the distinct blocks an operation has passed to `log_write`. */
  datatype Proc =
    | Idle
    | Op(blocks: set<nat>)
    | Writing(blocks: set<nat>, b: nat, checked: bool)
    | Committer(pc: CommitPc)

  datatype Mode = Running | ReadHead | Replaying(i: nat) | ClearHead | Panicked

  /** `lh` is the in-memory list `log.lh.block[0..log.lh.n]`. `held` are the
      blocks whose buffer some process holds without having modified it. */
  datatype State = State(mode: Mode, disk: Disk, cache: map<nat, Buf>, lh: seq<nat>,
                         outstanding: int, committing: bool, procs: seq<Proc>, held: set<nat>)

  datatype Step =
    | BeginOp(p: nat)
    | Modify(p: nat, b: nat, data: seq<Byte>)
    | Check(p: nat)
    | Append(p: nat)
    | EndOp(p: nat)
    | Commit(p: nat)
    | Load(b: nat)
    | Evict(b: nat)
    | Hold(b: nat)
    | Release(b: nat)
    | Crash
    | Recover

  function Read(s: State, b: nat): Sector
    requires b in s.cache || b in s.disk
  {
    if b in s.cache then s.cache[b].data else s.disk[b]
  }

  /** `bwrite` followed by `brelse`: disk and cached copy agree and are clean. */
  function BWrite(s: State, b: nat, x: Sector): State {
    s.(disk := s.disk[b := x], cache := s.cache[b := Buf(x, false)])
  }

  /** The header `write_head` stores: the first n entries replaced, the rest kept. */
  function NewHead(h: Sector, lh: seq<nat>): Sector
    requires h.Head? && |lh| <= |h.block|
  {
    Head(|lh|, lh + h.block[|lh|..])
  }

  /** The header block is cached and has room for `lh`. */
  predicate HeaderFits(g: Geometry, s: State, lh: seq<nat>) {
    g.start in s.cache && s.cache[g.start].data.Head? && |lh| <= |s.cache[g.start].data.block|
  }

  function WriteHeader(g: Geometry, s: State): State
    requires HeaderFits(g, s, s.lh)
  {
    BWrite(s, g.start, NewHead(Read(s, g.start), s.lh))
  }

  /** `log_write` gives up when this holds. */
  predicate LogFull(g: Geometry, s: State) {
    |s.lh| >= LOGSIZE || |s.lh| >= g.size - 1
  }

  predicate IsOp(q: Proc) {
    q.Op? || q.Writing?
  }

  /** Log space an operation may still claim. */
  function Unused(q: Proc): int {
    if IsOp(q) then MAXOPBLOCKS - |q.blocks| else 0
  }

  function Count(q: Proc): int {
    if IsOp(q) then 1 else 0
  }

  function Total(ps: seq<Proc>, f: Proc -> int): int {
    if ps == [] then 0 else Total(ps[..|ps| - 1], f) + f(ps[|ps| - 1])
  }

  predicate BeingWritten(ps: seq<Proc>, b: nat) {
    exists q :: 0 <= q < |ps| && ps[q].Writing? && ps[q].b == b
  }

  /** A buffer that `bget` may recycle. */
  predicate Recyclable(s: State, b: nat) {
    b in s.cache && !s.cache[b].dirty && !BeingWritten(s.procs, b) && b !in s.held
  }

  /** Some process can take a further buffer. */
  predicate HandFree(g: Geometry, s: State) {
    |s.held| < g.hands
  }

  /** `bget` of a block that is not cached panics when this holds. */
  predicate NoBuffer(g: Geometry, s: State) {
    |s.cache.Keys| >= g.nbuf && forall b :: b in s.cache ==> !Recyclable(s, b)
  }

  /** The blocks the next commit step touches are cached. */
  predicate CommitReady(g: Geometry, s: State, pc: CommitPc) {
    match pc
    case WriteLog(i) => i < |s.lh| && s.lh[i] in s.cache && g.Slot(i) in s.cache
    case WriteHead => HeaderFits(g, s, s.lh)
    case Install(i) => i < |s.lh| && s.lh[i] in s.cache && g.Slot(i) in s.cache
    case Clear => HeaderFits(g, s, [])
    case Finish => true
  }

  predicate RecoverReady(g: Geometry, s: State) {
    match s.mode
    case ReadHead =>
      g.start in s.cache && s.cache[g.start].data.Head? && s.cache[g.start].data.n <= |s.cache[g.start].data.block|
    case Replaying(i) => i < |s.lh| && s.lh[i] in s.cache && g.Slot(i) in s.cache
    case ClearHead => HeaderFits(g, s, [])
    case _ => false
  }

  predicate Enabled(g: Geometry, s: State, e: Step) {
    match e
    case Crash => true
    case Recover => RecoverReady(g, s)
    case Load(b) =>
      && s.mode != Panicked && b in s.disk && b !in s.cache && HandFree(g, s)
      && (|s.cache.Keys| < g.nbuf || NoBuffer(g, s))
    case Evict(b) => s.mode != Panicked && Recyclable(s, b)
    case Hold(b) =>
      && s.mode == Running && HandFree(g, s)
      && b in s.cache && b !in s.held && !BeingWritten(s.procs, b)
    case Release(b) => s.mode == Running && b in s.held
    case BeginOp(p) =>
      && s.mode == Running && p < |s.procs| && s.procs[p].Idle?
      && !s.committing
      && |s.lh| + (s.outstanding + 1) * MAXOPBLOCKS <= LOGSIZE
    case Modify(p, b, _) =>
      && s.mode == Running && p < |s.procs| && s.procs[p].Op?
      && b in s.cache && b !in s.held && !g.InLog(b)
      && |s.procs[p].blocks + {b}| <= MAXOPBLOCKS
      && (forall q :: 0 <= q < |s.procs| && s.procs[q].Writing? ==> s.procs[q].b != b)
    case Check(p) =>
      s.mode == Running && p < |s.procs| && s.procs[p].Writing? && !s.procs[p].checked
    case Append(p) =>
      && s.mode == Running && p < |s.procs| && s.procs[p].Writing? && s.procs[p].checked
      && s.procs[p].b in s.cache
    case EndOp(p) => s.mode == Running && p < |s.procs| && s.procs[p].Op?
    case Commit(p) =>
      && s.mode == Running && p < |s.procs| && s.procs[p].Committer?
      && CommitReady(g, s, s.procs[p].pc)
  }

  function CommitStep(g: Geometry, s: State, p: nat): State
    requires p < |s.procs| && s.procs[p].Committer? && CommitReady(g, s, s.procs[p].pc)
  {
    match s.procs[p].pc
    case WriteLog(i) =>
      BWrite(s, g.Slot(i), Read(s, s.lh[i])).
      (procs := s.procs[p := Committer(if i + 1 < |s.lh| then WriteLog(i + 1) else WriteHead)])
    case WriteHead =>
      WriteHeader(g, s).(procs := s.procs[p := Committer(if |s.lh| > 0 then Install(0) else Clear)])
    case Install(i) =>
      BWrite(s, s.lh[i], Read(s, g.Slot(i))).
      (procs := s.procs[p := Committer(if i + 1 < |s.lh| then Install(i + 1) else Clear)])
    case Clear =>
      WriteHeader(g, s.(lh := [])).(procs := s.procs[p := Committer(Finish)])
    case Finish =>
      s.(committing := false, procs := s.procs[p := Idle])
  }

  function RecoverStep(g: Geometry, s: State): State
    requires RecoverReady(g, s)
  {
    match s.mode
    case ReadHead =>
      var h := Read(s, g.start);
      s.(lh := h.block[..h.n], mode := if h.n == 0 then ClearHead else Replaying(0))
    case Replaying(i) =>
      BWrite(s, s.lh[i], Read(s, g.Slot(i))).
      (mode := if i + 1 < |s.lh| then Replaying(i + 1) else ClearHead)
    case ClearHead =>
      WriteHeader(g, s.(lh := [])).(mode := Running)
  }

  function Apply(g: Geometry, s: State, e: Step): State
    requires Enabled(g, s, e)
  {
    match e
    case BeginOp(p) =>
      s.(outstanding := s.outstanding + 1, procs := s.procs[p := Op({})])
    case Modify(p, b, data) =>
      s.(cache := s.cache[b := Buf(Data(data), s.cache[b].dirty)],
         procs := s.procs[p := Writing(s.procs[p].blocks, b, false)])
    case Check(p) =>
      if LogFull(g, s) || s.outstanding < 1 then s.(mode := Panicked)
      else s.(procs := s.procs[p := s.procs[p].(checked := true)])
    case Append(p) =>
      var b := s.procs[p].b;
      s.(lh := if b in s.lh then s.lh else s.lh + [b],
         cache := s.cache[b := s.cache[b].(dirty := true)],
         procs := s.procs[p := Op(s.procs[p].blocks + {b})])
    case EndOp(p) =>
      if s.committing then s.(mode := Panicked, outstanding := s.outstanding - 1)
      else if s.outstanding - 1 == 0 then
        s.(outstanding := 0, committing := true,
           procs := s.procs[p := Committer(if |s.lh| > 0 then WriteLog(0) else Finish)])
      else
        s.(outstanding := s.outstanding - 1, procs := s.procs[p := Idle])
    case Commit(p) => CommitStep(g, s, p)
    case Load(b) =>
      if |s.cache.Keys| < g.nbuf then s.(cache := s.cache[b := Buf(s.disk[b], false)])
      else s.(mode := Panicked)
    case Evict(b) => s.(cache := s.cache - {b})
    case Hold(b) => s.(held := s.held + {b})
    case Release(b) => s.(held := s.held - {b})
    case Crash =>
      s.(mode := ReadHead, cache := map[], lh := [], outstanding := 0, committing := false,
         procs := seq(|s.procs|, _ => Idle), held := {})
    case Recover => RecoverStep(g, s)
  }

  /** What a read through the cache sees outside the log. */
  ghost function View(g: Geometry, s: State): Disk
    requires s.cache.Keys <= s.disk.Keys
  {
    map b | b in s.disk && !g.InLog(b) :: Read(s, b)
  }

  // ---------------------------------------------------------------- invariant

  /** Cached copies that are neither dirty nor being modified equal the disk. */
  ghost predicate CacheOk(s: State) {
    && s.cache.Keys <= s.disk.Keys
    && (forall b :: b in s.cache && !s.cache[b].dirty && !BeingWritten(s.procs, b)
          ==> s.cache[b].data == s.disk[b])
  }

  ghost predicate ProcOk(g: Geometry, s: State, q: Proc)
    requires DiskOk(g, s.disk)
  {
    match q
    case Idle => true
    case Op(bs) =>
      && !s.committing && |bs| <= MAXOPBLOCKS
      && (forall b :: b in bs ==> b in s.lh)
    case Writing(bs, b, checked) =>
      && !s.committing && |bs + {b}| <= MAXOPBLOCKS
      && (forall c :: c in bs ==> c in s.lh)
      && b in s.cache && !g.InLog(b) && (checked ==> g.size > 1)
    case Committer(pc) => s.committing && PhaseOk(g, s, pc)
  }

  ghost predicate PhaseOk(g: Geometry, s: State, pc: CommitPc)
    requires DiskOk(g, s.disk)
  {
    match pc
    case WriteLog(i) =>
      && i < |s.lh| && Logged(g, s.disk) == [] && Pinned(s, 0) && Copied(g, s, i)
      && (i > 0 ==> |s.lh| < g.nbuf)
    case WriteHead =>
      && 0 < |s.lh| < g.nbuf && Logged(g, s.disk) == [] && Pinned(s, 0) && Copied(g, s, |s.lh|)
    case Install(i) =>
      && i < |s.lh| && Logged(g, s.disk) == s.lh && Pinned(s, i)
      && Copied(g, s, |s.lh|) && Installed(g, s, i) && |s.lh| < g.nbuf
    case Clear =>
      Logged(g, s.disk) == s.lh && Installed(g, s, |s.lh|) && |s.lh| < g.nbuf
    case Finish => s.lh == [] && Logged(g, s.disk) == []
  }

  /** Blocks of the transaction from the i-th on are pinned in the cache, and only they. */
  ghost predicate Pinned(s: State, i: nat) {
    && (forall j :: i <= j < |s.lh| ==> s.lh[j] in s.cache && s.cache[s.lh[j]].dirty)
  }

  /** The first i log blocks hold the cached contents of the transaction. */
  ghost predicate Copied(g: Geometry, s: State, i: nat)
    requires i <= |s.lh|
  {
    forall j :: 0 <= j < i ==>
      g.Slot(j) in s.disk && s.lh[j] in s.disk && s.disk[g.Slot(j)] == Read(s, s.lh[j])
  }

  /** The first i blocks of the transaction have reached their home. */
  ghost predicate Installed(g: Geometry, s: State, i: nat)
    requires i <= |s.lh|
  {
    forall j :: 0 <= j < i ==>
      && g.Slot(j) in s.disk && s.lh[j] in s.disk && s.disk[s.lh[j]] == s.disk[g.Slot(j)]
      && (s.lh[j] in s.cache ==> !s.cache[s.lh[j]].dirty)
  }

  ghost predicate OneCommitter(ps: seq<Proc>) {
    forall p, q :: 0 <= p < |ps| && 0 <= q < |ps| && ps[p].Committer? && ps[q].Committer? ==> p == q
  }

  ghost predicate DistinctWriters(ps: seq<Proc>) {
    forall p, q :: 0 <= p < |ps| && 0 <= q < |ps| && ps[p].Writing? && ps[q].Writing? && ps[p].b == ps[q].b
      ==> p == q
  }

  ghost predicate RunningOk(g: Geometry, s: State)
    requires DiskOk(g, s.disk)
  {
    && (forall p :: 0 <= p < |s.procs| ==> ProcOk(g, s, s.procs[p]))
    && OneCommitter(s.procs) && DistinctWriters(s.procs)
    && (s.committing ==> exists p :: 0 <= p < |s.procs| && s.procs[p].Committer?)
    && s.outstanding == Total(s.procs, Count)
    && |s.lh| + Total(s.procs, Unused) <= LOGSIZE
    && (!s.committing ==> Logged(g, s.disk) == [] && Pinned(s, 0))
  }

  /** No transaction that outgrows the log is ever written: `begin_op` reserves less, or one
      that large pins every buffer, or `log_write` lets nothing in. */
  predicate Roomy(g: Geometry) {
    g.size > LOGSIZE || g.nbuf <= g.size || g.size <= 1
  }

  /** The transaction leaves room for the header, or it has pinned every buffer, so that its
      commit will panic before it writes. */
  ghost predicate Fits(g: Geometry, s: State) {
    || |s.lh| < g.size
    || (g.size > 1 && |s.lh| == g.nbuf && (s.mode == Running || s.mode == Panicked))
  }

  /** What is held is cached, and there is a hand for each. */
  ghost predicate HeldOk(g: Geometry, s: State) {
    s.held <= s.cache.Keys && |s.held| <= g.hands
  }

  ghost predicate Inv(g: Geometry, s: State) {
    && Roomy(g) && |s.cache.Keys| <= g.nbuf
    && DiskOk(g, s.disk)
    && Listed(g, s.disk, s.lh) && Fits(g, s) && |s.lh| <= LOGSIZE
    && CacheOk(s) && HeldOk(g, s)
    && (forall b :: b in s.cache && s.cache[b].dirty ==> b in s.lh)
    && match s.mode
       case Running => RunningOk(g, s)
       case ReadHead => s.lh == [] && AllIdle(s)
       case Replaying(i) =>
         AllIdle(s) && i < |s.lh| && Logged(g, s.disk) == s.lh && Installed(g, s, i)
       case ClearHead =>
         AllIdle(s) && Logged(g, s.disk) == s.lh && Installed(g, s, |s.lh|)
       case Panicked => true
  }

  ghost predicate AllIdle(s: State) {
    && (forall p :: 0 <= p < |s.procs| ==> s.procs[p].Idle?)
    && (forall b :: b in s.cache ==> !s.cache[b].dirty)
    && s.outstanding == 0 && !s.committing && s.held == {}
  }

  // ---------------------------------------------------------------- counting

  lemma {:induction false} TotalUpdate(ps: seq<Proc>, p: nat, v: Proc, f: Proc -> int)
    requires p < |ps|
    ensures Total(ps[p := v], f) == Total(ps, f) - f(ps[p]) + f(v)
  {
    var n := |ps| - 1;
    if p < n {
      TotalUpdate(ps[..n], p, v, f);
      assert ps[p := v][..n] == ps[..n][p := v];
    } else {
      assert ps[p := v][..n] == ps[..n];
    }
  }

  /** A sum of non-negative weights is at least each of them. */
  lemma {:induction false} TotalAtLeast(ps: seq<Proc>, p: nat, f: Proc -> int)
    requires p < |ps|
    requires forall i :: 0 <= i < |ps| ==> f(ps[i]) >= 0
    ensures Total(ps, f) >= f(ps[p])
  {
    var n := |ps| - 1;
    if p < n {
      TotalAtLeast(ps[..n], p, f);
    } else {
      TotalNonNegative(ps[..n], f);
    }
  }

  lemma {:induction false} TotalNonNegative(ps: seq<Proc>, f: Proc -> int)
    requires forall i :: 0 <= i < |ps| ==> f(ps[i]) >= 0
    ensures Total(ps, f) >= 0
  {
    if ps != [] {
      TotalNonNegative(ps[..|ps| - 1], f);
    }
  }

  lemma {:induction false} TotalZero(ps: seq<Proc>, f: Proc -> int)
    requires forall i :: 0 <= i < |ps| ==> f(ps[i]) == 0
    ensures Total(ps, f) == 0
  {
    if ps != [] {
      TotalZero(ps[..|ps| - 1], f);
    }
  }

  lemma {:induction false} UnusedBound(ps: seq<Proc>)
    ensures Total(ps, Unused) <= MAXOPBLOCKS * Total(ps, Count)
  {
    if ps != [] {
      UnusedBound(ps[..|ps| - 1]);
    }
  }

  // ---------------------------------------------------------------- one step

  /** The write of the header that makes a transaction permanent. */
  predicate IsCommitPoint(s: State, e: Step) {
    e.Commit? && e.p < |s.procs| && s.procs[e.p] == Committer(WriteHead)
  }

  ghost predicate Good(g: Geometry, s: State, e: Step)
    requires Inv(g, s) && Enabled(g, s, e)
  {
    var s' := Apply(g, s, e);
    && Inv(g, s')
    && s'.disk.Keys == s.disk.Keys
    && (s'.mode == Panicked ==> s.mode == Panicked || (e.Check? && LogFull(g, s)) || (e.Load? && NoBuffer(g, s)))
    && Home(g, Recovered(g, s'.disk))
       == if IsCommitPoint(s, e) then View(g, s) else Home(g, Recovered(g, s.disk))
  }

  /** While no commit runs, changing one process and only extending the log keeps
      what every other process relies on. */
  lemma OthersKept(g: Geometry, s: State, s': State, p: nat, v: Proc)
    requires Inv(g, s) && s.mode == Running && !s.committing && p < |s.procs|
    requires s'.disk == s.disk && !s'.committing && s.lh <= s'.lh && s.cache.Keys <= s'.cache.Keys
    requires s'.procs == s.procs[p := v] && !v.Committer? && ProcOk(g, s', v)
    ensures forall q :: 0 <= q < |s'.procs| ==> ProcOk(g, s', s'.procs[q])
    ensures OneCommitter(s'.procs)
  {
    forall q | 0 <= q < |s.procs| ensures ProcOk(g, s', s'.procs[q]) && !s'.procs[q].Committer? {
      assert ProcOk(g, s, s.procs[q]);
    }
  }

  /** A process that holds no buffer may change without releasing any. */
  lemma WritersKept(ps: seq<Proc>, p: nat, v: Proc)
    requires p < |ps| && !ps[p].Writing?
    ensures forall c :: BeingWritten(ps, c) ==> BeingWritten(ps[p := v], c)
  {
    forall c | BeingWritten(ps, c) ensures BeingWritten(ps[p := v], c) {
      var q :| 0 <= q < |ps| && ps[q].Writing? && ps[q].b == c;
      assert ps[p := v][q] == ps[q];
    }
  }

  /** A process that stops writing releases only its own buffer. */
  lemma WriterDone(ps: seq<Proc>, p: nat, v: Proc)
    requires p < |ps| && ps[p].Writing?
    ensures forall c :: c != ps[p].b && BeingWritten(ps, c) ==> BeingWritten(ps[p := v], c)
  {
    forall c | c != ps[p].b && BeingWritten(ps, c) ensures BeingWritten(ps[p := v], c) {
      var q :| 0 <= q < |ps| && ps[q].Writing? && ps[q].b == c;
      assert ps[p := v][q] == ps[q];
    }
  }

  lemma TotalsUpdate(ps: seq<Proc>, p: nat, v: Proc)
    requires p < |ps|
    ensures Total(ps[p := v], Count) == Total(ps, Count) - Count(ps[p]) + Count(v)
    ensures Total(ps[p := v], Unused) == Total(ps, Unused) - Unused(ps[p]) + Unused(v)
  {
    TotalUpdate(ps, p, v, Count);
    TotalUpdate(ps, p, v, Unused);
  }

  /** A step of one process that leaves the disk alone and starts no commit. */
  lemma QuietGood(g: Geometry, s: State, s': State, p: nat)
    requires Inv(g, s) && s.mode == Running && !s.committing && p < |s.procs|
    requires s'.mode == Running && s'.disk == s.disk && !s'.committing
    requires |s'.procs| == |s.procs| && s'.procs == s.procs[p := s'.procs[p]]
    requires Listed(g, s'.disk, s'.lh) && Fits(g, s') && |s'.lh| <= LOGSIZE
    requires CacheOk(s') && Pinned(s', 0) && s'.cache.Keys == s.cache.Keys && s'.held == s.held
    requires forall b :: b in s'.cache && s'.cache[b].dirty ==> b in s'.lh
    requires forall q :: 0 <= q < |s'.procs| ==> ProcOk(g, s', s'.procs[q])
    requires OneCommitter(s'.procs)
    requires s'.procs[p].Writing? ==>
      forall q :: 0 <= q < |s.procs| && q != p && s.procs[q].Writing? ==> s.procs[q].b != s'.procs[p].b
    requires s'.outstanding == Total(s'.procs, Count)
    requires |s'.lh| + Total(s'.procs, Unused) <= LOGSIZE
    ensures Inv(g, s') && Home(g, Recovered(g, s'.disk)) == Home(g, Recovered(g, s.disk))
  {
  }

  lemma BeginOpGood(g: Geometry, s: State, p: nat)
    requires Inv(g, s) && Enabled(g, s, BeginOp(p))
    ensures Good(g, s, BeginOp(p))
  {
    var s' := Apply(g, s, BeginOp(p));
    TotalsUpdate(s.procs, p, Op({}));
    UnusedBound(s.procs);
    OthersKept(g, s, s', p, Op({}));
    WritersKept(s.procs, p, Op({}));
    QuietGood(g, s, s', p);
  }

  lemma ModifyCache(g: Geometry, s: State, p: nat, b: nat, data: seq<Byte>)
    requires Inv(g, s) && Enabled(g, s, Modify(p, b, data))
    ensures var s' := Apply(g, s, Modify(p, b, data));
      && CacheOk(s') && Pinned(s', 0)
      && (forall c :: c in s'.cache && s'.cache[c].dirty ==> c in s'.lh)
  {
    var s' := Apply(g, s, Modify(p, b, data));
    assert ProcOk(g, s, s.procs[p]);
    WritersKept(s.procs, p, s'.procs[p]);
    assert BeingWritten(s'.procs, b) by { assert s'.procs[p].Writing?; }
  }

  lemma ModifyGood(g: Geometry, s: State, p: nat, b: nat, data: seq<Byte>)
    requires Inv(g, s) && Enabled(g, s, Modify(p, b, data))
    ensures Good(g, s, Modify(p, b, data))
  {
    var s' := Apply(g, s, Modify(p, b, data));
    assert ProcOk(g, s, s.procs[p]);
    SubsetSize(s.procs[p].blocks, b);
    TotalsUpdate(s.procs, p, s'.procs[p]);
    OthersKept(g, s, s', p, s'.procs[p]);
    ModifyCache(g, s, p, b, data);
    QuietGood(g, s, s', p);
  }

  lemma SubsetSize(bs: set<nat>, b: nat)
    ensures |bs| <= |bs + {b}| <= |bs| + 1
    ensures b !in bs ==> |bs + {b}| == |bs| + 1
  {
    if b in bs {
      assert bs + {b} == bs;
    }
  }

  lemma CheckCache(s: State, p: nat, v: Proc)
    requires p < |s.procs| && s.procs[p].Writing? && v == s.procs[p].(checked := true)
    ensures forall c :: BeingWritten(s.procs, c) ==> BeingWritten(s.procs[p := v], c)
  {
    forall c | BeingWritten(s.procs, c) ensures BeingWritten(s.procs[p := v], c) {
      var q :| 0 <= q < |s.procs| && s.procs[q].Writing? && s.procs[q].b == c;
      assert s.procs[p := v][q].Writing? && s.procs[p := v][q].b == c;
    }
  }

  lemma CheckGood(g: Geometry, s: State, p: nat)
    requires Inv(g, s) && Enabled(g, s, Check(p))
    ensures Good(g, s, Check(p))
  {
    var s' := Apply(g, s, Check(p));
    OpCounted(s, p);
    if !LogFull(g, s) {
      var v := s'.procs[p];
      assert ProcOk(g, s, s.procs[p]);
      TotalsUpdate(s.procs, p, v);
      OthersKept(g, s, s', p, v);
      CheckCache(s, p, v);
      QuietGood(g, s, s', p);
    }
  }

  /** A process inside an operation is counted as outstanding. */
  lemma OpCounted(s: State, p: nat)
    requires p < |s.procs| && IsOp(s.procs[p]) && s.outstanding == Total(s.procs, Count)
    ensures s.outstanding >= 1
  {
    TotalAtLeast(s.procs, p, Count);
  }

  /** The reservation: an operation that claims a further block finds room for it. */
  lemma Reserved(g: Geometry, s: State, p: nat)
    requires Inv(g, s) && s.mode == Running && p < |s.procs| && s.procs[p].Writing?
    requires s.procs[p].b !in s.procs[p].blocks
    ensures |s.lh| < LOGSIZE && (g.size > LOGSIZE ==> !LogFull(g, s))
  {
    assert ProcOk(g, s, s.procs[p]);
    UnusedNonNegative(g, s);
    TotalAtLeast(s.procs, p, Unused);
    SubsetSize(s.procs[p].blocks, s.procs[p].b);
  }

  lemma UnusedNonNegative(g: Geometry, s: State)
    requires Inv(g, s) && s.mode == Running
    ensures forall i :: 0 <= i < |s.procs| ==> Unused(s.procs[i]) >= 0
  {
    forall i | 0 <= i < |s.procs| ensures Unused(s.procs[i]) >= 0 {
      assert ProcOk(g, s, s.procs[i]);
      if s.procs[i].Writing? {
        SubsetSize(s.procs[i].blocks, s.procs[i].b);
      }
    }
  }

  /** The appended block is new, existing and outside the log, and there is room. */
  lemma AppendEntries(g: Geometry, s: State, p: nat)
    requires Inv(g, s) && Enabled(g, s, Append(p))
    ensures var s' := Apply(g, s, Append(p));
      && Listed(g, s'.disk, s'.lh) && Fits(g, s') && s.lh <= s'.lh && s.procs[p].b in s'.lh
      && |s'.lh| + Total(s'.procs, Unused) <= LOGSIZE && |s'.lh| <= LOGSIZE
      && Total(s'.procs, Count) == s.outstanding
  {
    var b := s.procs[p].b;
    assert ProcOk(g, s, s.procs[p]);
    AppendTotals(g, s, p, Apply(g, s, Append(p)));
    if b !in s.lh {
      PinnedSize(s.lh + [b], s.cache.Keys);
    }
  }

  lemma AppendTotals(g: Geometry, s: State, p: nat, s': State)
    requires Inv(g, s) && Enabled(g, s, Append(p)) && s' == Apply(g, s, Append(p))
    ensures |s'.lh| + Total(s'.procs, Unused) <= LOGSIZE && |s'.lh| <= LOGSIZE
    ensures Total(s'.procs, Count) == s.outstanding
  {
    assert ProcOk(g, s, s.procs[p]);
    TotalsUpdate(s.procs, p, s'.procs[p]);
    SubsetSize(s.procs[p].blocks, s.procs[p].b);
    if s.procs[p].b !in s.lh {
      Reserved(g, s, p);
    }
  }

  /** Distinct blocks that are all cached are no more than the buffers. */
  lemma {:induction false} PinnedSize(bl: seq<nat>, cached: set<nat>)
    requires forall i, j :: 0 <= i < j < |bl| ==> bl[i] != bl[j]
    requires forall i :: 0 <= i < |bl| ==> bl[i] in cached
    ensures |bl| <= |cached|
  {
    if bl != [] {
      var n := |bl| - 1;
      PinnedSize(bl[..n], cached - {bl[n]});
    }
  }

  lemma AppendCache(g: Geometry, s: State, p: nat)
    requires Inv(g, s) && Enabled(g, s, Append(p))
    ensures var s' := Apply(g, s, Append(p));
      && CacheOk(s') && Pinned(s', 0)
      && (forall b :: b in s'.cache && s'.cache[b].dirty ==> b in s'.lh)
  {
    WriterDone(s.procs, p, Apply(g, s, Append(p)).procs[p]);
  }

  lemma AppendGood(g: Geometry, s: State, p: nat)
    requires Inv(g, s) && Enabled(g, s, Append(p))
    ensures Good(g, s, Append(p))
  {
    AppendInv(g, s, p, Apply(g, s, Append(p)));
  }

  lemma AppendInv(g: Geometry, s: State, p: nat, s': State)
    requires Inv(g, s) && Enabled(g, s, Append(p)) && s' == Apply(g, s, Append(p))
    ensures Inv(g, s') && Home(g, Recovered(g, s'.disk)) == Home(g, Recovered(g, s.disk))
  {
    assert ProcOk(g, s, s.procs[p]);
    AppendEntries(g, s, p);
    AppendCache(g, s, p);
    OthersKept(g, s, s', p, s'.procs[p]);
    QuietGood(g, s, s', p);
  }

  lemma EndOpGood(g: Geometry, s: State, p: nat)
    requires Inv(g, s) && Enabled(g, s, EndOp(p))
    ensures Good(g, s, EndOp(p))
  {
    var s' := Apply(g, s, EndOp(p));
    assert ProcOk(g, s, s.procs[p]);
    if s.outstanding != 1 {
      OpEnds(g, s, s', p);
    } else {
      WritersKept(s.procs, p, s'.procs[p]);
      LastOneOut(g, s, s', p);
      CommitStarts(g, s, s', p);
    }
  }

  lemma OpEnds(g: Geometry, s: State, s': State, p: nat)
    requires Inv(g, s) && Enabled(g, s, EndOp(p)) && s' == Apply(g, s, EndOp(p))
    requires !s.committing && s.outstanding != 1
    ensures Inv(g, s') && Home(g, Recovered(g, s'.disk)) == Home(g, Recovered(g, s.disk))
  {
    WritersKept(s.procs, p, s'.procs[p]);
    TotalsUpdate(s.procs, p, s'.procs[p]);
    OthersKept(g, s, s', p, s'.procs[p]);
    QuietGood(g, s, s', p);
  }

  lemma CommitStarts(g: Geometry, s: State, s': State, p: nat)
    requires Inv(g, s) && s.mode == Running && !s.committing && p < |s.procs| && s.procs[p].Op?
    requires s.outstanding == 1 && s' == Apply(g, s, EndOp(p))
    requires forall q :: 0 <= q < |s'.procs| && q != p ==> s'.procs[q].Idle?
    requires s'.procs[p].Committer? && PhaseOk(g, s', s'.procs[p].pc)
    requires |s.lh| + Total(s'.procs, Unused) <= LOGSIZE && Total(s'.procs, Count) == 0
    requires forall c :: BeingWritten(s.procs, c) ==> BeingWritten(s'.procs, c)
    ensures Inv(g, s')
  {
  }

  /** When the last operation ends, no other process is inside one. */
  lemma LastOneOut(g: Geometry, s: State, s': State, p: nat)
    requires Inv(g, s) && s.mode == Running && !s.committing && p < |s.procs| && s.procs[p].Op?
    requires s.outstanding == 1 && s' == Apply(g, s, EndOp(p))
    ensures forall q :: 0 <= q < |s'.procs| && q != p ==> s'.procs[q].Idle?
    ensures s'.procs[p].Committer? && PhaseOk(g, s', s'.procs[p].pc)
    ensures |s.lh| + Total(s'.procs, Unused) <= LOGSIZE
    ensures Total(s'.procs, Count) == 0
  {
    TotalsUpdate(s.procs, p, s'.procs[p]);
    forall q | 0 <= q < |s'.procs| && q != p ensures !s'.procs[q].Committer? {
      assert ProcOk(g, s, s.procs[q]);
    }
    NobodyInside(s'.procs, p);
  }

  lemma NobodyInside(ps: seq<Proc>, p: nat)
    requires p < |ps| && !IsOp(ps[p]) && Total(ps, Count) == 0
    requires forall q :: 0 <= q < |ps| && q != p ==> !ps[q].Committer?
    ensures forall q :: 0 <= q < |ps| && q != p ==> ps[q].Idle?
    ensures Total(ps, Unused) == 0
  {
    forall q | 0 <= q < |ps| && q != p ensures ps[q].Idle? {
      if IsOp(ps[q]) {
        TotalAtLeast(ps, q, Count);
      }
    }
    TotalZero(ps, Unused);
  }

  /** While a commit runs, every other process is outside any operation. */
  lemma CommitAlone(g: Geometry, s: State, p: nat)
    requires Inv(g, s) && s.mode == Running && p < |s.procs| && s.procs[p].Committer?
    ensures s.committing && PhaseOk(g, s, s.procs[p].pc)
    ensures forall q :: 0 <= q < |s.procs| && q != p ==> s.procs[q].Idle?
    ensures forall b :: !BeingWritten(s.procs, b)
    ensures s.outstanding == 0 && Total(s.procs, Unused) == 0
  {
    assert ProcOk(g, s, s.procs[p]);
    forall q | 0 <= q < |s.procs| && q != p ensures s.procs[q].Idle? {
      assert ProcOk(g, s, s.procs[q]);
    }
    TotalZero(s.procs, Unused);
    TotalZero(s.procs, Count);
  }

  /** A block is brought into an unused buffer, or a clean one is given up. */
  predicate CacheMove(g: Geometry, s: State, e: Step) {
    (e.Load? && |s.cache.Keys| < g.nbuf) || e.Evict?
  }

  /** Moving clean copies in and out of the cache changes nothing a reader sees. */
  lemma CacheMoveKeeps(g: Geometry, s: State, e: Step)
    requires Inv(g, s) && Enabled(g, s, e) && CacheMove(g, s, e)
    ensures var s' := Apply(g, s, e);
      && s'.disk == s.disk && CacheOk(s') && |s'.cache.Keys| <= g.nbuf
      && (forall b :: b in s.cache && s.cache[b].dirty <==> b in s'.cache && s'.cache[b].dirty)
      && (forall b :: b in s.disk && !BeingWritten(s.procs, b) ==> Read(s', b) == Read(s, b))
      && (forall b :: BeingWritten(s.procs, b) && b in s.cache ==> b in s'.cache)
  {
    CacheMoveSize(g, s, e);
    match e
    case Load(b) => LoadKeeps(g, s, b);
    case Evict(b) => EvictKeeps(g, s, b);
  }

  lemma LoadKeeps(g: Geometry, s: State, b: nat)
    requires DiskOk(g, s.disk) && CacheOk(s) && b in s.disk && b !in s.cache
    ensures var s' := s.(cache := s.cache[b := Buf(s.disk[b], false)]);
      CacheOk(s') && forall c :: c in s.disk ==> Read(s', c) == Read(s, c)
  {
  }

  lemma EvictKeeps(g: Geometry, s: State, b: nat)
    requires DiskOk(g, s.disk) && CacheOk(s) && Recyclable(s, b)
    ensures var s' := s.(cache := s.cache - {b});
      CacheOk(s') && forall c :: c in s.disk && !BeingWritten(s.procs, c) ==> Read(s', c) == Read(s, c)
  {
  }

  lemma CacheMoveSize(g: Geometry, s: State, e: Step)
    requires Enabled(g, s, e) && CacheMove(g, s, e) && |s.cache.Keys| <= g.nbuf
    ensures |Apply(g, s, e).cache.Keys| <= g.nbuf
  {
    match e
    case Load(b) => assert Apply(g, s, e).cache.Keys == s.cache.Keys + {b};
    case Evict(b) => assert Apply(g, s, e).cache.Keys == s.cache.Keys - {b};
  }

  /** What one process relies on is not touched by moving other clean copies. */
  lemma CacheMoveOp(g: Geometry, s: State, s': State, q: Proc)
    requires DiskOk(g, s.disk) && ProcOk(g, s, q) && !q.Committer?
    requires s'.disk == s.disk && s'.lh == s.lh && s'.committing == s.committing
    requires q.Writing? ==> q.b in s'.cache
    ensures ProcOk(g, s', q)
  {
  }

  lemma CacheMoveCommit(g: Geometry, s: State, s': State, pc: CommitPc)
    requires Listed(g, s.disk, s.lh) && DiskOk(g, s.disk) && PhaseOk(g, s, pc)
    requires s'.disk == s.disk && s'.lh == s.lh
    requires forall b :: b in s.cache && s.cache[b].dirty <==> b in s'.cache && s'.cache[b].dirty
    requires forall b :: b in s.disk ==> Read(s', b) == Read(s, b)
    ensures PhaseOk(g, s', pc)
  {
  }

  lemma CacheMoveProc(g: Geometry, s: State, e: Step, s': State, q: nat)
    requires Inv(g, s) && Enabled(g, s, e) && CacheMove(g, s, e) && s.mode == Running
    requires s' == Apply(g, s, e) && s'.disk == s.disk && q < |s.procs|
    ensures ProcOk(g, s', s.procs[q])
  {
    CacheMoveKeeps(g, s, e);
    assert ProcOk(g, s, s.procs[q]);
    if s.procs[q].Committer? {
      CommitAlone(g, s, q);
      CacheMoveCommit(g, s, s', s.procs[q].pc);
    } else {
      assert s.procs[q].Writing? ==> BeingWritten(s.procs, s.procs[q].b);
      CacheMoveOp(g, s, s', s.procs[q]);
    }
  }

  lemma CacheRunning(g: Geometry, s: State, e: Step, s': State)
    requires Inv(g, s) && Enabled(g, s, e) && CacheMove(g, s, e) && s.mode == Running
    requires s' == Apply(g, s, e) && s'.disk == s.disk
    ensures RunningOk(g, s')
  {
    forall q | 0 <= q < |s.procs| ensures ProcOk(g, s', s'.procs[q]) {
      CacheMoveProc(g, s, e, s', q);
    }
  }

  lemma CacheInv(g: Geometry, s: State, e: Step)
    requires Inv(g, s) && Enabled(g, s, e) && CacheMove(g, s, e)
    ensures Inv(g, Apply(g, s, e))
  {
    CacheMoveKeeps(g, s, e);
    if s.mode == Running {
      CacheRunning(g, s, e, Apply(g, s, e));
    }
  }

  lemma CacheGood(g: Geometry, s: State, e: Step)
    requires Inv(g, s) && Enabled(g, s, e) && (e.Load? || e.Evict?)
    ensures Good(g, s, e)
  {
    if CacheMove(g, s, e) {
      CacheInv(g, s, e);
    }
  }

  /** Taking or releasing a buffer changes only which ones may be recycled. */
  lemma HeldRunning(g: Geometry, s: State, held: set<nat>)
    requires DiskOk(g, s.disk) && RunningOk(g, s)
    ensures RunningOk(g, s.(held := held))
  {
    forall q | 0 <= q < |s.procs| ensures ProcOk(g, s.(held := held), s.procs[q]) {
      HeldProc(g, s, held, s.procs[q]);
    }
  }

  lemma HeldProc(g: Geometry, s: State, held: set<nat>, q: Proc)
    requires DiskOk(g, s.disk) && ProcOk(g, s, q)
    ensures ProcOk(g, s.(held := held), q)
  {
  }

  lemma HeldGood(g: Geometry, s: State, e: Step)
    requires Inv(g, s) && Enabled(g, s, e) && (e.Hold? || e.Release?)
    ensures Good(g, s, e)
  {
    HeldRunning(g, s, Apply(g, s, e).held);
  }

  lemma CrashGood(g: Geometry, s: State)
    requires Inv(g, s)
    ensures Good(g, s, Crash)
  {
  }

  /** A commit or a recovery writes one block, leaving every process but p alone. */
  lemma CommitRunning(g: Geometry, s: State, s': State, p: nat, v: Proc)
    requires Inv(g, s) && s.mode == Running && p < |s.procs| && s.procs[p].Committer?
    requires s'.mode == Running && s'.procs == s.procs[p := v] && s'.outstanding == s.outstanding
    requires DiskOk(g, s'.disk) && |s'.lh| <= |s.lh|
    requires if s'.committing then v.Committer? && PhaseOk(g, s', v.pc)
             else v.Idle? && Logged(g, s'.disk) == [] && s'.lh == []
    ensures RunningOk(g, s')
  {
    CommitAlone(g, s, p);
    TotalZero(s'.procs, Unused);
    TotalZero(s'.procs, Count);
    assert s'.procs[p] == v;
  }

  /** `bwrite` of a block nobody is modifying leaves cache and disk in agreement. */
  lemma BWriteCache(g: Geometry, s: State, b: nat, x: Sector)
    requires Inv(g, s) && b in s.disk
    ensures var s' := BWrite(s, b, x);
      && CacheOk(s') && s'.disk.Keys == s.disk.Keys
      && (forall c :: c in s'.cache && s'.cache[c].dirty ==> c != b && c in s.cache && s.cache[c].dirty)
      && (forall c :: c in s.disk && c != b ==> Read(s', c) == Read(s, c))
  {
  }

  /** A commit step that writes one block and goes on to a phase that is in order. */
  lemma CommitWrites(g: Geometry, s: State, p: nat, b: nat, x: Sector, v: Proc, s': State)
    requires Inv(g, s) && s.mode == Running && p < |s.procs| && s.procs[p].Committer? && b in s.cache
    requires s' == BWrite(s, b, x).(procs := s.procs[p := v])
    requires v.Committer? && DiskOk(g, s'.disk) && PhaseOk(g, s', v.pc)
    ensures Inv(g, s') && s'.disk.Keys == s.disk.Keys
  {
    CommitAlone(g, s, p);
    BWriteCache(g, s, b, x);
    BWriteKeys(s, b, x);
    CommitRunning(g, s, s', p, v);
  }

  lemma BWriteKeys(s: State, b: nat, x: Sector)
    requires b in s.cache && s.cache.Keys <= s.disk.Keys
    ensures BWrite(s, b, x).cache.Keys == s.cache.Keys && BWrite(s, b, x).disk.Keys == s.disk.Keys
  {
  }

  lemma CopiedStep(g: Geometry, s: State, s': State, i: nat)
    requires Entries(g, s.disk, s.lh) && s.cache.Keys <= s.disk.Keys && i < |s.lh|
    requires Copied(g, s, i)
    requires s' == BWrite(s, g.Slot(i), Read(s, s.lh[i])).(procs := s'.procs)
    ensures Copied(g, s', i + 1)
  {
  }

  /** Copying log block i home extends the installed part of the transaction. */
  lemma InstalledStep(g: Geometry, s: State, s': State, i: nat)
    requires Entries(g, s.disk, s.lh) && i < |s.lh|
    requires Installed(g, s, i)
    requires s' == BWrite(s, s.lh[i], s.disk[g.Slot(i)]).(procs := s'.procs, mode := s'.mode)
    ensures Installed(g, s', i + 1)
  {
  }

  lemma WriteLogPhase(g: Geometry, s: State, p: nat)
    requires Inv(g, s) && Enabled(g, s, Commit(p)) && s.procs[p].pc.WriteLog?
    ensures var s' := Apply(g, s, Commit(p));
      DiskOk(g, s'.disk) && PhaseOk(g, s', s'.procs[p].pc)
  {
    var s' := Apply(g, s, Commit(p));
    CommitAlone(g, s, p);
    WriteLogFits(g, s, s.procs[p].pc.i);
    CopiedStep(g, s, s', s.procs[p].pc.i);
    assert Logged(g, s'.disk) == Logged(g, s.disk);
  }

  /** With the whole transaction pinned and a log block cached besides, the transaction is
      smaller than the cache, and so it fits in the log. */
  lemma WriteLogFits(g: Geometry, s: State, i: nat)
    requires Inv(g, s) && s.mode == Running && PhaseOk(g, s, WriteLog(i)) && g.Slot(i) in s.cache
    ensures |s.lh| < g.nbuf && |s.lh| < g.size
  {
    if |s.lh| >= g.size || i == 0 {
      BufferLeft(g, s, 0);
    }
  }

  lemma BufferLeft(g: Geometry, s: State, i: nat)
    requires Listed(g, s.disk, s.lh) && Pinned(s, 0) && i + 1 < g.size && g.Slot(i) in s.cache
    ensures |s.lh| < |s.cache.Keys|
  {
    assert g.InLog(g.Slot(i));
    PinnedSize(s.lh + [g.Slot(i)], s.cache.Keys);
  }

  lemma WriteLogGood(g: Geometry, s: State, p: nat)
    requires Inv(g, s) && Enabled(g, s, Commit(p)) && s.procs[p].pc.WriteLog?
    ensures Good(g, s, Commit(p))
  {
    CommitAlone(g, s, p);
    WriteLogFits(g, s, s.procs[p].pc.i);
    WriteLogPhase(g, s, p);
    var i, s' := s.procs[p].pc.i, Apply(g, s, Commit(p));
    LogWriteInvisible(g, s.disk, i, Read(s, s.lh[i]));
    CommitWrites(g, s, p, g.Slot(i), Read(s, s.lh[i]), s'.procs[p], s');
  }

  lemma WriteHeadPhase(g: Geometry, s: State, p: nat)
    requires Inv(g, s) && Enabled(g, s, Commit(p)) && s.procs[p].pc.WriteHead?
    ensures var s' := Apply(g, s, Commit(p));
      DiskOk(g, s'.disk) && PhaseOk(g, s', s'.procs[p].pc)
  {
    var s' := Apply(g, s, Commit(p));
    CommitAlone(g, s, p);
    assert Logged(g, s'.disk) == s.lh;
  }

  /** A header that names blocks whose log copies are as cached. */
  lemma HeadCommits(g: Geometry, s: State, d: Disk)
    requires s.cache.Keys <= s.disk.Keys && |s.lh| < g.size && DiskOk(g, d) && d.Keys == s.disk.Keys
    requires Logged(g, d) == s.lh && Copied(g, s, |s.lh|)
    requires forall b :: b in s.disk && b != g.start ==> d[b] == s.disk[b]
    requires forall b :: b in s.disk && !g.InLog(b) && b !in s.lh ==> Read(s, b) == s.disk[b]
    ensures Home(g, Recovered(g, d)) == View(g, s)
  {
    RecoveredHome(g, d);
    var h, v := Home(g, Recovered(g, d)), View(g, s);
    forall b | b in h ensures b in v && h[b] == v[b] {
      if b in s.lh {
        var j :| 0 <= j < |s.lh| && s.lh[j] == b;
        assert h[s.lh[j]] == d[g.Slot(j)] == s.disk[g.Slot(j)];
      }
    }
  }

  /** Once the header is on disk, recovery restores what the cache shows now. */
  lemma WriteHeadCommits(g: Geometry, s: State, p: nat)
    requires Inv(g, s) && Enabled(g, s, Commit(p)) && s.procs[p].pc.WriteHead?
    requires DiskOk(g, Apply(g, s, Commit(p)).disk)
    ensures Home(g, Recovered(g, Apply(g, s, Commit(p)).disk)) == View(g, s)
  {
    CommitAlone(g, s, p);
    assert Logged(g, Apply(g, s, Commit(p)).disk) == s.lh;
    HeadCommits(g, s, Apply(g, s, Commit(p)).disk);
  }

  lemma WriteHeadGood(g: Geometry, s: State, p: nat)
    requires Inv(g, s) && Enabled(g, s, Commit(p)) && s.procs[p].pc.WriteHead?
    ensures Good(g, s, Commit(p))
  {
    var s' := Apply(g, s, Commit(p));
    CommitAlone(g, s, p);
    WriteHeadPhase(g, s, p);
    WriteHeadCommits(g, s, p);
    CommitWrites(g, s, p, g.start, NewHead(Read(s, g.start), s.lh), s'.procs[p], s');
  }

  lemma InstallPhase(g: Geometry, s: State, p: nat)
    requires Inv(g, s) && Enabled(g, s, Commit(p)) && s.procs[p].pc.Install?
    ensures var s' := Apply(g, s, Commit(p));
      DiskOk(g, s'.disk) && PhaseOk(g, s', s'.procs[p].pc)
  {
    var s' := Apply(g, s, Commit(p));
    CommitAlone(g, s, p);
    var i := s.procs[p].pc.i;
    SlotClean(g, s, i);
    InstalledStep(g, s, s', i);
    CopiedKept(g, s, s', i);
    assert Logged(g, s'.disk) == Logged(g, s.disk);
  }

  /** Log blocks are read back as they are on disk. */
  lemma SlotClean(g: Geometry, s: State, i: nat)
    requires Inv(g, s) && i < |s.lh| < g.size && !BeingWritten(s.procs, g.Slot(i))
    ensures Read(s, g.Slot(i)) == s.disk[g.Slot(i)]
  {
    assert g.InLog(g.Slot(i));
  }

  lemma CopiedKept(g: Geometry, s: State, s': State, i: nat)
    requires Entries(g, s.disk, s.lh) && i < |s.lh|
    requires Copied(g, s, |s.lh|)
    requires s' == BWrite(s, s.lh[i], s.disk[g.Slot(i)]).(procs := s'.procs, mode := s'.mode)
    ensures Copied(g, s', |s.lh|)
  {
  }

  lemma InstallGood(g: Geometry, s: State, p: nat)
    requires Inv(g, s) && Enabled(g, s, Commit(p)) && s.procs[p].pc.Install?
    ensures Good(g, s, Commit(p))
  {
    var s' := Apply(g, s, Commit(p));
    CommitAlone(g, s, p);
    var i := s.procs[p].pc.i;
    InstallPhase(g, s, p);
    InstallInvisible(g, s.disk, s.lh[i], Read(s, g.Slot(i)));
    CommitWrites(g, s, p, s.lh[i], Read(s, g.Slot(i)), s'.procs[p], s');
  }

  lemma ClearGood(g: Geometry, s: State, p: nat)
    requires Inv(g, s) && Enabled(g, s, Commit(p)) && s.procs[p].pc.Clear?
    ensures Good(g, s, Commit(p))
  {
    ClearInv(g, s, p);
    ClearKeeps(g, s, p);
  }

  lemma ClearKeeps(g: Geometry, s: State, p: nat)
    requires Inv(g, s) && Enabled(g, s, Commit(p)) && s.procs[p].pc.Clear?
    ensures var d := s.disk[g.start := NewHead(Read(s, g.start), [])];
      DiskOk(g, d) && Home(g, Recovered(g, d)) == Home(g, Recovered(g, s.disk))
  {
    CommitAlone(g, s, p);
    ClearInvisible(g, s.disk, Read(s, g.start).block);
  }

  lemma ClearInv(g: Geometry, s: State, p: nat)
    requires Inv(g, s) && Enabled(g, s, Commit(p)) && s.procs[p].pc.Clear?
    ensures var s' := Apply(g, s, Commit(p));
      Inv(g, s') && s'.disk == s.disk[g.start := NewHead(Read(s, g.start), [])]
  {
    var s' := Apply(g, s, Commit(p));
    CommitAlone(g, s, p);
    assert Logged(g, s'.disk) == [];
    CommitRunning(g, s, s', p, s'.procs[p]);
  }

  lemma FinishGood(g: Geometry, s: State, p: nat)
    requires Inv(g, s) && Enabled(g, s, Commit(p)) && s.procs[p].pc.Finish?
    ensures Good(g, s, Commit(p))
  {
    var s' := Apply(g, s, Commit(p));
    CommitAlone(g, s, p);
    CommitRunning(g, s, s', p, s'.procs[p]);
  }

  lemma ReplayPhase(g: Geometry, s: State)
    requires Inv(g, s) && Enabled(g, s, Recover) && s.mode.Replaying?
    ensures var s' := Apply(g, s, Recover);
      && Read(s, g.Slot(s.mode.i)) == s.disk[g.Slot(s.mode.i)]
      && CacheOk(s') && Installed(g, s', s.mode.i + 1)
      && (forall c :: c in s'.cache ==> !s'.cache[c].dirty)
  {
    var i := s.mode.i;
    assert !BeingWritten(s.procs, g.Slot(i));
    SlotClean(g, s, i);
    BWriteCache(g, s, s.lh[i], s.disk[g.Slot(i)]);
    InstalledStep(g, s, Apply(g, s, Recover), i);
  }

  lemma RecoverInstallInv(g: Geometry, s: State)
    requires Inv(g, s) && Enabled(g, s, Recover) && s.mode.Replaying?
    ensures var s' := Apply(g, s, Recover);
      Inv(g, s') && s'.disk == s.disk[s.lh[s.mode.i] := s.disk[g.Slot(s.mode.i)]]
  {
    var s' := Apply(g, s, Recover);
    ReplayPhase(g, s);
    assert Logged(g, s'.disk) == Logged(g, s.disk);
  }

  lemma RecoverInstallGood(g: Geometry, s: State)
    requires Inv(g, s) && Enabled(g, s, Recover) && s.mode.Replaying?
    ensures Good(g, s, Recover)
  {
    RecoverInstallInv(g, s);
    InstallInvisible(g, s.disk, s.lh[s.mode.i], s.disk[g.Slot(s.mode.i)]);
  }

  lemma ReadHeadGood(g: Geometry, s: State)
    requires Inv(g, s) && Enabled(g, s, Recover) && s.mode.ReadHead?
    ensures Good(g, s, Recover)
  {
    assert !BeingWritten(s.procs, g.start);
    assert Apply(g, s, Recover).lh == Logged(g, s.disk);
  }

  lemma RecoverClearInv(g: Geometry, s: State)
    requires Inv(g, s) && Enabled(g, s, Recover) && s.mode.ClearHead?
    ensures var s' := Apply(g, s, Recover);
      Inv(g, s') && s'.disk == s.disk[g.start := NewHead(Read(s, g.start), [])]
  {
    var s' := Apply(g, s, Recover);
    assert !BeingWritten(s.procs, g.start);
    assert Logged(g, s'.disk) == [];
    TotalZero(s'.procs, Unused);
    TotalZero(s'.procs, Count);
  }

  lemma RecoverClearGood(g: Geometry, s: State)
    requires Inv(g, s) && Enabled(g, s, Recover) && s.mode.ClearHead?
    ensures Good(g, s, Recover)
  {
    assert !BeingWritten(s.procs, g.start);
    RecoverClearInv(g, s);
    ClearInvisible(g, s.disk, Read(s, g.start).block);
  }

  lemma CommitGood(g: Geometry, s: State, p: nat)
    requires Inv(g, s) && Enabled(g, s, Commit(p))
    ensures Good(g, s, Commit(p))
  {
    match s.procs[p].pc
    case WriteLog(_) => WriteLogGood(g, s, p);
    case WriteHead => WriteHeadGood(g, s, p);
    case Install(_) => InstallGood(g, s, p);
    case Clear => ClearGood(g, s, p);
    case Finish => FinishGood(g, s, p);
  }

  lemma RecoverGood(g: Geometry, s: State)
    requires Inv(g, s) && Enabled(g, s, Recover)
    ensures Good(g, s, Recover)
  {
    match s.mode
    case ReadHead => ReadHeadGood(g, s);
    case Replaying(_) => RecoverInstallGood(g, s);
    case ClearHead => RecoverClearGood(g, s);
  }

  /** Every step keeps the invariant, panics only where `log_write` finds the log full
      or a read finds no buffer, and changes what recovery would restore only at the commit point. */
  lemma StepGood(g: Geometry, s: State, e: Step)
    requires Inv(g, s) && Enabled(g, s, e)
    ensures Good(g, s, e)
  {
    match e
    case BeginOp(p) => BeginOpGood(g, s, p);
    case Modify(p, b, data) => ModifyGood(g, s, p, b, data);
    case Check(p) => CheckGood(g, s, p);
    case Append(p) => AppendGood(g, s, p);
    case EndOp(p) => EndOpGood(g, s, p);
    case Commit(p) => CommitGood(g, s, p);
    case Load(_) => CacheGood(g, s, e);
    case Evict(_) => CacheGood(g, s, e);
    case Hold(_) => HeldGood(g, s, e);
    case Release(_) => HeldGood(g, s, e);
    case Crash => CrashGood(g, s);
    case Recover => RecoverGood(g, s);
  }

  /** Storing a log block, or a home block as it is read already, changes nothing a reader
      sees. */
  lemma BWriteKeepsView(g: Geometry, s: State, s': State, b: nat, x: Sector)
    requires s.cache.Keys <= s.disk.Keys && b in s.disk && (g.InLog(b) || Read(s, b) == x)
    requires s'.disk == s.disk[b := x] && s'.cache == s.cache[b := Buf(x, false)]
    ensures s'.cache.Keys <= s'.disk.Keys && View(g, s') == View(g, s)
  {
    forall c | c in s.disk && !g.InLog(c) ensures Read(s', c) == Read(s, c) {
    }
    assert View(g, s').Keys == View(g, s).Keys;
  }

  /** Committing moves blocks between cache and disk without changing what is read. */
  lemma CommitKeepsView(g: Geometry, s: State, p: nat)
    requires Inv(g, s) && Enabled(g, s, Commit(p))
    ensures var s' := Apply(g, s, Commit(p));
      s'.cache.Keys <= s'.disk.Keys && View(g, s') == View(g, s)
  {
    CommitAlone(g, s, p);
    var s' := Apply(g, s, Commit(p));
    match s.procs[p].pc
    case WriteLog(i) =>
      assert g.InLog(g.Slot(i));
      BWriteKeepsView(g, s, s', g.Slot(i), Read(s, s.lh[i]));
    case WriteHead => BWriteKeepsView(g, s, s', g.start, s'.disk[g.start]);
    case Install(i) =>
      SlotClean(g, s, i);
      BWriteKeepsView(g, s, s', s.lh[i], Read(s, g.Slot(i)));
    case Clear => BWriteKeepsView(g, s, s', g.start, s'.disk[g.start]);
    case Finish =>
  }
}
