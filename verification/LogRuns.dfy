/** What the log guarantees over whole runs, from boot, with any interleaving and any
    number of crashes. */
module LogRuns {
  import opened LogDisk
  import opened LogMachine
  import opened LogReads

  /** The machine has just booted: nothing is cached and recovery has not begun. */
  ghost predicate Init(g: Geometry, s: State) {
    && DiskOk(g, s.disk)
    && s.mode == ReadHead && s.cache == map[] && s.lh == []
    && s.outstanding == 0 && !s.committing && s.held == {}
    && (forall p :: 0 <= p < |s.procs| ==> s.procs[p].Idle?)
  }

  ghost predicate IsRun(g: Geometry, run: seq<State>, steps: seq<Step>) {
    && |run| == |steps| + 1
    && Init(g, run[0])
    && (forall i :: 0 <= i < |steps| ==> Linked(g, run[i], steps[i], run[i + 1]))
  }

  ghost predicate Linked(g: Geometry, s: State, e: Step, s': State) {
    Enabled(g, s, e) && s' == Apply(g, s, e)
  }

  lemma {:induction false} RunInv(g: Geometry, run: seq<State>, steps: seq<Step>, k: nat)
    requires Roomy(g) && IsRun(g, run, steps) && k < |run|
    ensures Inv(g, run[k])
  {
    if k > 0 {
      RunInv(g, run, steps, k - 1);
      assert Linked(g, run[k - 1], steps[k - 1], run[k]);
      StepGood(g, run[k - 1], steps[k - 1]);
    }
  }

  // ---------------------------------------------------------------- crash atomicity

  /** One more than the index of the last commit point before state k, or 0. */
  ghost function LastCommit(run: seq<State>, steps: seq<Step>, k: nat): (c: nat)
    requires k <= |steps| < |run|
    ensures c <= k
    ensures c > 0 ==> IsCommitPoint(run[c - 1], steps[c - 1])
    ensures forall j :: c <= j < k ==> !IsCommitPoint(run[j], steps[j])
  {
    if k == 0 then 0
    else if IsCommitPoint(run[k - 1], steps[k - 1]) then k
    else LastCommit(run, steps, k - 1)
  }

  /** The contents a crash in state k must preserve: what the cache showed at the last
      commit point, or what the first boot recovered if there was none. */
  ghost function Durable(g: Geometry, run: seq<State>, steps: seq<Step>, k: nat): Disk
    requires Roomy(g) && IsRun(g, run, steps) && k < |run|
  {
    var c := LastCommit(run, steps, k);
    if c == 0 then Home(g, Recovered(g, run[0].disk))
    else RunInv(g, run, steps, c - 1); View(g, run[c - 1])
  }

  lemma DurableStep(g: Geometry, s: State, e: Step, s': State)
    requires Inv(g, s) && Linked(g, s, e, s')
    ensures DiskOk(g, s'.disk)
    ensures Home(g, Recovered(g, s'.disk))
         == if IsCommitPoint(s, e) then View(g, s) else Home(g, Recovered(g, s.disk))
  {
    StepGood(g, s, e);
  }

  /** Whatever single-block write the crash in state k interrupts, also during a commit
      or an earlier recovery, replaying the log restores exactly the durable contents. */
  lemma {:induction false} CrashAtomicity(g: Geometry, run: seq<State>, steps: seq<Step>, k: nat)
    requires Roomy(g) && IsRun(g, run, steps) && k < |run|
    ensures DiskOk(g, run[k].disk)
    ensures Home(g, Recovered(g, run[k].disk)) == Durable(g, run, steps, k)
  {
    RunInv(g, run, steps, k);
    if k > 0 {
      CrashAtomicity(g, run, steps, k - 1);
      RunInv(g, run, steps, k - 1);
      assert Linked(g, run[k - 1], steps[k - 1], run[k]);
      DurableStep(g, run[k - 1], steps[k - 1], run[k]);
    }
  }

  /** A commit point is reached only when every operation has ended, so the durable
      contents never include part of an operation. */
  lemma CommitHoldsFinishedOps(g: Geometry, run: seq<State>, steps: seq<Step>, k: nat)
    requires Roomy(g) && IsRun(g, run, steps) && k < |steps|
    requires IsCommitPoint(run[k], steps[k])
    ensures run[k].outstanding == 0
    ensures forall p :: 0 <= p < |run[k].procs| && p != steps[k].p ==> run[k].procs[p].Idle?
  {
    RunInv(g, run, steps, k);
    assert Linked(g, run[k], steps[k], run[k + 1]);
    CommitAlone(g, run[k], steps[k].p);
  }

  /** When a commit is over, everything readers see is durable. */
  lemma CommitIsDurable(g: Geometry, run: seq<State>, steps: seq<Step>, k: nat, p: nat)
    requires Roomy(g) && IsRun(g, run, steps) && k < |run|
    requires run[k].mode == Running && p < |run[k].procs| && run[k].procs[p] == Committer(Finish)
    ensures run[k].cache.Keys <= run[k].disk.Keys
    ensures Durable(g, run, steps, k) == View(g, run[k])
  {
    RunInv(g, run, steps, k);
    CrashAtomicity(g, run, steps, k);
    CommitAlone(g, run[k], p);
    RecoveredHome(g, run[k].disk);
    var h, v := Home(g, Recovered(g, run[k].disk)), View(g, run[k]);
    assert h.Keys == v.Keys;
    forall b | b in h ensures h[b] == v[b] {
      assert !BeingWritten(run[k].procs, b);
    }
  }

  // ---------------------------------------------------------------- what readers see

  /** What a step of the running machine changes for readers. */
  ghost function Seen(g: Geometry, s: State, e: Step): Disk
    requires s.cache.Keys <= s.disk.Keys
  {
    if e.Modify? then View(g, s)[e.b := Data(e.data)] else View(g, s)
  }

  /** Readers see a block change when an operation modifies it, at once and as it was
      written, and at no other time: neither the log nor a commit changes what is read. */
  lemma ReadersSee(g: Geometry, run: seq<State>, steps: seq<Step>, k: nat)
    requires Roomy(g) && IsRun(g, run, steps) && k < |steps| && run[k].mode == Running && steps[k] != Crash
    ensures run[k].cache.Keys <= run[k].disk.Keys && run[k + 1].cache.Keys <= run[k + 1].disk.Keys
    ensures View(g, run[k + 1]) == Seen(g, run[k], steps[k])
  {
    RunInv(g, run, steps, k);
    assert Linked(g, run[k], steps[k], run[k + 1]);
    StepSees(g, run[k], steps[k]);
  }

  lemma StepSees(g: Geometry, s: State, e: Step)
    requires Inv(g, s) && Enabled(g, s, e) && s.mode == Running && e != Crash
    ensures var s' := Apply(g, s, e); s'.cache.Keys <= s'.disk.Keys && View(g, s') == Seen(g, s, e)
  {
    match e
    case Commit(p) => CommitKeepsView(g, s, p);
    case Load(_) => MoveSees(g, s, e);
    case Evict(_) => MoveSees(g, s, e);
    case Modify(p, b, data) => ModifySees(g, s, Apply(g, s, e), b, data);
    case Crash => assert false;
    case Recover => assert false;
    case _ => CopySees(g, s, Apply(g, s, e));
  }

  lemma MoveSees(g: Geometry, s: State, e: Step)
    requires Inv(g, s) && Enabled(g, s, e) && (e.Load? || e.Evict?)
    ensures var s' := Apply(g, s, e); s'.cache.Keys <= s'.disk.Keys && View(g, s') == View(g, s)
  {
    if CacheMove(g, s, e) {
      ReadStep(g, s, e);
    }
  }

  lemma ModifySees(g: Geometry, s: State, s': State, b: nat, data: seq<Byte>)
    requires s.cache.Keys <= s.disk.Keys && b in s.cache && !g.InLog(b) && s'.disk == s.disk
    requires s'.cache == s.cache[b := Buf(Data(data), s.cache[b].dirty)]
    ensures s'.cache.Keys <= s'.disk.Keys && View(g, s') == View(g, s)[b := Data(data)]
  {
    assert View(g, s').Keys == View(g, s)[b := Data(data)].Keys;
  }

  /** Steps that leave the contents of all cached copies and of the disk. */
  lemma CopySees(g: Geometry, s: State, s': State)
    requires s.cache.Keys <= s.disk.Keys && s'.disk == s.disk && s'.cache.Keys == s.cache.Keys
    requires forall b :: b in s.cache ==> s'.cache[b].data == s.cache[b].data
    ensures s'.cache.Keys <= s'.disk.Keys && View(g, s') == View(g, s)
  {
    assert View(g, s').Keys == View(g, s).Keys;
  }

  // ---------------------------------------------------------------- progress

  /** The processes inside an operation. */
  ghost function Inside(ps: seq<Proc>): set<nat> {
    set p: nat | p < |ps| && (ps[p].Op? || ps[p].Writing?)
  }

  lemma {:induction false} CountIs(ps: seq<Proc>)
    ensures Total(ps, Count) == |Inside(ps)|
  {
    if ps != [] {
      var n := |ps| - 1;
      CountIs(ps[..n]);
      assert forall p: nat :: p < n ==> ps[..n][p] == ps[p];
      assert Inside(ps) == Inside(ps[..n]) + if ps[n].Op? || ps[n].Writing? then {n} else {};
    }
  }

  /** `begin_op` refuses an idle process if and only if a commit runs, or the blocks logged
      and a full quota for each process inside an operation, and for this one, are more than
      LOGSIZE. */
  lemma AdmittedIff(g: Geometry, run: seq<State>, steps: seq<Step>, k: nat, p: nat)
    requires Roomy(g) && IsRun(g, run, steps) && k < |run| && run[k].mode == Running
    requires p < |run[k].procs| && run[k].procs[p].Idle?
    ensures !Enabled(g, run[k], BeginOp(p)) <==>
      || (exists q :: 0 <= q < |run[k].procs| && run[k].procs[q].Committer?)
      || |run[k].lh| + (|Inside(run[k].procs)| + 1) * MAXOPBLOCKS > LOGSIZE
  {
    var s := run[k];
    RunInv(g, run, steps, k);
    CountIs(s.procs);
    forall q | 0 <= q < |s.procs| && s.procs[q].Committer? ensures s.committing {
      CommitAlone(g, s, q);
    }
  }

  /** An operation is never kept waiting once it is inside: it can end, and a `log_write`
      that has begun can make its test and its append. It can modify any home block that is
      cached and that nobody else holds or modifies, as long as its quota lasts. */
  lemma OperationsGoOn(g: Geometry, run: seq<State>, steps: seq<Step>, k: nat, p: nat)
    requires Roomy(g) && IsRun(g, run, steps) && k < |run| && run[k].mode == Running && p < |run[k].procs|
    ensures run[k].procs[p].Op? ==> Enabled(g, run[k], EndOp(p))
    ensures run[k].procs[p].Writing? ==>
      Enabled(g, run[k], if run[k].procs[p].checked then Append(p) else Check(p))
    ensures run[k].procs[p].Op? ==> forall b, data :: Enabled(g, run[k], Modify(p, b, data)) <==>
      && b in run[k].cache && !g.InLog(b) && |run[k].procs[p].blocks + {b}| <= MAXOPBLOCKS
      && b !in run[k].held && !BeingWritten(run[k].procs, b)
  {
    RunInv(g, run, steps, k);
    assert ProcOk(g, run[k], run[k].procs[p]);
  }

  /** In every state of every run a process that may take a buffer gets a block exactly when
      the block is cached, or a buffer is unused, or one is clean and neither being modified
      nor held. */
  lemma ReadsGoOn(g: Geometry, run: seq<State>, steps: seq<Step>, k: nat, b: nat)
    requires Roomy(g) && IsRun(g, run, steps) && k < |run| && run[k].mode != Panicked
    requires HandFree(g, run[k]) && b in run[k].disk
    ensures CanRead(g, run[k], b) <==>
      || b in run[k].cache
      || |run[k].cache.Keys| < g.nbuf
      || exists v :: v in run[k].cache && !run[k].cache[v].dirty
           && !BeingWritten(run[k].procs, v) && v !in run[k].held
  {
    RunInv(g, run, steps, k);
    ReadGoesOn(g, run[k], b);
  }

  /** In every run a commit can go on, after some reads, exactly when it reads no further
      block, or has it cached, or the blocks of its transaction that are still pinned and
      those other processes hold leave a buffer. */
  lemma CommitNeverStuck(g: Geometry, run: seq<State>, steps: seq<Step>, k: nat, p: nat)
    requires Roomy(g) && IsRun(g, run, steps) && k < |run|
    requires run[k].mode == Running && p < |run[k].procs| && run[k].procs[p].Committer? && HandFree(g, run[k])
    ensures CanCommit(g, run[k], p) <==>
      || run[k].procs[p].pc == Finish
      || Need(g, run[k].procs[p].pc) in run[k].cache
      || |StillPinned(run[k].lh, run[k].procs[p].pc) + run[k].held| < g.nbuf
    ensures |StillPinned(run[k].lh, run[k].procs[p].pc)| <= LOGSIZE
  {
    RunInv(g, run, steps, k);
    CommitGoesOn(g, run[k], p);
    PinnedFew(run[k].lh, run[k].procs[p].pc);
  }

  lemma PinnedFew(lh: seq<nat>, pc: CommitPc)
    ensures |StillPinned(lh, pc)| <= |lh|
  {
    ElemsFew(lh);
    if pc.Install? && pc.i < |lh| {
      ElemsFew(lh[pc.i..]);
    }
  }

  /** With a buffer for each of LOGSIZE blocks and each hand, no read of any run is left
      without one. */
  lemma ReadsNeverPanic(g: Geometry, run: seq<State>, steps: seq<Step>, k: nat)
    requires Roomy(g) && IsRun(g, run, steps) && k < |steps| && steps[k].Load? && g.nbuf >= LOGSIZE + g.hands
    ensures run[k + 1].mode == run[k].mode != Panicked
  {
    RunInv(g, run, steps, k);
    assert Linked(g, run[k], steps[k], run[k + 1]);
    BufferAlwaysLeft(g, run[k]);
  }

  ghost function Remaining(s: State): nat
  {
    match s.mode
    case ReadHead => LOGSIZE + 2
    case Replaying(i) => if i < |s.lh| then |s.lh| - i + 1 else 1
    case ClearHead => 1
    case _ => 0
  }

  /** Let recovery run without a further crash: each step after the reads it needs. */
  ghost function Reboot(g: Geometry, s: State): (r: State)
    requires Inv(g, s) && Recovering(s) && g.nbuf >= 2
    decreases Remaining(s)
  {
    var mid := Ready(g, s);
    RecoveryProgress(g, s, mid);
    var s' := Apply(g, mid, Recover);
    if s'.mode == Running then s' else Reboot(g, s')
  }

  /** Some state that the reads for the next recovery step lead to. */
  ghost function Ready(g: Geometry, s: State): (s': State)
    requires Inv(g, s) && Recovering(s) && g.nbuf >= 2
    ensures Fetched(g, s, s')
  {
    RecoveryGoesOn(g, s);
    var s' :| Fetched(g, s, s');
    s'
  }

  /** Every step of recovery brings it nearer its end and keeps what the log stands for. */
  lemma RecoveryProgress(g: Geometry, s: State, mid: State)
    requires Inv(g, s) && Recovering(s) && Fetched(g, s, mid)
    ensures var s' := Apply(g, mid, Recover);
      && Inv(g, s') && Remaining(s') < Remaining(s) && (Done(g, s') || Recovering(s'))
      && Home(g, Recovered(g, s'.disk)) == Home(g, Recovered(g, s.disk))
  {
    FetchedKeeps(g, s, mid);
    RecoveryStep(g, mid);
  }

  lemma FetchedKeeps(g: Geometry, s: State, mid: State)
    requires Inv(g, s) && Recovering(s) && Fetched(g, s, mid)
    ensures ReadOnly(g, s, mid)
  {
    var steps :| Reads(g, s, steps, mid);
    ReadsKeep(g, s, steps, mid);
  }

  lemma RecoveryStep(g: Geometry, s: State)
    requires Inv(g, s) && Recovering(s) && Enabled(g, s, Recover)
    ensures var s' := Apply(g, s, Recover);
      && Inv(g, s') && Remaining(s') < Remaining(s) && (Done(g, s') || Recovering(s'))
      && Home(g, Recovered(g, s'.disk)) == Home(g, Recovered(g, s.disk))
  {
    assert forall b :: !BeingWritten(s.procs, b);
    StepGood(g, s, Recover);
    if s.mode.ClearHead? {
      NothingLogged(g, Apply(g, s, Recover).disk);
    }
  }

  /** Recovery is over: the header is empty and no operation is active. */
  ghost predicate Done(g: Geometry, s: State) {
    s.mode == Running && s.outstanding == 0 && !s.committing && HasHead(g, s.disk) && Logged(g, s.disk) == []
  }

  lemma NothingLogged(g: Geometry, d: Disk)
    requires DiskOk(g, d) && Logged(g, d) == []
    ensures Home(g, Recovered(g, d)) == Home(g, d)
  {
    RecoveredHome(g, d);
    assert Home(g, Recovered(g, d)) == Home(g, d);
  }

  /** Recovery finishes, its own writes included, with the home blocks equal to what the
      log stood for when it began, an empty header, and no operation active. */
  lemma {:induction false} RecoveryRestores(g: Geometry, s: State)
    requires Inv(g, s) && Recovering(s) && g.nbuf >= 2
    ensures var r := Reboot(g, s);
      && Inv(g, r) && Done(g, r)
      && Home(g, r.disk) == Home(g, Recovered(g, s.disk))
    decreases Remaining(s)
  {
    var mid := Ready(g, s);
    RecoveryProgress(g, s, mid);
    var s' := Apply(g, mid, Recover);
    if s'.mode == Running {
      NothingLogged(g, s'.disk);
    } else {
      RecoveryRestores(g, s');
    }
  }

  /** A crash in any state of any run, followed by a complete recovery, leaves the home
      blocks at the durable contents. */
  lemma CrashThenRecover(g: Geometry, run: seq<State>, steps: seq<Step>, k: nat)
    requires Roomy(g) && IsRun(g, run, steps) && k < |run| && g.nbuf >= 2
    ensures Inv(g, run[k]) && Inv(g, Apply(g, run[k], Crash))
    ensures Home(g, Reboot(g, Apply(g, run[k], Crash)).disk) == Durable(g, run, steps, k)
  {
    RunInv(g, run, steps, k);
    StepGood(g, run[k], Crash);
    CrashAtomicity(g, run, steps, k);
    RecoveryRestores(g, Apply(g, run[k], Crash));
  }

  // ---------------------------------------------------------------- reservation

  /** The reservation made by `begin_op`, in every reachable running state. */
  lemma Reservation(g: Geometry, run: seq<State>, steps: seq<Step>, k: nat)
    requires Roomy(g) && IsRun(g, run, steps) && k < |run| && run[k].mode == Running
    ensures |run[k].lh| + Total(run[k].procs, Unused) <= LOGSIZE
    ensures forall i, j :: 0 <= i < j < |run[k].lh| ==> run[k].lh[i] != run[k].lh[j]
    ensures run[k].committing ==> run[k].outstanding == 0
    ensures run[k].outstanding == Total(run[k].procs, Count)
  {
    RunInv(g, run, steps, k);
    if run[k].committing {
      var p :| 0 <= p < |run[k].procs| && run[k].procs[p].Committer?;
      CommitAlone(g, run[k], p);
    }
  }

  /** A step of a run panics in exactly two situations. `log_write` finds the log full: if it
      has more than LOGSIZE blocks then every operation has used its whole quota, and the
      caller is writing once more a block it has already logged, because the test comes
      before the absorption loop. Or a block is read while every buffer is pinned, being
      modified or held by another reader, which takes fewer than a buffer for each of
      LOGSIZE blocks and each hand. */
  lemma PanicsOnlyWhenFull(g: Geometry, run: seq<State>, steps: seq<Step>, k: nat)
    requires Roomy(g) && IsRun(g, run, steps) && k < |steps|
    requires run[k].mode != Panicked
    ensures run[k + 1].mode == Panicked <==>
      || (steps[k].Check? && (|run[k].lh| >= LOGSIZE || |run[k].lh| >= g.size - 1))
      || (steps[k].Load? && |run[k].cache.Keys| >= g.nbuf && forall b :: b in run[k].cache ==>
           run[k].cache[b].dirty || BeingWritten(run[k].procs, b) || b in run[k].held)
    ensures run[k + 1].mode == Panicked && steps[k].Check? && g.size > LOGSIZE ==>
      && |run[k].lh| == LOGSIZE && Total(run[k].procs, Unused) == 0 && g.nbuf >= LOGSIZE
      && run[k].procs[steps[k].p].b in run[k].procs[steps[k].p].blocks
    ensures run[k + 1].mode == Panicked && steps[k].Load? ==> g.nbuf < LOGSIZE + g.hands
  {
    var s, e := run[k], steps[k];
    RunInv(g, run, steps, k);
    assert Linked(g, s, e, run[k + 1]);
    StepGood(g, s, e);
    if e.Check? {
      OpCounted(s, e.p);
      if g.size > LOGSIZE && LogFull(g, s) {
        FullCheck(g, s, e.p);
      }
    } else if e.Load? && g.nbuf >= LOGSIZE + g.hands {
      ReadsNeverPanic(g, run, steps, k);
    }
  }

  lemma FullCheck(g: Geometry, s: State, p: nat)
    requires g.size > LOGSIZE && LogFull(g, s) && Inv(g, s) && Enabled(g, s, Check(p))
    ensures |s.lh| == LOGSIZE && Total(s.procs, Unused) == 0 && g.nbuf >= LOGSIZE
    ensures s.procs[p].b in s.procs[p].blocks
  {
    UnusedNonNegative(g, s);
    TotalNonNegative(s.procs, Unused);
    if s.procs[p].b !in s.procs[p].blocks {
      Reserved(g, s, p);
    }
    assert ProcOk(g, s, s.procs[p]);
    PinnedSize(s.lh, s.cache.Keys);
  }
}
