/** Sleep-locks over `sleep` and `wakeup`, with any number of processes on any number of
    CPUs. Every spinlock operation, every test of the loop in `acquiresleep`, every
    process-table entry visited by `wakeup1` and every context switch is one step, and
    the steps of different CPUs interleave freely. */
module SleepLock {
  import opened Basics

  datatype PState = SLEEPING | RUNNABLE | RUNNING

  /** Where a process is in the kernel; `ret` is the point a timer interrupt or a call of
      `kill` returns to. */
  datatype Pc =
    | User(held: bool)       // outside both functions; held: between acquiresleep and releasesleep
    | AcqLk                  // acquiresleep: acquire(&lk->lk)
    | Test                   //   while (lk->locked)
    | SetLocked              //   lk->locked = 1
    | SetPid                 //   lk->pid = myproc()->pid
    | AcqDone                //   release(&lk->lk)
    | SleepAcqPt             // sleep: acquire(&ptable.lock)
    | SleepRelLk             //   release(lk)
    | SleepMark              //   p->chan = chan; p->state = SLEEPING
    | SleepSched             //   sched()
    | SleepWoken             //   p->chan = 0
    | SleepRelPt             //   release(&ptable.lock)
    | SleepReacq             //   acquire(lk)
    | RelLk                  // releasesleep: acquire(&lk->lk)
    | ClearLocked            //   lk->locked = 0; lk->pid = 0
    | WakeAcqPt              // wakeup: acquire(&ptable.lock)
    | WakeScan(i: nat)       //   wakeup1 at entry i
    | WakeRelPt              //   release(&ptable.lock)
    | RelDone                // releasesleep: release(&lk->lk)
    | YieldAcqPt(ret: Pc)    // yield: acquire(&ptable.lock)
    | YieldMark(ret: Pc)     //   state = RUNNABLE
    | YieldSched(ret: Pc)    //   sched()
    | YieldBack(ret: Pc)     //   release(&ptable.lock)
    | KillAcqPt(ret: Pc, target: nat)
    | KillScan(ret: Pc, target: nat)
    | KillRelPt(ret: Pc)
    | Forkret                // first scheduling: release(&ptable.lock)

  /** `chan` says whether the process's wait channel is this sleep-lock. */
  datatype Proc = Proc(state: PState, chan: bool, pc: Pc)

  /** What a CPU executes: its scheduler loop, or a process chosen at that table entry. */
  datatype Run = SchedAcqPt | Scan(i: nat) | SchedRelPt | On(p: nat)

  datatype Cpu = Cpu(run: Run, ncli: int, spinning: bool)

  /** Process number p has pid p + 1; pid 0 in the lock means no holder.
      `lk` and `pt` are the CPUs holding the inner spinlock and `ptable.lock`. */
  datatype State = State(lk: Option<nat>, pt: Option<nat>, locked: bool, pid: nat,
                         procs: seq<Proc>, cpus: seq<Cpu>, panic: bool)

  datatype Lock = Lk | Pt

  datatype Step =
    | Spin(c: nat)                 // acquire: pushcli and the holding() test
    | Take(c: nat)                 // acquire: the xchg that succeeds
    | Release(c: nat)              // release, popcli included
    | Local(c: nat)                // any other statement
    | Enter(c: nat)                // the process calls acquiresleep or releasesleep
    | Interrupt(c: nat)            // timer interrupt: the process calls yield
    | CallKill(c: nat, target: nat)

  // ---------------------------------------------------------------- the code

  function WantsAt(pc: Pc): Option<Lock> {
    match pc
    case AcqLk => Some(Lk)
    case SleepReacq => Some(Lk)
    case RelLk => Some(Lk)
    case SleepAcqPt => Some(Pt)
    case WakeAcqPt => Some(Pt)
    case YieldAcqPt(_) => Some(Pt)
    case KillAcqPt(_, _) => Some(Pt)
    case _ => None
  }

  function AfterTake(pc: Pc): Pc
    requires WantsAt(pc).Some?
  {
    match pc
    case AcqLk => Test
    case SleepReacq => Test
    case RelLk => ClearLocked
    case SleepAcqPt => SleepRelLk
    case WakeAcqPt => WakeScan(0)
    case YieldAcqPt(ret) => YieldMark(ret)
    case KillAcqPt(ret, t) => KillScan(ret, t)
  }

  function ReleasesAt(pc: Pc): Option<Lock> {
    match pc
    case AcqDone => Some(Lk)
    case SleepRelLk => Some(Lk)
    case RelDone => Some(Lk)
    case SleepRelPt => Some(Pt)
    case WakeRelPt => Some(Pt)
    case YieldBack(_) => Some(Pt)
    case KillRelPt(_) => Some(Pt)
    case Forkret => Some(Pt)
    case _ => None
  }

  function AfterRelease(pc: Pc): Pc
    requires ReleasesAt(pc).Some?
  {
    match pc
    case AcqDone => User(true)
    case SleepRelLk => SleepMark
    case RelDone => User(false)
    case SleepRelPt => SleepReacq
    case WakeRelPt => RelDone
    case YieldBack(ret) => ret
    case KillRelPt(ret) => ret
    case Forkret => User(false)
  }

  predicate OnProc(s: State, c: nat) {
    c < |s.cpus| && s.cpus[c].run.On? && s.cpus[c].run.p < |s.procs|
  }

  function PcOf(s: State, c: nat): Pc
    requires OnProc(s, c)
  {
    s.procs[s.cpus[c].run.p].pc
  }

  function Wants(s: State, c: nat): Option<Lock>
    requires c < |s.cpus|
  {
    match s.cpus[c].run
    case SchedAcqPt => Some(Pt)
    case On(p) => if p < |s.procs| then WantsAt(s.procs[p].pc) else None
    case _ => None
  }

  function Releases(s: State, c: nat): Option<Lock>
    requires c < |s.cpus|
  {
    match s.cpus[c].run
    case SchedRelPt => Some(Pt)
    case On(p) => if p < |s.procs| then ReleasesAt(s.procs[p].pc) else None
    case _ => None
  }

  function Owner(s: State, l: Lock): Option<nat> {
    if l == Lk then s.lk else s.pt
  }

  function SetOwner(s: State, l: Lock, o: Option<nat>): State {
    if l == Lk then s.(lk := o) else s.(pt := o)
  }

  function SetPc(s: State, p: nat, pc: Pc): State
    requires p < |s.procs|
  {
    s.(procs := s.procs[p := s.procs[p].(pc := pc)])
  }

  /** Points at which interrupts are on, so that the timer can preempt the process. */
  predicate Preemptible(pc: Pc) {
    pc.User? || pc.AcqLk? || pc.RelLk? || pc.SleepReacq?
  }

  predicate Enabled(s: State, e: Step) {
    && !s.panic
    && e.c < |s.cpus|
    && match e
       case Spin(c) => Wants(s, c).Some? && !s.cpus[c].spinning
       case Take(c) => Wants(s, c).Some? && s.cpus[c].spinning && Owner(s, Wants(s, c).value).None?
       case Release(c) => Releases(s, c).Some?
       case Local(c) =>
         && Wants(s, c).None? && Releases(s, c).None?
         && (s.cpus[c].run.On? ==> OnProc(s, c) && !PcOf(s, c).User?)
       case Enter(c) => OnProc(s, c) && PcOf(s, c).User?
       case Interrupt(c) => OnProc(s, c) && Preemptible(PcOf(s, c)) && s.cpus[c].ncli == 0
       case CallKill(c, t) => OnProc(s, c) && PcOf(s, c).User? && t < |s.procs|
  }

  function Apply(s: State, e: Step): State
    requires Enabled(s, e)
  {
    var c := e.c;
    var cpu := s.cpus[c];
    match e
    case Spin(_) =>
      if Owner(s, Wants(s, c).value) == Some(c) then s.(panic := true)
      else s.(cpus := s.cpus[c := cpu.(ncli := cpu.ncli + 1, spinning := true)])
    case Take(_) =>
      var s1 := SetOwner(s, Wants(s, c).value, Some(c)).(cpus := s.cpus[c := cpu.(spinning := false)]);
      if cpu.run.On? then SetPc(s1, cpu.run.p, AfterTake(PcOf(s, c)))
      else s1.(cpus := s1.cpus[c := s1.cpus[c].(run := Scan(0))])
    case Release(_) =>
      if Owner(s, Releases(s, c).value) != Some(c) || cpu.ncli - 1 < 0 then s.(panic := true)
      else
        var s1 := SetOwner(s, Releases(s, c).value, None).(cpus := s.cpus[c := cpu.(ncli := cpu.ncli - 1)]);
        if cpu.run.On? then SetPc(s1, cpu.run.p, AfterRelease(PcOf(s, c)))
        else s1.(cpus := s1.cpus[c := s1.cpus[c].(run := SchedAcqPt)])
    case Local(_) => if cpu.run.On? then ProcStep(s, c) else ScanStep(s, c)
    case Enter(_) =>
      SetPc(s, cpu.run.p, if PcOf(s, c).held then RelLk else AcqLk)
    case Interrupt(_) => SetPc(s, cpu.run.p, YieldAcqPt(PcOf(s, c)))
    case CallKill(_, t) => SetPc(s, cpu.run.p, KillAcqPt(PcOf(s, c), t))
  }

  /** The scheduler looks at entry i, or has come to the end of the table. */
  function ScanStep(s: State, c: nat): State
    requires c < |s.cpus| && s.cpus[c].run.Scan?
  {
    var i := s.cpus[c].run.i;
    if i >= |s.procs| then s.(cpus := s.cpus[c := s.cpus[c].(run := SchedRelPt)])
    else if s.procs[i].state != RUNNABLE then s.(cpus := s.cpus[c := s.cpus[c].(run := Scan(i + 1))])
    else
      s.(procs := s.procs[i := s.procs[i].(state := RUNNING)],
         cpus := s.cpus[c := s.cpus[c].(run := On(i))])
  }

  /** `sched`: its panics, then the switch back to this CPU's scheduler loop. */
  function Sched(s: State, c: nat, resume: Pc): State
    requires OnProc(s, c)
  {
    var p := s.cpus[c].run.p;
    if s.pt != Some(c) || s.cpus[c].ncli != 1 || s.procs[p].state == RUNNING then s.(panic := true)
    else SetPc(s, p, resume).(cpus := s.cpus[c := s.cpus[c].(run := Scan(p + 1))])
  }

  function Wake(q: Proc): Proc {
    if q.state == SLEEPING && q.chan then q.(state := RUNNABLE) else q
  }

  /** `wakeup1` at entry i, or past the end of the table. */
  function WakeStep(s: State, p: nat, i: nat): State
    requires p < |s.procs|
  {
    if i >= |s.procs| then SetPc(s, p, WakeRelPt)
    else SetPc(s.(procs := s.procs[i := Wake(s.procs[i])]), p, WakeScan(i + 1))
  }

  /** `kill` makes its target runnable whatever it sleeps on. */
  function KillStep(s: State, p: nat, ret: Pc, t: nat): State
    requires p < |s.procs|
  {
    if t < |s.procs| && s.procs[t].state == SLEEPING then
      SetPc(s.(procs := s.procs[t := s.procs[t].(state := RUNNABLE)]), p, KillRelPt(ret))
    else SetPc(s, p, KillRelPt(ret))
  }

  /** Statements that touch only the process's own entry and the sleep-lock. */
  predicate OwnStatement(pc: Pc) {
    pc.Test? || pc.SetLocked? || pc.SetPid? || pc.SleepMark? || pc.SleepWoken? || pc.ClearLocked?
    || pc.YieldMark?
  }

  function OwnStep(s: State, p: nat): State
    requires p < |s.procs| && OwnStatement(s.procs[p].pc)
  {
    var q := s.procs[p];
    match q.pc
    case Test => SetPc(s, p, if s.locked then SleepAcqPt else SetLocked)
    case SetLocked => SetPc(s.(locked := true), p, SetPid)
    case SetPid => SetPc(s.(pid := p + 1), p, AcqDone)
    case SleepMark => s.(procs := s.procs[p := Proc(SLEEPING, true, SleepSched)])
    case SleepWoken => s.(procs := s.procs[p := q.(chan := false, pc := SleepRelPt)])
    case ClearLocked => SetPc(s.(locked := false, pid := 0), p, WakeAcqPt)
    case YieldMark(ret) => s.(procs := s.procs[p := q.(state := RUNNABLE, pc := YieldSched(ret))])
  }

  function ProcStep(s: State, c: nat): State
    requires OnProc(s, c) && WantsAt(PcOf(s, c)).None? && ReleasesAt(PcOf(s, c)).None? && !PcOf(s, c).User?
  {
    var p := s.cpus[c].run.p;
    var pc := s.procs[p].pc;
    if pc.SleepSched? then Sched(s, c, SleepWoken)
    else if pc.YieldSched? then Sched(s, c, YieldBack(pc.ret))
    else if pc.WakeScan? then WakeStep(s, p, pc.i)
    else if pc.KillScan? then KillStep(s, p, pc.ret, pc.target)
    else OwnStep(s, p)
  }

  // ---------------------------------------------------------------- invariant

  predicate PtRegion(pc: Pc) {
    pc.SleepRelLk? || pc.SleepMark? || pc.SleepSched? || pc.SleepWoken? || pc.SleepRelPt?
    || pc.WakeScan? || pc.WakeRelPt? || pc.YieldMark? || pc.YieldSched? || pc.YieldBack?
    || pc.KillScan? || pc.KillRelPt? || pc.Forkret?
  }

  predicate LkRegion(pc: Pc) {
    pc.Test? || pc.SetLocked? || pc.SetPid? || pc.AcqDone? || pc.SleepAcqPt? || pc.SleepRelLk?
    || pc.ClearLocked? || pc.WakeAcqPt? || pc.WakeScan? || pc.WakeRelPt? || pc.RelDone?
  }

  predicate Interrupted(pc: Pc) {
    pc.YieldAcqPt? || pc.YieldMark? || pc.YieldSched? || pc.YieldBack?
    || pc.KillAcqPt? || pc.KillScan? || pc.KillRelPt?
  }

  /** The process has set `locked` and not yet cleared it. */
  predicate Holds(pc: Pc) {
    if Interrupted(pc) then Holds(pc.ret)
    else pc.SetPid? || pc.AcqDone? || pc == User(true) || pc.RelLk? || pc.ClearLocked?
  }

  predicate RetOk(pc: Pc) {
    if pc.KillAcqPt? || pc.KillScan? || pc.KillRelPt? then pc.ret.User?
    else Interrupted(pc) ==> Preemptible(pc.ret)
  }

  /** CPU c is inside the critical section of lock l. */
  predicate Inside(s: State, c: nat, l: Lock)
    requires c < |s.cpus|
  {
    match s.cpus[c].run
    case SchedAcqPt => false
    case Scan(_) => l == Pt
    case SchedRelPt => l == Pt
    case On(p) => p < |s.procs| && if l == Pt then PtRegion(s.procs[p].pc) else LkRegion(s.procs[p].pc)
  }

  function One(b: bool): int {
    if b then 1 else 0
  }

  ghost predicate CpuOk(s: State, c: nat)
    requires c < |s.cpus|
  {
    && (s.cpus[c].run.On? ==> s.cpus[c].run.p < |s.procs|)
    && (s.pt == Some(c) <==> Inside(s, c, Pt))
    && (s.lk == Some(c) <==> Inside(s, c, Lk))
    && s.cpus[c].ncli == One(Inside(s, c, Pt)) + One(Inside(s, c, Lk)) + One(s.cpus[c].spinning)
    && (s.cpus[c].spinning ==> Wants(s, c).Some?)
  }

  ghost predicate OneCpuEach(s: State) {
    forall c, d :: 0 <= c < |s.cpus| && 0 <= d < |s.cpus| && s.cpus[c].run.On? && s.cpus[c].run == s.cpus[d].run
      ==> c == d
  }

  ghost predicate Parked(s: State, p: nat) {
    forall c :: 0 <= c < |s.cpus| ==> s.cpus[c].run != On(p)
  }

  /** A process off its CPU is at a return from `sched`, or new; one on a CPU is marked
      RUNNING except between giving up the CPU and the switch. */
  ghost predicate ProcOk(s: State, p: nat)
    requires p < |s.procs|
  {
    var q := s.procs[p];
    && RetOk(q.pc)
    && (Parked(s, p) ==>
          && (q.pc.SleepWoken? || q.pc.YieldBack? || q.pc.Forkret?)
          && q.state != RUNNING
          && (q.state == SLEEPING ==> q.pc.SleepWoken? && q.chan))
    && (!Parked(s, p) ==>
          if q.pc.SleepSched? then q.state == SLEEPING && q.chan
          else if q.pc.YieldSched? then q.state == RUNNABLE
          else q.state == RUNNING)
  }

  ghost predicate Structure(s: State) {
    && !s.panic
    && (forall c :: 0 <= c < |s.cpus| ==> CpuOk(s, c))
    && OneCpuEach(s)
    && (s.pt.Some? ==> s.pt.value < |s.cpus|)
    && (s.lk.Some? ==> s.lk.value < |s.cpus|)
    && (forall p :: 0 <= p < |s.procs| ==> ProcOk(s, p))
  }

  /** At most one holder; `locked` says whether there is one and `pid` who it is. */
  ghost predicate LockOk(s: State) {
    && (forall p, q :: 0 <= p < |s.procs| && 0 <= q < |s.procs| && Holds(s.procs[p].pc) && Holds(s.procs[q].pc)
          ==> p == q)
    && (s.locked <==> exists p :: 0 <= p < |s.procs| && Holds(s.procs[p].pc))
    && (forall p :: 0 <= p < |s.procs| && Holds(s.procs[p].pc) && !s.procs[p].pc.SetPid? ==> s.pid == p + 1)
    && (forall p :: 0 <= p < |s.procs| ==>
          && (s.procs[p].pc.SetLocked? ==> !s.locked)
          && (s.procs[p].pc.SleepAcqPt? || s.procs[p].pc.SleepRelLk? ==> s.locked))
  }

  /** Asleep on the lock, or past the point of no return on the way there. */
  predicate Waiting(q: Proc) {
    q.pc.SleepMark? || q.pc.SleepSched? || (q.pc.SleepWoken? && q.state == SLEEPING)
  }

  /** Process r is about to reach table entry p in its `wakeup`. */
  predicate WillWake(r: Proc, p: nat) {
    r.pc.WakeAcqPt? || (r.pc.WakeScan? && r.pc.i <= p)
  }

  ghost predicate WakeOk(s: State) {
    forall p :: 0 <= p < |s.procs| && Waiting(s.procs[p]) ==>
      s.locked || exists r :: 0 <= r < |s.procs| && WillWake(s.procs[r], p)
  }

  ghost predicate Inv(s: State) {
    Structure(s) && LockOk(s) && WakeOk(s)
  }

  // ---------------------------------------------------------------- structure

  /** What CPU c may do to a lock: nothing, take it when free, or give it up. */
  predicate LockMove(o: Option<nat>, o': Option<nat>, c: nat) {
    o' == o || (o == None && o' == Some(c)) || (o == Some(c) && o' == None)
  }

  /** CPU c moved: other CPUs keep their registers, and processes their position, except
      the one c runs. */
  predicate MovedBy(s: State, s': State, c: nat) {
    && c < |s.cpus| && |s'.cpus| == |s.cpus| && |s'.procs| == |s.procs| && !s'.panic
    && (forall d :: 0 <= d < |s.cpus| && d != c ==> s'.cpus[d] == s.cpus[d])
    && LockMove(s.pt, s'.pt, c) && LockMove(s.lk, s'.lk, c)
    && (forall p :: 0 <= p < |s.procs| && s.cpus[c].run != On(p) ==> s'.procs[p].pc == s.procs[p].pc)
  }

  lemma OtherCpus(s: State, s': State, c: nat)
    requires Structure(s) && MovedBy(s, s', c)
    ensures forall d :: 0 <= d < |s.cpus| && d != c ==> CpuOk(s', d)
  {
    forall d | 0 <= d < |s.cpus| && d != c ensures CpuOk(s', d) {
      assert CpuOk(s, d);
      assert CpuOk(s, c);
      assert s'.cpus[d] == s.cpus[d];
      if s.cpus[d].run.On? {
        assert s.cpus[d].run != s.cpus[c].run;
      }
    }
  }

  lemma ParkedSame(s: State, s': State, c: nat, p: nat)
    requires MovedBy(s, s', c) && (s'.cpus[c].run == On(p) <==> s.cpus[c].run == On(p))
    ensures Parked(s', p) <==> Parked(s, p)
  {
  }

  /** Steps that neither switch context nor touch another process's table entry. */
  lemma SameRun(s: State, s': State, c: nat)
    requires Structure(s) && MovedBy(s, s', c)
    requires CpuOk(s', c)
    requires s.cpus[c].run.On? ==> s'.cpus[c].run == s.cpus[c].run
    requires !s.cpus[c].run.On? ==> !s'.cpus[c].run.On?
    requires forall p :: 0 <= p < |s.procs| && s.cpus[c].run != On(p) ==>
      || s'.procs[p] == s.procs[p]
      || (s'.procs[p] == s.procs[p].(state := RUNNABLE) && s.procs[p].state == SLEEPING && s.pt == Some(c))
    requires s.cpus[c].run.On? ==> ProcOk(s', s.cpus[c].run.p)
    ensures Structure(s')
  {
    OtherCpus(s, s', c);
    assert CpuOk(s, c);
    forall p | 0 <= p < |s.procs| ensures ProcOk(s', p) {
      if s.cpus[c].run != On(p) {
        ParkedSame(s, s', c, p);
        assert ProcOk(s, p);
        if s'.procs[p] != s.procs[p] && !Parked(s, p) {
          var d :| 0 <= d < |s.cpus| && s.cpus[d].run == On(p);
          assert CpuOk(s, d) && Inside(s, d, Pt);
        }
      }
    }
  }

  lemma SpinStructure(s: State, c: nat)
    requires Structure(s) && Enabled(s, Spin(c))
    ensures Structure(Apply(s, Spin(c)))
  {
    var s' := Apply(s, Spin(c));
    assert CpuOk(s, c);
    if s.cpus[c].run.On? {
      assert ProcOk(s, s.cpus[c].run.p);
      ParkedSame(s, s', c, s.cpus[c].run.p);
    }
    SameRun(s, s', c);
  }

  lemma TakeStructure(s: State, c: nat)
    requires Structure(s) && Enabled(s, Take(c))
    ensures Structure(Apply(s, Take(c)))
  {
    var s' := Apply(s, Take(c));
    assert CpuOk(s, c);
    if s.cpus[c].run.On? {
      assert ProcOk(s, s.cpus[c].run.p);
      ParkedSame(s, s', c, s.cpus[c].run.p);
    }
    SameRun(s, s', c);
  }

  lemma ReleaseCpu(s: State, c: nat)
    requires Enabled(s, Release(c)) && !s.panic && CpuOk(s, c)
    requires s.cpus[c].run.On? ==> ProcOk(s, s.cpus[c].run.p)
    ensures var s' := Apply(s, Release(c)); MovedBy(s, s', c) && CpuOk(s', c)
  {
  }

  lemma ReleaseStructure(s: State, c: nat)
    requires Structure(s) && Enabled(s, Release(c))
    ensures Structure(Apply(s, Release(c)))
  {
    var s' := Apply(s, Release(c));
    assert CpuOk(s, c);
    ReleaseCpu(s, c);
    if s.cpus[c].run.On? {
      assert ProcOk(s, s.cpus[c].run.p);
      ParkedSame(s, s', c, s.cpus[c].run.p);
    }
    SameRun(s, s', c);
  }

  lemma CallStructure(s: State, e: Step)
    requires Structure(s) && Enabled(s, e) && (e.Enter? || e.Interrupt? || e.CallKill?)
    ensures Structure(Apply(s, e))
  {
    var s' := Apply(s, e);
    var p := s.cpus[e.c].run.p;
    assert CpuOk(s, e.c);
    assert ProcOk(s, p);
    assert Preemptible(PcOf(s, e.c));
    Called(s, s', e.c, s'.procs[p].pc);
  }

  /** A process outside all critical sections goes to a call of `acquire`. */
  lemma Called(s: State, s': State, c: nat, pc': Pc)
    requires Structure(s) && OnProc(s, c) && Preemptible(PcOf(s, c)) && s' == SetPc(s, s.cpus[c].run.p, pc')
    requires s.cpus[c].spinning ==> WantsAt(pc').Some?
    requires !PtRegion(pc') && !LkRegion(pc') && RetOk(pc') && !pc'.SleepSched? && !pc'.YieldSched?
    ensures Structure(s')
  {
    assert CpuOk(s, c);
    assert ProcOk(s, s.cpus[c].run.p);
    ParkedSame(s, s', c, s.cpus[c].run.p);
    SameRun(s, s', c);
  }

  /** Holding `ptable.lock` is exclusive. */
  lemma PtExclusive(s: State, c: nat, d: nat)
    requires Structure(s) && c < |s.cpus| && d < |s.cpus| && Inside(s, c, Pt) && Inside(s, d, Pt)
    ensures c == d
  {
    assert CpuOk(s, c) && CpuOk(s, d);
  }

  lemma LkExclusive(s: State, c: nat, d: nat)
    requires Structure(s) && c < |s.cpus| && d < |s.cpus| && Inside(s, c, Lk) && Inside(s, d, Lk)
    ensures c == d
  {
    assert CpuOk(s, c) && CpuOk(s, d);
  }

  /** A RUNNABLE entry seen by a scheduler, which holds `ptable.lock`, is off its CPU. */
  lemma RunnableIsParked(s: State, c: nat, p: nat)
    requires Structure(s) && c < |s.cpus| && Inside(s, c, Pt) && s.cpus[c].run != On(p)
    requires p < |s.procs| && s.procs[p].state == RUNNABLE
    ensures Parked(s, p)
  {
    assert ProcOk(s, p);
    if !Parked(s, p) {
      var d :| 0 <= d < |s.cpus| && s.cpus[d].run == On(p);
      PtExclusive(s, c, d);
    }
  }

  lemma ScanStructure(s: State, c: nat)
    requires Structure(s) && Enabled(s, Local(c)) && !s.cpus[c].run.On?
    ensures Structure(Apply(s, Local(c)))
  {
    var s' := Apply(s, Local(c));
    assert CpuOk(s, c);
    var i := s.cpus[c].run.i;
    if s'.cpus[c].run.On? {
      RunnableIsParked(s, c, i);
      assert ProcOk(s, i);
      OtherCpus(s, s', c);
      forall p | 0 <= p < |s.procs| ensures ProcOk(s', p) {
        if p != i {
          ParkedSame(s, s', c, p);
          assert ProcOk(s, p);
        }
      }
    } else {
      SameRun(s, s', c);
    }
  }

  /** `sched` never panics, and the process leaves its CPU at the point it will resume. */
  lemma SchedStructure(s: State, c: nat, resume: Pc)
    requires Structure(s) && OnProc(s, c)
    requires (PcOf(s, c).SleepSched? && resume == SleepWoken)
          || (PcOf(s, c).YieldSched? && resume == YieldBack(PcOf(s, c).ret))
    ensures Structure(Sched(s, c, resume))
  {
    var p := s.cpus[c].run.p;
    var s' := Sched(s, c, resume);
    assert CpuOk(s, c);
    assert ProcOk(s, p);
    OtherCpus(s, s', c);
    forall q | 0 <= q < |s.procs| ensures ProcOk(s', q) {
      if q != p {
        ParkedSame(s, s', c, q);
        assert ProcOk(s, q);
      } else {
        assert Parked(s', p);
      }
    }
  }

  /** Own statements stay inside the same critical sections. */
  lemma OwnCpu(s: State, c: nat)
    requires Structure(s) && OnProc(s, c) && OwnStatement(PcOf(s, c))
    ensures var s' := OwnStep(s, s.cpus[c].run.p);
      && s'.cpus == s.cpus && s'.pt == s.pt && s'.lk == s.lk && CpuOk(s', c)
      && (s.cpus[c].run.p < |s'.procs| && RetOk(s'.procs[s.cpus[c].run.p].pc))
  {
    var p := s.cpus[c].run.p;
    assert CpuOk(s, c);
    assert ProcOk(s, p);
    OwnRegions(s, p);
  }

  lemma OwnRegions(s: State, p: nat)
    requires p < |s.procs| && OwnStatement(s.procs[p].pc) && RetOk(s.procs[p].pc)
    ensures var pc, pc' := s.procs[p].pc, OwnStep(s, p).procs[p].pc;
      PtRegion(pc') == PtRegion(pc) && LkRegion(pc') == LkRegion(pc) && RetOk(pc')
  {
  }

  lemma OwnStructure(s: State, c: nat)
    requires Structure(s) && OnProc(s, c) && OwnStatement(PcOf(s, c))
    ensures Structure(OwnStep(s, s.cpus[c].run.p))
  {
    var p := s.cpus[c].run.p;
    var s' := OwnStep(s, p);
    OwnCpu(s, c);
    assert ProcOk(s, p);
    ParkedSame(s, s', c, p);
    SameRun(s, s', c);
  }

  lemma WakeStructure(s: State, c: nat, i: nat)
    requires Structure(s) && OnProc(s, c) && PcOf(s, c) == WakeScan(i)
    ensures Structure(WakeStep(s, s.cpus[c].run.p, i))
  {
    var p := s.cpus[c].run.p;
    var s' := WakeStep(s, p, i);
    assert CpuOk(s, c);
    assert ProcOk(s, p);
    ParkedSame(s, s', c, p);
    SameRun(s, s', c);
  }

  lemma KillStructure(s: State, c: nat, ret: Pc, t: nat)
    requires Structure(s) && OnProc(s, c) && PcOf(s, c) == KillScan(ret, t)
    ensures Structure(KillStep(s, s.cpus[c].run.p, ret, t))
  {
    var p := s.cpus[c].run.p;
    var s' := KillStep(s, p, ret, t);
    assert CpuOk(s, c);
    assert ProcOk(s, p);
    ParkedSame(s, s', c, p);
    SameRun(s, s', c);
  }

  lemma ProcStructure(s: State, c: nat)
    requires Structure(s) && Enabled(s, Local(c)) && s.cpus[c].run.On?
    ensures Structure(Apply(s, Local(c)))
  {
    var pc := PcOf(s, c);
    if pc.SleepSched? { SchedStructure(s, c, SleepWoken); }
    else if pc.YieldSched? { SchedStructure(s, c, YieldBack(pc.ret)); }
    else if pc.WakeScan? { WakeStructure(s, c, pc.i); }
    else if pc.KillScan? { KillStructure(s, c, pc.ret, pc.target); }
    else { OwnStructure(s, c); }
  }

  lemma StepStructure(s: State, e: Step)
    requires Structure(s) && Enabled(s, e)
    ensures Structure(Apply(s, e))
  {
    match e
    case Spin(c) => SpinStructure(s, c);
    case Take(c) => TakeStructure(s, c);
    case Release(c) => ReleaseStructure(s, c);
    case Local(c) => if s.cpus[c].run.On? { ProcStructure(s, c); } else { ScanStructure(s, c); }
    case Enter(_) => CallStructure(s, e);
    case Interrupt(_) => CallStructure(s, e);
    case CallKill(_, _) => CallStructure(s, e);
  }

  // ---------------------------------------------------------------- what a step moves

  /** The statement after pc. */
  predicate Next(s: State, pc: Pc, pc': Pc) {
    || (pc' == pc && WantsAt(pc).Some?)
    || (pc'.YieldAcqPt? && Preemptible(pc) && pc'.ret == pc)
    || match pc
       case User(held) => pc' == (if held then RelLk else AcqLk) || (pc'.KillAcqPt? && pc'.ret == pc)
       case Test => pc' == if s.locked then SleepAcqPt else SetLocked
       case SetLocked => pc' == SetPid
       case SetPid => pc' == AcqDone
       case SleepMark => pc' == SleepSched
       case SleepSched => pc' == SleepWoken
       case SleepWoken => pc' == SleepRelPt
       case ClearLocked => pc' == WakeAcqPt
       case WakeScan(i) => pc' == if i < |s.procs| then WakeScan(i + 1) else WakeRelPt
       case YieldMark(ret) => pc' == YieldSched(ret)
       case YieldSched(ret) => pc' == YieldBack(ret)
       case KillScan(ret, _) => pc' == KillRelPt(ret)
       case _ =>
         if WantsAt(pc).Some? then pc' == AfterTake(pc)
         else ReleasesAt(pc).Some? && pc' == AfterRelease(pc)
  }

  /** What a step of CPU c makes of the entry of a process that it does not run: the scheduler
      takes a RUNNABLE process it has come to, `wakeup1` and `kill` make a sleeper RUNNABLE,
      and nothing else touches it. */
  function Touched(s: State, c: nat, p: nat): Proc
    requires c < |s.cpus| && p < |s.procs|
  {
    var q := s.procs[p];
    if s.cpus[c].run == Scan(p) then
      if q.state == RUNNABLE then q.(state := RUNNING) else q
    else if OnProc(s, c) && PcOf(s, c) == WakeScan(p) then Wake(q)
    else if OnProc(s, c) && PcOf(s, c).KillScan? && PcOf(s, c).target == p && q.state == SLEEPING then
      q.(state := RUNNABLE)
    else q
  }

  /** Entry p after a step of CPU c. */
  predicate Entry(s: State, s': State, c: nat, p: nat)
    requires c < |s.cpus| && p < |s.procs| == |s'.procs|
  {
    var q, q' := s.procs[p], s'.procs[p];
    if s.cpus[c].run == On(p) then
      && Next(s, q.pc, q'.pc)
      && (Waiting(q') ==> Waiting(q) || q.pc.SleepRelLk?)
    else
      && q' == Touched(s, c, p)
      && (Waiting(q') ==> Waiting(q))
  }

  predicate Moves(s: State, s': State, c: nat) {
    && c < |s.cpus| == |s'.cpus| && |s'.procs| == |s.procs|
    && (forall d :: 0 <= d < |s.cpus| && d != c ==> s'.cpus[d] == s.cpus[d])
    && (forall p :: 0 <= p < |s.procs| ==> Entry(s, s', c, p))
    && if OnProc(s, c) && PcOf(s, c).SetLocked? then s'.locked && s'.pid == s.pid
       else if OnProc(s, c) && PcOf(s, c).ClearLocked? then !s'.locked
       else if OnProc(s, c) && PcOf(s, c).SetPid? then s'.locked == s.locked && s'.pid == s.cpus[c].run.p + 1
       else s'.locked == s.locked && s'.pid == s.pid
  }

  lemma SpinMoves(s: State, c: nat)
    requires Structure(s) && Enabled(s, Spin(c)) && !Apply(s, Spin(c)).panic
    ensures Moves(s, Apply(s, Spin(c)), c)
  {
  }

  lemma TakeMoves(s: State, c: nat)
    requires Structure(s) && Enabled(s, Take(c))
    ensures Moves(s, Apply(s, Take(c)), c)
  {
  }

  lemma ReleaseEntry(s: State, c: nat)
    requires OnProc(s, c) && ReleasesAt(PcOf(s, c)).Some? && ProcOk(s, s.cpus[c].run.p)
    ensures Entry(s, SetPc(s, s.cpus[c].run.p, AfterRelease(PcOf(s, c))), c, s.cpus[c].run.p)
  {
  }

  lemma ReleaseMoves(s: State, c: nat)
    requires Structure(s) && Enabled(s, Release(c)) && !Apply(s, Release(c)).panic
    ensures Moves(s, Apply(s, Release(c)), c)
  {
    var s' := Apply(s, Release(c));
    assert CpuOk(s, c);
    if s.cpus[c].run.On? {
      var p := s.cpus[c].run.p;
      assert ProcOk(s, p);
      ReleaseEntry(s, c);
      assert s'.procs == SetPc(s, p, AfterRelease(PcOf(s, c))).procs;
    }
    forall r | 0 <= r < |s.procs| && s.cpus[c].run != On(r) ensures Entry(s, s', c, r) {
      assert s'.procs[r] == s.procs[r];
    }
  }

  lemma CallMoves(s: State, e: Step)
    requires Structure(s) && Enabled(s, e) && (e.Enter? || e.Interrupt? || e.CallKill?)
    ensures Moves(s, Apply(s, e), e.c)
  {
  }

  lemma OwnEntry(s: State, c: nat)
    requires OnProc(s, c) && OwnStatement(PcOf(s, c)) && ProcOk(s, s.cpus[c].run.p)
    ensures Entry(s, OwnStep(s, s.cpus[c].run.p), c, s.cpus[c].run.p)
  {
  }

  lemma OwnMoves(s: State, c: nat)
    requires Structure(s) && OnProc(s, c) && OwnStatement(PcOf(s, c))
    ensures Moves(s, OwnStep(s, s.cpus[c].run.p), c)
  {
    var p := s.cpus[c].run.p;
    assert ProcOk(s, p);
    OwnEntry(s, c);
    forall r | 0 <= r < |s.procs| && r != p ensures Entry(s, OwnStep(s, p), c, r) {
      assert OwnStep(s, p).procs[r] == s.procs[r];
    }
  }

  lemma SchedMoves(s: State, c: nat, resume: Pc)
    requires Structure(s) && OnProc(s, c) && !Sched(s, c, resume).panic
    requires (PcOf(s, c).SleepSched? && resume == SleepWoken)
          || (PcOf(s, c).YieldSched? && resume == YieldBack(PcOf(s, c).ret))
    ensures Moves(s, Sched(s, c, resume), c)
  {
  }

  lemma WakeMoves(s: State, c: nat, i: nat)
    requires Structure(s) && OnProc(s, c) && PcOf(s, c) == WakeScan(i)
    ensures Moves(s, WakeStep(s, s.cpus[c].run.p, i), c)
  {
    assert ProcOk(s, s.cpus[c].run.p);
  }

  lemma KillMoves(s: State, c: nat, ret: Pc, t: nat)
    requires Structure(s) && OnProc(s, c) && PcOf(s, c) == KillScan(ret, t)
    ensures Moves(s, KillStep(s, s.cpus[c].run.p, ret, t), c)
  {
    assert ProcOk(s, s.cpus[c].run.p);
  }

  lemma ScanMoves(s: State, c: nat)
    requires Structure(s) && Enabled(s, Local(c)) && !s.cpus[c].run.On?
    ensures Moves(s, ScanStep(s, c), c)
  {
  }

  lemma LocalMoves(s: State, c: nat)
    requires Structure(s) && Enabled(s, Local(c)) && !Apply(s, Local(c)).panic
    ensures Moves(s, Apply(s, Local(c)), c)
  {
    if !s.cpus[c].run.On? {
      ScanMoves(s, c);
    } else {
      var pc := PcOf(s, c);
      if pc.SleepSched? { SchedMoves(s, c, SleepWoken); }
      else if pc.YieldSched? { SchedMoves(s, c, YieldBack(pc.ret)); }
      else if pc.WakeScan? { WakeMoves(s, c, pc.i); }
      else if pc.KillScan? { KillMoves(s, c, pc.ret, pc.target); }
      else { OwnMoves(s, c); }
    }
  }

  lemma StepMoves(s: State, e: Step)
    requires Structure(s) && Enabled(s, e)
    ensures Structure(Apply(s, e)) && Moves(s, Apply(s, e), e.c)
  {
    StepStructure(s, e);
    match e
    case Spin(c) => SpinMoves(s, c);
    case Take(c) => TakeMoves(s, c);
    case Release(c) => ReleaseMoves(s, c);
    case Local(c) => LocalMoves(s, c);
    case Enter(_) => CallMoves(s, e);
    case Interrupt(_) => CallMoves(s, e);
    case CallKill(_, _) => CallMoves(s, e);
  }

  // ---------------------------------------------------------------- mutual exclusion

  /** The inner spinlock protects the process at this point from all others. */
  lemma OnlyOneInLk(s: State, c: nat, p: nat)
    requires Structure(s) && OnProc(s, c) && p < |s.procs| && p != s.cpus[c].run.p
    requires LkRegion(PcOf(s, c))
    ensures !LkRegion(s.procs[p].pc)
  {
    assert ProcOk(s, p);
    if LkRegion(s.procs[p].pc) {
      assert !Parked(s, p);
      var d :| 0 <= d < |s.cpus| && s.cpus[d].run == On(p);
      LkExclusive(s, c, d);
    }
  }

  lemma AloneInLk(s: State, c: nat)
    requires Structure(s) && OnProc(s, c) && LkRegion(PcOf(s, c))
    ensures forall q :: 0 <= q < |s.procs| && q != s.cpus[c].run.p ==> !LkRegion(s.procs[q].pc)
  {
    forall q | 0 <= q < |s.procs| && q != s.cpus[c].run.p ensures !LkRegion(s.procs[q].pc) {
      OnlyOneInLk(s, c, q);
    }
  }

  /** Only the process run by c can change its claim on the lock. */
  lemma OthersKeep(s: State, s': State, c: nat)
    requires Moves(s, s', c)
    ensures forall q :: 0 <= q < |s.procs| && s.cpus[c].run != On(q) ==> s'.procs[q].pc == s.procs[q].pc
  {
    forall q | 0 <= q < |s.procs| && s.cpus[c].run != On(q) ensures s'.procs[q].pc == s.procs[q].pc {
      assert Entry(s, s', c, q);
    }
  }

  /** Only two statements change who holds the lock. */
  lemma PlainClaim(s: State, pc: Pc, pc': Pc)
    requires Next(s, pc, pc') && !pc.SetLocked? && !pc.ClearLocked? && !Interrupted(pc) && !Interrupted(pc')
    ensures Holds(pc') == Holds(pc)
  {
  }

  lemma NextClaim(s: State, pc: Pc, pc': Pc)
    requires Next(s, pc, pc') && RetOk(pc) && !pc.SetLocked? && !pc.ClearLocked?
    ensures Holds(pc') == Holds(pc)
  {
    if Interrupted(pc) {
      assert Holds(pc) == Holds(pc.ret);
      assert Interrupted(pc') ==> Holds(pc') == Holds(pc'.ret);
    } else if Interrupted(pc') {
      assert Holds(pc') == Holds(pc'.ret);
    } else {
      PlainClaim(s, pc, pc');
    }
  }

  lemma NextTest(s: State, pc: Pc, pc': Pc)
    requires Next(s, pc, pc') && RetOk(pc)
    ensures pc'.SetPid? ==> pc.SetLocked?
    ensures pc'.SetLocked? ==> !s.locked
    ensures pc'.SleepAcqPt? ==> s.locked || pc.SleepAcqPt?
    ensures pc'.SleepRelLk? ==> pc.SleepAcqPt?
  {
  }

  lemma SetsLock(s: State, s': State, c: nat)
    requires Inv(s) && Moves(s, s', c) && OnProc(s, c) && PcOf(s, c).SetLocked?
    ensures LockOk(s')
  {
    OthersKeep(s, s', c);
    AloneInLk(s, c);
    var p := s.cpus[c].run.p;
    assert Entry(s, s', c, p);
    assert Holds(s'.procs[p].pc);
  }

  lemma ClearsLock(s: State, s': State, c: nat)
    requires Inv(s) && Moves(s, s', c) && OnProc(s, c) && PcOf(s, c).ClearLocked?
    ensures LockOk(s')
  {
    OthersKeep(s, s', c);
    AloneInLk(s, c);
    var p := s.cpus[c].run.p;
    assert Entry(s, s', c, p);
    assert Holds(s.procs[p].pc);
  }

  lemma SetsPid(s: State, s': State, c: nat)
    requires Inv(s) && Moves(s, s', c) && OnProc(s, c) && PcOf(s, c).SetPid?
    ensures LockOk(s')
  {
    OthersKeep(s, s', c);
    AloneInLk(s, c);
    var p := s.cpus[c].run.p;
    assert Entry(s, s', c, p);
    assert Holds(s.procs[p].pc) && Holds(s'.procs[p].pc);
  }

  /** Steps that leave `locked` and `pid` alone and keep each process's claim. */
  lemma ClaimsKept(s: State, s': State)
    requires LockOk(s) && |s'.procs| == |s.procs|
    requires s'.locked == s.locked && s'.pid == s.pid
    requires forall p :: 0 <= p < |s.procs| ==>
      && (Holds(s'.procs[p].pc) <==> Holds(s.procs[p].pc))
      && (s'.procs[p].pc.SetPid? ==> s.procs[p].pc.SetPid?)
      && (s.procs[p].pc.SetPid? ==> s'.procs[p].pc.SetPid?)
      && (s'.procs[p].pc.SetLocked? ==> s.procs[p].pc.SetLocked? || !s.locked)
      && (s'.procs[p].pc.SleepAcqPt? || s'.procs[p].pc.SleepRelLk? ==>
            s.procs[p].pc.SleepAcqPt? || s.procs[p].pc.SleepRelLk? || s.locked)
    ensures LockOk(s')
  {
    if s.locked {
      var p :| 0 <= p < |s.procs| && Holds(s.procs[p].pc);
      assert Holds(s'.procs[p].pc);
    }
  }

  lemma MovesLock(s: State, s': State, c: nat)
    requires Inv(s) && Moves(s, s', c)
    ensures LockOk(s')
  {
    if OnProc(s, c) && PcOf(s, c).SetLocked? {
      SetsLock(s, s', c);
    } else if OnProc(s, c) && PcOf(s, c).ClearLocked? {
      ClearsLock(s, s', c);
    } else if OnProc(s, c) && PcOf(s, c).SetPid? {
      SetsPid(s, s', c);
    } else {
      OthersKeep(s, s', c);
      assert s.cpus[c].run.On? ==> OnProc(s, c) by { assert CpuOk(s, c); }
      if OnProc(s, c) {
        var p := s.cpus[c].run.p;
        assert ProcOk(s, p);
        assert Entry(s, s', c, p);
        NextClaim(s, PcOf(s, c), s'.procs[p].pc);
        NextTest(s, PcOf(s, c), s'.procs[p].pc);
      }
      ClaimsKept(s, s');
    }
  }

  // ---------------------------------------------------------------- no lost wakeup

  /** A `wakeup` never steps past an entry that is asleep on its channel. */
  lemma PassesOver(s: State, s': State, c: nat, r: nat, p: nat)
    requires Inv(s) && Moves(s, s', c) && p < |s.procs| && r < |s.procs|
    requires Waiting(s.procs[p]) && WillWake(s.procs[r], p) && !WillWake(s'.procs[r], p)
    ensures !Waiting(s'.procs[p])
  {
    assert Entry(s, s', c, r) && Entry(s, s', c, p);
    assert ProcOk(s, p) && ProcOk(s, r);
    assert s.cpus[c].run == On(r) && s.procs[r].pc == WakeScan(p);
    if !Parked(s, p) {
      var d :| 0 <= d < |s.cpus| && s.cpus[d].run == On(p);
      PtExclusive(s, c, d);
    }
  }

  lemma MovesWake(s: State, s': State, c: nat, p: nat)
    requires Inv(s) && Moves(s, s', c) && p < |s.procs| && Waiting(s'.procs[p])
    ensures s'.locked || exists r :: 0 <= r < |s.procs| && WillWake(s'.procs[r], p)
  {
    assert Entry(s, s', c, p);
    if Waiting(s.procs[p]) && !s.locked {
      var r :| 0 <= r < |s.procs| && WillWake(s.procs[r], p);
      if !WillWake(s'.procs[r], p) {
        PassesOver(s, s', c, r, p);
      }
    } else if !s'.locked {
      assert s.locked && OnProc(s, c) && PcOf(s, c).ClearLocked?;
      var r := s.cpus[c].run.p;
      assert Entry(s, s', c, r);
      assert WillWake(s'.procs[r], p);
    }
  }

  lemma StepInv(s: State, e: Step)
    requires Inv(s) && Enabled(s, e)
    ensures Inv(Apply(s, e))
  {
    var s' := Apply(s, e);
    StepMoves(s, e);
    MovesLock(s, s', e.c);
    forall p | 0 <= p < |s'.procs| && Waiting(s'.procs[p])
      ensures s'.locked || exists r :: 0 <= r < |s'.procs| && WillWake(s'.procs[r], p)
    {
      MovesWake(s, s', e.c, p);
    }
  }

  // ---------------------------------------------------------------- whole runs

  /** All CPUs enter their schedulers; every process is new and the lock is free. */
  ghost predicate Init(s: State) {
    && !s.panic && !s.locked && s.pid == 0 && s.lk == None && s.pt == None
    && (forall p :: 0 <= p < |s.procs| ==> s.procs[p] == Proc(RUNNABLE, false, Forkret))
    && (forall c :: 0 <= c < |s.cpus| ==> s.cpus[c] == Cpu(SchedAcqPt, 0, false))
  }

  ghost predicate Linked(s: State, e: Step, s': State) {
    Enabled(s, e) && s' == Apply(s, e)
  }

  ghost predicate IsRun(run: seq<State>, steps: seq<Step>) {
    && |run| == |steps| + 1
    && Init(run[0])
    && (forall i :: 0 <= i < |steps| ==> Linked(run[i], steps[i], run[i + 1]))
  }

  lemma InitInv(s: State)
    requires Init(s)
    ensures Inv(s)
  {
    forall p | 0 <= p < |s.procs| ensures ProcOk(s, p) {
      assert Parked(s, p);
    }
  }

  lemma {:induction false} RunInv(run: seq<State>, steps: seq<Step>, k: nat)
    requires IsRun(run, steps) && k < |run|
    ensures Inv(run[k])
  {
    if k == 0 {
      InitInv(run[0]);
    } else {
      RunInv(run, steps, k - 1);
      assert Linked(run[k - 1], steps[k - 1], run[k]);
      StepInv(run[k - 1], steps[k - 1]);
    }
  }

  /** No interleaving makes `acquire`, `release`, `popcli` or `sched` panic. */
  lemma NoPanic(run: seq<State>, steps: seq<Step>, k: nat)
    requires IsRun(run, steps) && k < |run|
    ensures !run[k].panic
  {
    RunInv(run, steps, k);
  }

  /** At most one process is between `acquiresleep` and `releasesleep`, even if preempted
      or killed there, and the lock records its pid. */
  lemma MutualExclusion(run: seq<State>, steps: seq<Step>, k: nat, p: nat, q: nat)
    requires IsRun(run, steps) && k < |run| && p < |run[k].procs| && q < |run[k].procs|
    requires Holds(run[k].procs[p].pc)
    ensures run[k].locked
    ensures !run[k].procs[p].pc.SetPid? ==> run[k].pid == p + 1
    ensures Holds(run[k].procs[q].pc) ==> p == q
  {
    RunInv(run, steps, k);
  }

  /** A process asleep on the lock while nobody is inside the lock's own code implies that
      some process holds the lock, so a `releasesleep` and its `wakeup` are still to come. */
  lemma NoLostWakeup(run: seq<State>, steps: seq<Step>, k: nat, p: nat)
    requires IsRun(run, steps) && k < |run| && p < |run[k].procs|
    requires run[k].lk == None && Waiting(run[k].procs[p])
    ensures run[k].locked
    ensures exists q :: 0 <= q < |run[k].procs| && Holds(run[k].procs[q].pc)
  {
    var s := run[k];
    RunInv(run, steps, k);
    if !s.locked {
      var r :| 0 <= r < |s.procs| && WillWake(s.procs[r], p);
      assert ProcOk(s, r);
      var c :| 0 <= c < |s.cpus| && s.cpus[c].run == On(r);
      assert CpuOk(s, c) && Inside(s, c, Lk);
    }
  }

  /** The spinlocks cannot deadlock: a CPU spins for `ptable.lock` only while its owner is
      not spinning, and for the inner lock only while its owner spins, if at all, for
      `ptable.lock`. */
  lemma NoSpinDeadlock(run: seq<State>, steps: seq<Step>, k: nat, c: nat)
    requires IsRun(run, steps) && k < |run| && c < |run[k].cpus|
    requires run[k].cpus[c].spinning && Wants(run[k], c).Some?
    requires Owner(run[k], Wants(run[k], c).value).Some?
    ensures var d := Owner(run[k], Wants(run[k], c).value).value;
      && d < |run[k].cpus| && d != c
      && (run[k].cpus[d].spinning ==> Wants(run[k], c) == Some(Lk) && Wants(run[k], d) == Some(Pt))
  {
    RunInv(run, steps, k);
    var s := run[k];
    assert CpuOk(s, c);
    var d := Owner(s, Wants(s, c).value).value;
    assert CpuOk(s, d);
  }
}
