/** The scheduler's side of a sleep-lock: every round looks at every process and runs it if it
    is RUNNABLE then, and a process that has been woken from its sleep, once it is run, comes
    back to the test of `acquiresleep`. */
module Scheduler {
  import opened Basics
  import opened SleepLock

  // ---------------------------------------------------------------- one look

  /** What becomes of a CPU that is not in a process, or is in one. */
  lemma CpuMoves(s: State, e: Step, c: nat)
    requires Structure(s) && Enabled(s, e) && c < |s.cpus|
    ensures |Apply(s, e).cpus| == |s.cpus|
    ensures var r, r' := s.cpus[c].run, Apply(s, e).cpus[c].run;
      if e.c != c then r' == r
      else match r
           case SchedAcqPt => r' == SchedAcqPt || r' == Scan(0)
           case Scan(i) =>
             r' == if i >= |s.procs| then SchedRelPt
                   else if s.procs[i].state == RUNNABLE then On(i)
                   else Scan(i + 1)
           case SchedRelPt => r' == SchedAcqPt
           case On(p) => r' == On(p) || r' == Scan(p + 1)
  {
    StepMoves(s, e);
    assert CpuOk(s, c);
  }

  /** A scan never steps past an entry that is RUNNABLE: it puts that process on its CPU. */
  lemma NeverPasses(s: State, e: Step, c: nat, p: nat)
    requires Structure(s) && Enabled(s, e) && c < |s.cpus| && p < |s.procs|
    requires s.cpus[c].run == Scan(p) && s.procs[p].state == RUNNABLE
    requires c < |Apply(s, e).cpus| && Apply(s, e).cpus[c].run != Scan(p)
    ensures e == Local(c) && Apply(s, e).cpus[c].run == On(p)
    ensures Apply(s, e).procs == s.procs[p := s.procs[p].(state := RUNNING)]
  {
    CpuMoves(s, e, c);
  }

  // ---------------------------------------------------------------- a round

  /** How many entries this round has dealt with. */
  function Place(r: Run): nat {
    match r
    case Scan(i) => i
    case On(p) => p + 1
    case _ => 0
  }

  /** CPU c is between taking and releasing `ptable.lock` in its scheduler loop, perhaps
      running a process. */
  predicate InRound(s: State, c: nat) {
    c < |s.cpus| && (s.cpus[c].run.Scan? || s.cpus[c].run.On?)
  }

  /** In this step CPU c looks at entry p and runs the process there if it is RUNNABLE. */
  predicate Looks(s: State, s': State, c: nat, p: nat) {
    && c < |s.cpus| && c < |s'.cpus| && p < |s.procs|
    && s.cpus[c].run == Scan(p)
    && s'.cpus[c].run == if s.procs[p].state == RUNNABLE then On(p) else Scan(p + 1)
  }

  /** Step m of the run, as far as this round of CPU c and entry p are concerned. */
  predicate Advances(run: seq<State>, c: nat, p: nat, m: nat)
    requires m + 1 < |run|
  {
    InRound(run[m], c) && Place(run[m].cpus[c].run) <= p && c < |run[m + 1].cpus|
      && (run[m + 1].cpus[c].run == SchedRelPt || p < Place(run[m + 1].cpus[c].run))
    ==> Looks(run[m], run[m + 1], c, p)
  }

  lemma Advance(s: State, e: Step, s': State, c: nat, p: nat)
    requires Inv(s) && Linked(s, e, s') && InRound(s, c) && c < |s'.cpus| && p < |s.procs|
    requires Place(s.cpus[c].run) <= p
    requires s'.cpus[c].run == SchedRelPt || p < Place(s'.cpus[c].run)
    ensures Looks(s, s', c, p)
  {
    CpuMoves(s, e, c);
  }

  lemma AdvanceAt(run: seq<State>, steps: seq<Step>, c: nat, p: nat, m: nat)
    requires IsRun(run, steps) && m < |steps| && p < |run[0].procs|
    ensures Advances(run, c, p, m)
  {
    RunInv(run, steps, m);
    SameSizes(run, steps, m);
    assert Linked(run[m], steps[m], run[m + 1]);
    if !Advances(run, c, p, m) {
      Advance(run[m], steps[m], run[m + 1], c, p);
    }
  }

  lemma {:induction false} SameSizes(run: seq<State>, steps: seq<Step>, k: nat)
    requires IsRun(run, steps) && k < |run|
    ensures |run[k].cpus| == |run[0].cpus| && |run[k].procs| == |run[0].procs|
  {
    if k > 0 {
      SameSizes(run, steps, k - 1);
      RunInv(run, steps, k - 1);
      assert Linked(run[k - 1], steps[k - 1], run[k]);
      StepMoves(run[k - 1], steps[k - 1]);
    }
  }

  lemma {:induction false} ByAdvancing(run: seq<State>, c: nat, a: nat, b: nat, p: nat) returns (k: nat)
    requires a <= b < |run| && (forall m :: a <= m < b ==> Advances(run, c, p, m))
    requires forall m :: a <= m < b ==> InRound(run[m], c)
    requires InRound(run[a], c) && Place(run[a].cpus[c].run) <= p
    requires c < |run[b].cpus| && (run[b].cpus[c].run == SchedRelPt || p < Place(run[b].cpus[c].run))
    ensures a <= k < b && Looks(run[k], run[k + 1], c, p)
    decreases b - a
  {
    k := b - 1;
    assert InRound(run[k], c) && Advances(run, c, p, k);
    if p < Place(run[k].cpus[c].run) {
      k := ByAdvancing(run, c, a, b - 1, p);
    }
  }

  /** A round that comes from place a to place b looks at every entry in between. */
  lemma RoundLooks(run: seq<State>, steps: seq<Step>, c: nat, a: nat, b: nat, p: nat) returns (k: nat)
    requires IsRun(run, steps) && a <= b < |run| && p < |run[0].procs|
    requires forall m :: a <= m < b ==> InRound(run[m], c)
    requires InRound(run[a], c) && Place(run[a].cpus[c].run) <= p
    requires c < |run[b].cpus| && (run[b].cpus[c].run == SchedRelPt || p < Place(run[b].cpus[c].run))
    ensures a <= k < b && Looks(run[k], run[k + 1], c, p)
  {
    forall m | a <= m < b ensures Advances(run, c, p, m) {
      AdvanceAt(run, steps, c, p, m);
    }
    k := ByAdvancing(run, c, a, b, p);
  }

  /** A round of the scheduler, from the first entry to the end of the table, looks at every
      process and runs those that are RUNNABLE then; which of them run in between, for how
      long and on how many CPUs does not matter. */
  lemma WholeRound(run: seq<State>, steps: seq<Step>, c: nat, a: nat, b: nat, p: nat)
    requires IsRun(run, steps) && a <= b < |run| && p < |run[0].procs|
    requires forall m :: a <= m < b ==> InRound(run[m], c)
    requires c < |run[a].cpus| && run[a].cpus[c].run == Scan(0)
    requires c < |run[b].cpus| && run[b].cpus[c].run == SchedRelPt
    ensures exists k :: a <= k < b && Looks(run[k], run[k + 1], c, p)
  {
    var k := RoundLooks(run, steps, c, a, b, p);
  }

  // ---------------------------------------------------------------- back to the test

  /** How far process p has come on CPU c, from being found by the scheduler to the test
      `while (lk->locked)`. */
  predicate AtStage(s: State, c: nat, p: nat, k: nat) {
    && c < |s.cpus| && p < |s.procs|
    && match k
       case 0 => s.cpus[c].run == Scan(p) && s.procs[p].state == RUNNABLE && s.procs[p].pc == SleepWoken
       case 1 => s.cpus[c].run == On(p) && s.procs[p].pc == SleepWoken
       case 2 => s.cpus[c].run == On(p) && s.procs[p].pc == SleepRelPt && !s.procs[p].chan
       case 3 => s.cpus[c].run == On(p) && s.procs[p].pc == SleepReacq && !s.cpus[c].spinning && !s.procs[p].chan
       case 4 => s.cpus[c].run == On(p) && s.procs[p].pc == SleepReacq && s.cpus[c].spinning && !s.procs[p].chan
       case 5 => s.cpus[c].run == On(p) && s.procs[p].pc == Test && s.lk == Some(c) && !s.procs[p].chan
       case _ => false
  }

  /** Which step is the next of that CPU. */
  function NextStep(c: nat, k: nat): Step {
    match k
    case 2 => Release(c)
    case 3 => Spin(c)
    case 4 => Take(c)
    case _ => Local(c)
  }

  lemma OnlyStep(s: State, e: Step, c: nat, p: nat, k: nat)
    requires Inv(s) && Enabled(s, e) && e.c == c && e != Interrupt(c) && k < 5 && AtStage(s, c, p, k)
    ensures e == NextStep(c, k)
  {
  }

  lemma OwnStage(s: State, c: nat, p: nat, k: nat)
    requires k < 5 && AtStage(s, c, p, k) && Enabled(s, NextStep(c, k)) && !Apply(s, NextStep(c, k)).panic
    requires CpuOk(s, c) && RetOk(s.procs[p].pc)
    ensures AtStage(Apply(s, NextStep(c, k)), c, p, k + 1)
  {
  }

  /** A step of another CPU changes neither this one nor where the process it runs or looks at
      stands, nor, while this one holds `ptable.lock`, that process's state. */
  lemma OtherStage(s: State, s': State, d: nat, c: nat, p: nat, k: nat)
    requires Inv(s) && Moves(s, s', d) && d != c && k < 5 && AtStage(s, c, p, k)
    ensures AtStage(s', c, p, k)
  {
    assert Entry(s, s', d, p);
    assert CpuOk(s, c) && CpuOk(s, d) && ProcOk(s, p);
  }

  /** Each step of that CPU but a timer interrupt takes the process one stage on, and the
      steps of other CPUs leave it where it is. */
  lemma StageStep(s: State, e: Step, c: nat, p: nat, k: nat)
    requires Inv(s) && Enabled(s, e) && e != Interrupt(c) && k < 5 && AtStage(s, c, p, k)
    ensures AtStage(Apply(s, e), c, p, if e.c == c then k + 1 else k)
  {
    StepMoves(s, e);
    if e.c != c {
      OtherStage(s, Apply(s, e), e.c, c, p, k);
    } else {
      assert CpuOk(s, c) && ProcOk(s, p);
      OnlyStep(s, e, c, p, k);
      OwnStage(s, c, p, k);
    }
  }

  /** The steps that CPU c takes from a to b. */
  function Own(steps: seq<Step>, c: nat, a: nat, b: nat): nat
    requires a <= b <= |steps|
  {
    if a == b then 0 else Own(steps, c, a, b - 1) + if steps[b - 1].c == c then 1 else 0
  }

  predicate Proceeds(run: seq<State>, e: Step, c: nat, p: nat, m: nat)
    requires m + 1 < |run|
  {
    forall k :: 0 <= k < 5 && AtStage(run[m], c, p, k) && e != Interrupt(c) ==>
      AtStage(run[m + 1], c, p, if e.c == c then k + 1 else k)
  }

  lemma ProceedAt(run: seq<State>, steps: seq<Step>, c: nat, p: nat, m: nat)
    requires IsRun(run, steps) && m < |steps|
    ensures Proceeds(run, steps[m], c, p, m)
  {
    RunInv(run, steps, m);
    assert Linked(run[m], steps[m], run[m + 1]);
    forall k | 0 <= k < 5 && AtStage(run[m], c, p, k) && steps[m] != Interrupt(c)
      ensures AtStage(run[m + 1], c, p, if steps[m].c == c then k + 1 else k)
    {
      StageStep(run[m], steps[m], c, p, k);
    }
  }

  lemma {:induction false} ByProceeding(run: seq<State>, steps: seq<Step>, c: nat, p: nat, a: nat, b: nat)
    requires a <= b < |run| == |steps| + 1 && AtStage(run[a], c, p, 0)
    requires forall m :: a <= m < b ==> steps[m] != Interrupt(c) && Proceeds(run, steps[m], c, p, m)
    requires b > a ==> Own(steps, c, a, b - 1) < 5
    ensures AtStage(run[b], c, p, Own(steps, c, a, b))
  {
    if b > a {
      ByProceeding(run, steps, c, p, a, b - 1);
      assert Proceeds(run, steps[b - 1], c, p, b - 1);
    }
  }

  /** A woken process that is RUNNABLE when a scan comes to it is resumed and, five steps of
      its CPU later, is back at the test of `acquiresleep` and holds the inner lock, whatever
      the other CPUs do meanwhile, if no timer interrupt comes on its own. */
  lemma ComesBack(run: seq<State>, steps: seq<Step>, c: nat, p: nat, a: nat, b: nat)
    requires IsRun(run, steps) && a <= b < |run| && AtStage(run[a], c, p, 0)
    requires forall m :: a <= m < b ==> steps[m] != Interrupt(c)
    requires b > a ==> Own(steps, c, a, b - 1) < 5
    ensures AtStage(run[b], c, p, Own(steps, c, a, b))
  {
    forall m | a <= m < b ensures Proceeds(run, steps[m], c, p, m) {
      ProceedAt(run, steps, c, p, m);
    }
    ByProceeding(run, steps, c, p, a, b);
  }

  lemma {:induction false} FiveSteps(steps: seq<Step>, c: nat, a: nat, b: nat) returns (t: nat)
    requires a <= b <= |steps| && Own(steps, c, a, b) >= 5
    ensures a < t <= b && Own(steps, c, a, t) == 5 && Own(steps, c, a, t - 1) < 5
    decreases b - a
  {
    if Own(steps, c, a, b - 1) >= 5 {
      t := FiveSteps(steps, c, a, b - 1);
    } else {
      t := b;
    }
  }

  /** Before that CPU gets to the end of the table, the process is back at the test. */
  lemma BackInRound(run: seq<State>, steps: seq<Step>, c: nat, p: nat, a: nat, b: nat) returns (t: nat)
    requires IsRun(run, steps) && a <= b < |run| && AtStage(run[a], c, p, 0)
    requires forall m :: a <= m < b ==> steps[m] != Interrupt(c)
    requires c < |run[b].cpus| && run[b].cpus[c].run == SchedRelPt
    ensures a < t <= b && AtStage(run[t], c, p, 5)
  {
    if Own(steps, c, a, b) < 5 {
      ComesBack(run, steps, c, p, a, b);
      assert false;
    }
    t := FiveSteps(steps, c, a, b);
    ComesBack(run, steps, c, p, a, t);
  }

  /** A process made RUNNABLE out of its sleep stays so until a scan comes to it. */
  predicate Woken(s: State, p: nat) {
    p < |s.procs| && s.procs[p].state == RUNNABLE && s.procs[p].pc.SleepWoken?
  }

  lemma StaysWoken(s: State, e: Step, s': State, p: nat)
    requires Inv(s) && Linked(s, e, s') && Woken(s, p)
    ensures Woken(s', p) || (AtStage(s, e.c, p, 0) && Looks(s, s', e.c, p))
  {
    StepMoves(s, e);
    assert Entry(s, s', e.c, p);
    assert ProcOk(s, p);
    if s.cpus[e.c].run == Scan(p) {
      CpuMoves(s, e, e.c);
    }
  }

  /** In step m some CPU comes to p as the wakeup left it and resumes it. */
  predicate Resumed(run: seq<State>, p: nat, m: nat, d: nat)
    requires m + 1 < |run|
  {
    AtStage(run[m], d, p, 0) && Looks(run[m], run[m + 1], d, p)
  }

  ghost predicate StillWoken(run: seq<State>, p: nat, m: nat)
    requires m + 1 < |run|
  {
    Woken(run[m], p) ==> Woken(run[m + 1], p) || exists d :: Resumed(run, p, m, d)
  }

  lemma WokenAt(run: seq<State>, steps: seq<Step>, p: nat, m: nat)
    requires IsRun(run, steps) && m < |steps|
    ensures StillWoken(run, p, m)
  {
    RunInv(run, steps, m);
    assert Linked(run[m], steps[m], run[m + 1]);
    if Woken(run[m], p) {
      StaysWoken(run[m], steps[m], run[m + 1], p);
      assert Woken(run[m + 1], p) || Resumed(run, p, m, steps[m].c);
    }
  }

  lemma {:induction false} UntilResumed(run: seq<State>, p: nat, a: nat, b: nat)
    requires a <= b < |run| && Woken(run[a], p) && (forall m :: a <= m < b ==> StillWoken(run, p, m))
    ensures Woken(run[b], p) || exists m, d :: a <= m < b && Resumed(run, p, m, d)
  {
    if b > a {
      UntilResumed(run, p, a, b - 1);
      assert StillWoken(run, p, b - 1);
    }
  }

  /** Once a process has been woken, no CPU gets round the table before some CPU has come to
      it, found it as the wakeup left it and resumed it. */
  lemma WokenIsRun(run: seq<State>, steps: seq<Step>, c: nat, p: nat, a: nat, b: nat)
    requires IsRun(run, steps) && a <= b < |run| && Woken(run[a], p)
    requires forall m :: a <= m < b ==> InRound(run[m], c)
    requires c < |run[a].cpus| && run[a].cpus[c].run == Scan(0)
    requires c < |run[b].cpus| && run[b].cpus[c].run == SchedRelPt
    ensures exists m, d :: a <= m < b && Resumed(run, p, m, d)
  {
    SameSizes(run, steps, a);
    var k := RoundLooks(run, steps, c, a, b, p);
    forall m | a <= m < k ensures StillWoken(run, p, m) {
      WokenAt(run, steps, p, m);
    }
    UntilResumed(run, p, a, k);
    assert Woken(run[k], p) ==> Resumed(run, p, k, c);
  }

  /** On its way a process waits for nothing but the inner lock. */
  lemma StageEnabled(s: State, c: nat, p: nat, k: nat)
    requires Inv(s) && k < 5 && AtStage(s, c, p, k)
    ensures (exists e: Step :: e.c == c && e != Interrupt(c) && Enabled(s, e)) <==> k < 4 || s.lk == None
  {
    var e := match k case 0 => Local(c) case 1 => Local(c) case 2 => Release(c) case 3 => Spin(c) case 4 => Take(c);
    assert e.c == c && (Enabled(s, e) <==> k < 4 || s.lk == None);
  }

  /** The points between the wakeup and the test, preempted or not. */
  predicate OnWay(pc: Pc) {
    || pc.SleepWoken? || pc.SleepRelPt? || pc.SleepReacq?
    || ((pc.YieldAcqPt? || pc.YieldMark? || pc.YieldSched? || pc.YieldBack?) && pc.ret.SleepReacq?)
  }

  predicate OnTheWay(s: State, p: nat) {
    p < |s.procs| && OnWay(s.procs[p].pc)
  }

  lemma WayStep(s: State, s': State, c: nat, p: nat)
    requires Inv(s) && Moves(s, s', c) && OnTheWay(s, p)
    ensures OnTheWay(s', p) || Tests(s', p)
  {
    assert Entry(s, s', c, p);
    assert ProcOk(s, p);
  }

  ghost predicate Keeps(run: seq<State>, p: nat, m: nat)
    requires m + 1 < |run|
  {
    OnTheWay(run[m], p) ==> OnTheWay(run[m + 1], p) || Tests(run[m + 1], p)
  }

  predicate Tests(s: State, p: nat) {
    p < |s.procs| && s.procs[p].pc.Test?
  }

  lemma KeepAt(run: seq<State>, steps: seq<Step>, p: nat, m: nat)
    requires IsRun(run, steps) && m < |steps|
    ensures Keeps(run, p, m)
  {
    RunInv(run, steps, m);
    assert Linked(run[m], steps[m], run[m + 1]);
    StepMoves(run[m], steps[m]);
    if OnTheWay(run[m], p) {
      WayStep(run[m], run[m + 1], steps[m].c, p);
    }
  }

  lemma {:induction false} ByKeeping(run: seq<State>, p: nat, a: nat, b: nat)
    requires a <= b < |run| && OnTheWay(run[a], p) && (forall m :: a <= m < b ==> Keeps(run, p, m))
    ensures OnTheWay(run[b], p) || exists m :: a < m <= b && Tests(run[m], p)
  {
    if b > a {
      ByKeeping(run, p, a, b - 1);
      assert Keeps(run, p, b - 1);
    }
  }

  /** Whatever else happens, timer interrupts on its own CPU included, a woken process goes
      nowhere but to the test. */
  lemma KeepsWay(run: seq<State>, steps: seq<Step>, p: nat, a: nat, b: nat)
    requires IsRun(run, steps) && a <= b < |run| && OnTheWay(run[a], p)
    ensures OnTheWay(run[b], p) || exists m :: a < m <= b && Tests(run[m], p)
  {
    forall m | a <= m < b ensures Keeps(run, p, m) {
      KeepAt(run, steps, p, m);
    }
    ByKeeping(run, p, a, b);
  }

  // ---------------------------------------------------------------- no CPU is stuck

  /** The timer may preempt a process wherever in the two functions it holds no spinlock, and
      outside them it may call either, or `kill` for any process. */
  lemma PreemptedIff(run: seq<State>, steps: seq<Step>, k: nat, c: nat)
    requires IsRun(run, steps) && k < |run| && OnProc(run[k], c) && !Interrupted(PcOf(run[k], c))
    ensures Enabled(run[k], Interrupt(c)) <==> run[k].cpus[c].ncli == 0
    ensures PcOf(run[k], c).User? ==>
      Enabled(run[k], Enter(c)) && forall t :: 0 <= t < |run[k].procs| ==> Enabled(run[k], CallKill(c, t))
  {
    RunInv(run, steps, k);
    assert CpuOk(run[k], c);
  }

  /** In every state of every run a CPU can take a step unless it spins for a lock that is
      held. */
  lemma CpuGoesOn(run: seq<State>, steps: seq<Step>, k: nat, c: nat)
    requires IsRun(run, steps) && k < |run| && c < |run[k].cpus|
    ensures (exists e: Step :: e.c == c && Enabled(run[k], e)) <==>
      !(run[k].cpus[c].spinning && Wants(run[k], c).Some? && Owner(run[k], Wants(run[k], c).value).Some?)
  {
    var s := run[k];
    RunInv(run, steps, k);
    assert CpuOk(s, c);
    if Wants(s, c).Some? {
      assert Enabled(s, Spin(c)) <==> !s.cpus[c].spinning;
      assert Enabled(s, Take(c)) <==> s.cpus[c].spinning && Owner(s, Wants(s, c).value).None?;
      assert s.cpus[c].spinning ==> s.cpus[c].ncli > 0;
    } else if Releases(s, c).Some? {
      assert Enabled(s, Release(c));
    } else if OnProc(s, c) && PcOf(s, c).User? {
      assert Enabled(s, Enter(c));
    } else {
      assert Enabled(s, Local(c));
    }
  }
}
