/** Runs of the kernel in which seven processes follow the programs of apps/q5: they are runs of
    `Reactions`, and if nobody else runs, the kernel stops only when all seven have finished. */
module ReactionKernelRuns {
  import opened Sequences
  import opened Synch
  import opened Reactions
  import opened ReactionInvariant
  import opened ReactionRuns
  import opened ReactionProcesses
  import KS = KernelState
  import KernelInvariant
  import KernelRuns
  import KernelObjects
  import KernelSync
  import KernelLife

  // ----- runs -----

  /** A state of the kernel, the state of the programs that goes with it, and their PIDs. */
  datatype Joint = Joint(kernel: KS.Kernel, state: State, pid: seq<int>)

  ghost predicate JointStep(cfg: Config, h: Handles, j: Joint, e: Option<KS.Event>, j': Joint) {
    && KS.KernelOk(j.kernel) && Shape(j.state) && Shape(j'.state) && |j.pid| == 7 && |h.conds| == 4
    && match e
       case None =>
         && j'.kernel == j.kernel && j'.pid == j.pid
         && var p := Who(j.pid, j.kernel.procs.current);
            p < 7 && UserStep(cfg, j.kernel, j.state, j.pid, h, j'.state, p)
       case Some(e) =>
         && KS.Enabled(j.kernel, e) && j'.kernel == KS.Do(j.kernel, e)
         && EventStep(cfg, j.kernel, j.state, j.pid, h, e, j'.state, j'.pid)
  }

  /** Krypton is about to create its first child, and its objects are new. */
  ghost predicate Starts(cfg: Config, h: Handles, j: Joint) {
    var k := j.kernel;
    && KS.KernelOk(k) && !k.halted && j.state == Init(cfg)
    && |j.pid| == 7 && (forall p :: 0 <= p < CHILDREN ==> j.pid[p] == -1)
    && 0 <= j.pid[KRYPTON] < |k.calls| && KernelLife.Lives(k.procs, j.pid[KRYPTON]) && k.calls[j.pid[KRYPTON]] == KS.NoCall
    && |h.conds| == 4 && Distinct(h.conds)
    && h.lock < |k.locks| && k.locks[h.lock] == Lock(true, NO_OWNER, [])
    && h.sem < |k.sems| && k.sems[h.sem] == Sem(true, -5, [])
    && (forall c :: 0 <= c < 4 ==> h.conds[c] < |k.conds| && k.conds[h.conds[c]] == Cond(true, h.lock, []))
    && OthersElsewhere(k, j.pid, h)
  }

  lemma StartsCoupled(cfg: Config, h: Handles, j: Joint)
    requires Starts(cfg, h, j) && Feasible(cfg)
    ensures Coupled(cfg, j.kernel, j.state, j.pid, h)
  {
    hide KS.KernelOk, KernelLife.Lives, OthersElsewhere, Inv;
    InitInv(cfg);
    InitialObjects(cfg);
    forall p: nat | p <= KRYPTON ensures SameProcess(j.kernel, j.state, j.pid, h, p) { InitialPc(cfg, p); }
  }

  lemma InitialObjects(cfg: Config)
    ensures var s := Init(cfg);
      s.lock == Lock(true, NO_OWNER, []) && s.sem == Sem(true, -5, []) && forall c :: 0 <= c < 4 ==> s.conds[c].waiting == []
  {
  }

  lemma InitialPc(cfg: Config, p: nat)
    requires p <= KRYPTON
    ensures Init(cfg).procs[p].pc != Reacquire && (Created(Init(cfg), p) <==> p == KRYPTON)
  {
  }

  ghost predicate JointRun(cfg: Config, h: Handles, run: seq<Joint>, evs: seq<Option<KS.Event>>) {
    && |run| == |evs| + 1 && Starts(cfg, h, run[0])
    && (forall n :: 0 <= n < |evs| ==> JointStep(cfg, h, run[n], evs[n], run[n + 1]))
  }

  lemma JointStepKeeps(cfg: Config, h: Handles, j: Joint, e: Option<KS.Event>, j': Joint)
    requires Coupled(cfg, j.kernel, j.state, j.pid, h) && JointStep(cfg, h, j, e, j') && !j'.kernel.halted
    ensures Coupled(cfg, j'.kernel, j'.state, j'.pid, h) && ProgramStep(cfg, j.state, j'.state)
  {
    hide Coupled, UserStep, EventStep, KS.Do, KS.KernelOk, KS.Enabled, ProgramStep;
    match e {
      case None => UserStepKeeps(cfg, j.kernel, j.state, j.pid, h, j'.state, Who(j.pid, j.kernel.procs.current));
      case Some(x) => EventKeeps(cfg, j.kernel, j.state, j.pid, h, x, j'.state, j'.pid);
    }
  }

  lemma BeforeHalt(cfg: Config, h: Handles, run: seq<Joint>, evs: seq<Option<KS.Event>>, n: nat)
    requires JointRun(cfg, h, run, evs) && 0 < n < |run| && !run[n].kernel.halted
    ensures !run[n - 1].kernel.halted
  {
    hide EventStep, UserStep, Starts, KS.KernelOk, KS.Do;
    assert JointStep(cfg, h, run[n - 1], evs[n - 1], run[n]);
  }

  /** The refinement.  As long as the kernel runs, what its processes do to the state of the programs
      is a run of `Reactions`, and their objects in the kernel are those of that run. */
  lemma {:induction false} KernelRunsAreRuns(cfg: Config, h: Handles, run: seq<Joint>, evs: seq<Option<KS.Event>>, n: nat)
    returns (states: seq<State>, who: seq<nat>)
    requires Feasible(cfg) && JointRun(cfg, h, run, evs) && n < |run| && !run[n].kernel.halted
    ensures Coupled(cfg, run[n].kernel, run[n].state, run[n].pid, h)
    ensures IsRun(cfg, states, who) && states[|who|] == run[n].state && |who| <= n
    decreases n
  {
    hide Coupled, Starts, JointStep, ProgramStep, Step, Enabled, Feasible;
    if n == 0 {
      StartsCoupled(cfg, h, run[0]);
      StartsAtInit(cfg, h, run[0]);
      states, who := [run[0].state], [];
      assert Shape(states[0]);
    } else {
      BeforeHalt(cfg, h, run, evs, n);
      states, who := KernelRunsAreRuns(cfg, h, run, evs, n - 1);
      JointStepKeeps(cfg, h, run[n - 1], evs[n - 1], run[n]);
      if run[n].state != run[n - 1].state {
        var p := Stepper(cfg, run[n - 1].state, run[n].state);
        RunExtends(cfg, states, who, p);
        states, who := states + [run[n].state], who + [p];
      }
    }
  }

  lemma StartsAtInit(cfg: Config, h: Handles, j: Joint)
    requires Starts(cfg, h, j)
    ensures j.state == Init(cfg)
  {
  }

  lemma Stepper(cfg: Config, s: State, s': State) returns (p: nat)
    requires ProgramStep(cfg, s, s') && s' != s
    ensures Shape(s) && Enabled(s, p) && s' == Step(cfg, s, p)
  {
    p :| Enabled(s, p) && s' == Step(cfg, s, p);
  }

  // ----- when the kernel stops -----

  /** Only the network runs: the run queue holds nobody else. */
  ghost predicate Alone(k: KS.Kernel, pid: seq<int>) { forall q :: q in k.procs.run ==> q in pid }

  lemma QueueMemberBack(w: seq<nat>, q: seq<nat>, pid: seq<int>, p: nat)
    requires SameQueue(w, q, pid) && PidsDiffer(pid) && p <= KRYPTON && pid[p] >= 0 && pid[p] in w
    ensures p in q
  {
    var i :| 0 <= i < |w| && w[i] == pid[p];
    assert q[i] == p;
  }

  /** A process of the network that waits in the kernel is asleep in its program. */
  lemma WaitingIsAsleep(cfg: Config, k: KS.Kernel, s: State, pid: seq<int>, h: Handles, q: nat)
    requires Coupled(cfg, k, s, pid, h) && q <= KRYPTON && pid[q] >= 0 && pid[q] !in k.procs.run
    ensures Asleep(s, q)
  {
    hide Inv, KS.KernelOk, OthersElsewhere, SameQueue;
    assert SameProcess(k, s, pid, h, q);
    KernelLife.LivesSomewhere(k, pid[q]);
    match k.calls[pid[q]] {
      case InSem(x) => QueueMemberBack(k.sems[h.sem].waiting, s.sem.waiting, pid, q);
      case InLock(l) => QueueMemberBack(k.locks[h.lock].waiting, s.lock.waiting, pid, q);
      case InCond(c) => QueueMemberBack(k.conds[h.conds[q - 2]].waiting, s.conds[q - 2].waiting, pid, q);
      case NoCall =>
    }
  }

  /** If only process `p` can run, every other process of the network is asleep, gone, or still to
      be created. */
  lemma OthersAsleep(cfg: Config, k: KS.Kernel, s: State, pid: seq<int>, h: Handles, p: nat, q: nat)
    requires Coupled(cfg, k, s, pid, h) && p <= KRYPTON && pid[p] == k.procs.current >= 0 && |k.procs.run| == 1
    requires q <= KRYPTON && q != p
    ensures Asleep(s, q) || s.procs[q].pc == Exited || !Created(s, q)
  {
    hide Inv, OthersElsewhere, SameQueue, SameObjects, Fits;
    assert SameProcess(k, s, pid, h, q);
    KS.CurrentIsRunnable(k);
    if pid[q] >= 0 {
      assert pid[q] !in k.procs.run;
      WaitingIsAsleep(cfg, k, s, pid, h, q);
    }
  }

  /** When the last process that can run exits, all have. */
  lemma ExitStops(cfg: Config, k: KS.Kernel, s: State, pid: seq<int>, h: Handles, p: nat)
    requires Coupled(cfg, k, s, pid, h) && p <= KRYPTON && pid[p] == k.procs.current >= 0 && |k.procs.run| == 1
    requires s.procs[p].pc == Exited
    ensures AllExited(s) && s.cnt == FinalCounters(cfg)
  {
    hide Coupled, Inv, Asleep;
    CoupledShape(cfg, k, s, pid, h);
    forall q: nat ensures !Enabled(s, q) {
      if q <= KRYPTON && q != p { OthersAsleep(cfg, k, s, pid, h, p, q); }
    }
    NoDeadlock(cfg, s);
    GrantedMeansFinal(cfg, s);
  }

  /** The step of `p` wakes nobody. */
  predicate WakesNobody(s: State, p: nat)
    requires Shape(s) && p <= KRYPTON
  {
    var pc := s.procs[p].pc;
    pc == Acquire || pc == Reacquire || pc == Await || (pc == Check && IsReaction(p) && MustWait(s.cnt, p) && s.lock.waiting == [])
  }

  lemma StillAsleep(cfg: Config, s: State, p: nat, q: nat)
    requires Inv(cfg, s) && Enabled(s, p) && p <= KRYPTON && WakesNobody(s, p) && Asleep(s, q)
    ensures Asleep(Next(cfg, s, p), q)
  {
    hide Inv, StepChild, MustWait;
    InvShape(cfg, s);
    if p == KRYPTON {
      ParentPcs(cfg, s);
    } else {
      ChildParts(cfg, s, p);
    }
  }

  /** A process of the network that goes to sleep in the kernel does so in its program. */
  lemma SleepsInProgram(cfg: Config, k: KS.Kernel, s: State, pid: seq<int>, h: Handles, p: nat, e: KS.Event)
    requires Coupled(cfg, k, s, pid, h) && p <= KRYPTON && pid[p] == k.procs.current >= 0 && s.procs[p].pc != Exited
    requires KS.Enabled(k, e) && KernelSync.GoesToSleep(k, e) && !KernelSync.HandsOver(k, e)
    requires NextCall(s, p, h) == Some(e) || (e == KS.Resume && k.calls[pid[p]].InCond?)
    ensures WakesNobody(s, p) && Asleep(Next(cfg, s, p), p) && Next(cfg, s, p).procs[p].pc != Exited
  {
    hide Inv, KS.KernelOk, OthersElsewhere, SameProcess, StepChild, MustWait, SignalsA, LoopTest;
    CurrentIsAwake(cfg, k, s, pid, h, p);
    if p == KRYPTON {
      if e == KS.Resume { ResumedPc(cfg, k, s, pid, h, p); }
      ParentPcs(cfg, s);
    } else {
      ChildParts(cfg, s, p);
      if e == KS.Resume { ResumedPc(cfg, k, s, pid, h, p); }
      if e.CondWait? { OwnsBoth(k, s, pid, h, p, p - 2); }
    }
  }

  /** So the last process that can run never goes to sleep, unless it wakes another one. */
  lemma LastDoesNotSleep(cfg: Config, k: KS.Kernel, s: State, pid: seq<int>, h: Handles, p: nat, e: KS.Event)
    requires Coupled(cfg, k, s, pid, h) && p <= KRYPTON && pid[p] == k.procs.current >= 0 && s.procs[p].pc != Exited
    requires KS.Enabled(k, e) && KernelSync.GoesToSleep(k, e)
    requires NextCall(s, p, h) == Some(e) || (e == KS.Resume && k.calls[pid[p]].InCond?)
    ensures |k.procs.run| > 1 || KernelSync.HandsOver(k, e)
  {
    hide Coupled, Inv, Asleep, KS.KernelOk, KernelSync.GoesToSleep, KernelSync.HandsOver, Next, NextCall, WakesNobody;
    CoupledShape(cfg, k, s, pid, h);
    KS.CurrentIsRunnable(k);
    if |k.procs.run| == 1 && !KernelSync.HandsOver(k, e) {
      SleepsInProgram(cfg, k, s, pid, h, p, e);
      CurrentIsAwake(cfg, k, s, pid, h, p);
      NobodyLeft(cfg, k, s, pid, h, p);
    }
  }

  lemma NobodyLeft(cfg: Config, k: KS.Kernel, s: State, pid: seq<int>, h: Handles, p: nat)
    requires Coupled(cfg, k, s, pid, h) && p <= KRYPTON && pid[p] == k.procs.current >= 0 && |k.procs.run| == 1
    requires Enabled(s, p) && WakesNobody(s, p) && Asleep(Next(cfg, s, p), p) && Next(cfg, s, p) == Step(cfg, s, p)
    ensures Next(cfg, s, p).procs[p].pc == Exited
  {
    hide Coupled, Inv, Asleep, Next, Step;
    CoupledShape(cfg, k, s, pid, h);
    var t := Next(cfg, s, p);
    StepKeepsInv(cfg, s, p);
    forall q: nat ensures !Enabled(t, q) {
      if q <= KRYPTON && q != p {
        OthersAsleep(cfg, k, s, pid, h, p, q);
        StaysCreated(cfg, s, p, q);
        if Asleep(s, q) { StillAsleep(cfg, s, p, q); }
      }
    }
    NoDeadlock(cfg, t);
  }

  /** If nobody else runs, the kernel stops only when all seven processes have exited, and then the
      counters are final.  In particular no process of the network is ever the last one awake and
      goes to sleep, and no cond_wait stops the kernel. */
  lemma StopsOnlyAtTheEnd(cfg: Config, h: Handles, run: seq<Joint>, evs: seq<Option<KS.Event>>, n: nat)
    requires Feasible(cfg) && JointRun(cfg, h, run, evs) && n < |evs|
    requires !run[n].kernel.halted && run[n + 1].kernel.halted && Alone(run[n].kernel, run[n].pid)
    requires evs[n] == Some(KS.Event.ForkBegin) ==> run[n].kernel.procs.free != []
    ensures evs[n] == Some(KS.Exit)
    ensures AllExited(run[n + 1].state) && run[n + 1].state.cnt == FinalCounters(cfg)
  {
    hide Coupled, Feasible, Starts;
    var states, who := KernelRunsAreRuns(cfg, h, run, evs, n);
    assert JointStep(cfg, h, run[n], evs[n], run[n + 1]);
    OneStepStops(cfg, h, run[n], evs[n], run[n + 1]);
  }

  lemma OneStepStops(cfg: Config, h: Handles, j: Joint, e: Option<KS.Event>, j': Joint)
    requires Coupled(cfg, j.kernel, j.state, j.pid, h) && JointStep(cfg, h, j, e, j')
    requires j'.kernel.halted && Alone(j.kernel, j.pid) && (e == Some(KS.Event.ForkBegin) ==> j.kernel.procs.free != [])
    ensures e == Some(KS.Exit) && AllExited(j'.state) && j'.state.cnt == FinalCounters(cfg)
  {
    hide Coupled, KS.Do, KS.KernelOk, KernelSync.GoesToSleep, KernelSync.HandsOver, Inv, AllExited, FinalCounters, Next;
    var k, s, pid := j.kernel, j.state, j.pid;
    CoupledShape(cfg, k, s, pid, h);
    KernelSync.HaltsExactlyWhen(k, e.value);
    var p := Who(pid, k.procs.current);
    HaltingIsOwn(cfg, k, s, pid, h, e.value);
    KS.CurrentIsRunnable(k);
    OnlyExitedExit(s, p, h);
    if e.value == KS.Exit {
      ExitStops(cfg, k, s, pid, h, p);
    } else {
      if k.calls[pid[p]].InCond? { ResumedPc(cfg, k, s, pid, h, p); }
      LastDoesNotSleep(cfg, k, s, pid, h, p, e.value);
    }
  }

  /** A step that stops the kernel is an exit or a call of the network that sleeps. */
  lemma HaltingIsOwn(cfg: Config, k: KS.Kernel, s: State, pid: seq<int>, h: Handles, e: KS.Event)
    requires Coupled(cfg, k, s, pid, h) && KS.Enabled(k, e) && KS.Do(k, e).halted && Alone(k, pid)
    requires |pid| == 7 && |h.conds| == 4 && Shape(s) && exists s', pid' :: EventStep(cfg, k, s, pid, h, e, s', pid')
    requires e == KS.Event.ForkBegin ==> k.procs.free != []
    ensures 0 <= k.procs.current < |k.calls| && Who(pid, k.procs.current) < 7
    ensures var p := Who(pid, k.procs.current);
      NextCall(s, p, h) == Some(e) || (e == KS.Resume && k.calls[pid[p]].InCond?)
    ensures (e == KS.Exit || KernelSync.GoesToSleep(k, e)) && |k.procs.run| == 1 && !KernelSync.HandsOver(k, e)
  {
    hide Inv, KS.Do, KS.KernelOk, OthersElsewhere, SameQueue, Next, KernelSync.HandsOver;
    KernelSync.HaltsExactlyWhen(k, e);
    if !KS.IsFork(e) {
      var p := Who(pid, k.procs.current);
      KS.CurrentIsRunnable(k);
      assert k.procs.current in k.procs.run;
      if e.CondWait? { WaitsWithLock(cfg, k, s, pid, h, p, e); }
    }
  }

  lemma WaitsWithLock(cfg: Config, k: KS.Kernel, s: State, pid: seq<int>, h: Handles, p: nat, e: KS.Event)
    requires Coupled(cfg, k, s, pid, h) && p <= KRYPTON && pid[p] == k.procs.current >= 0 && KS.Enabled(k, e)
    requires NextCall(s, p, h) == Some(e) && e.CondWait?
    ensures e.cond >= 0 && KernelObjects.OwnsLockOf(k, e.cond)
  {
    hide Inv, KS.KernelOk, OthersElsewhere, SameQueue, StepChild, MustWait;
    CurrentIsAwake(cfg, k, s, pid, h, p);
    ChildParts(cfg, s, p);
    OwnsBoth(k, s, pid, h, p, p - 2);
  }

  // ----- from boot to the start -----

  lemma FirstFreeIs(used: seq<bool>, i: nat)
    requires i < |used| && (forall j :: 0 <= j < i ==> used[j]) && !used[i]
    ensures KS.FirstFree(used) == i
  {
  }

  /** The kernel after one more condition variable has been created. */
  lemma CreatesCond(k: KS.Kernel, c: nat, lock: nat)
    requires KS.KernelOk(k) && KS.Enabled(k, KS.Event.CondCreate(lock)) && lock < |k.locks| && c < |k.conds|
    requires (forall d: nat :: d < c ==> k.conds[d].inuse) && !k.conds[c].inuse
    ensures KS.Do(k, KS.Event.CondCreate(lock)) == k.(conds := k.conds[c := Cond(true, lock, [])])
  {
    hide KS.KernelOk;
    FirstFreeIs(seq(|k.conds|, i requires 0 <= i < |k.conds| => k.conds[i].inuse), c);
  }

  lemma CreatesSemAndLock(k: KS.Kernel)
    requires KS.KernelOk(k) && KS.Enabled(k, KS.LockCreate)
    requires k.sems != [] && k.locks != [] && !k.sems[0].inuse && !k.locks[0].inuse
    ensures KS.Enabled(k, KS.Event.SemCreate(-5))
    ensures KS.Do(k, KS.Event.SemCreate(-5)) == k.(sems := k.sems[0 := Sem(true, -5, [])])
    ensures KS.Do(k, KS.LockCreate) == k.(locks := k.locks[0 := Lock(true, NO_OWNER, [])])
  {
    hide KS.KernelOk;
    FirstFreeIs(seq(|k.sems|, i requires 0 <= i < |k.sems| => k.sems[i].inuse), 0);
    FirstFreeIs(seq(|k.locks|, i requires 0 <= i < |k.locks| => k.locks[i].inuse), 0);
  }

  /** One event more of a run of the kernel. */
  lemma OneMoreEvent(run: seq<KS.Kernel>, evs: seq<KS.Event>, e: KS.Event)
    returns (run': seq<KS.Kernel>, evs': seq<KS.Event>)
    requires KernelRuns.Follows(run, evs) && KS.KernelOk(run[|evs|]) && KS.Enabled(run[|evs|], e)
    ensures KernelRuns.Follows(run', evs') && |run'| == |evs'| + 1 && |evs'| == |evs| + 1
    ensures run'[0] == run[0] && run'[|evs'|] == KS.Do(run[|evs|], e) && KS.KernelOk(run'[|evs'|])
  {
    hide KS.Do, KS.KernelOk, KS.Enabled;
    KernelInvariant.DoOk(run[|evs|], e);
    run', evs' := run + [KS.Do(run[|evs|], e)], evs + [e];
  }

  const HANDLES: Handles := Handles(0, 0, [0, 1, 2, 3])

  /** Krypton has been forked, and its first `c` condition variables have been created. */
  ghost predicate Prepared(k: KS.Kernel, r: nat, c: nat) {
    && !k.halted && k.procs.current == r < |k.calls| && KernelLife.Lives(k.procs, r)
    && (forall q :: 0 <= q < |k.calls| ==> k.calls[q] == KS.NoCall)
    && k.sems != [] && k.sems[0] == Sem(true, -5, []) && k.locks != [] && k.locks[0] == Lock(true, NO_OWNER, [])
    && |k.conds| >= 4 && c <= 4
    && (forall d: nat :: d < c ==> k.conds[d] == Cond(true, 0, [])) && (forall d: nat :: c <= d < 4 ==> !k.conds[d].inuse)
  }

  lemma OneMoreCond(run: seq<KS.Kernel>, evs: seq<KS.Event>, r: nat, c: nat)
    returns (run': seq<KS.Kernel>, evs': seq<KS.Event>)
    requires KernelRuns.Follows(run, evs) && KS.KernelOk(run[|evs|]) && Prepared(run[|evs|], r, c) && c < 4
    ensures KernelRuns.Follows(run', evs') && |run'| == |evs'| + 1 && run'[0] == run[0]
    ensures KS.KernelOk(run'[|evs'|]) && Prepared(run'[|evs'|], r, c + 1)
  {
    hide KS.Do, KS.KernelOk, KernelLife.Lives;
    CreatesCond(run[|evs|], c, 0);
    run', evs' := OneMoreEvent(run, evs, KS.Event.CondCreate(0));
  }

  /** Krypton forked, with its semaphore and its lock. */
  lemma FirstObjects(nProcs: nat, nSems: nat, nLocks: nat, nConds: nat) returns (run: seq<KS.Kernel>, evs: seq<KS.Event>)
    requires nProcs > 0 && nSems > 0 && nLocks > 0 && nConds >= 4
    ensures KernelRuns.Follows(run, evs) && |run| == |evs| + 1 && run[0] == KS.Boot(nProcs, nSems, nLocks, nConds)
    ensures KS.KernelOk(run[|evs|]) && Prepared(run[|evs|], nProcs - 1, 0)
  {
    hide KS.Do, KS.KernelOk;
    var r := nProcs - 1;
    var k0 := KS.Boot(nProcs, nSems, nLocks, nConds);
    KernelInvariant.BootOk(nProcs, nSems, nLocks, nConds);
    Forks(k0, r);
    run, evs := OneMoreEvent([k0], [], KS.Event.ForkBegin);
    run, evs := OneMoreEvent(run, evs, KS.Event.ForkFinish(r));
    CreatesSemAndLock(run[|evs|]);
    run, evs := OneMoreEvent(run, evs, KS.Event.SemCreate(-5));
    CreatesLock(run[|evs|]);
    run, evs := OneMoreEvent(run, evs, KS.LockCreate);
  }

  lemma CreatesLock(k: KS.Kernel)
    requires KS.KernelOk(k) && KS.Enabled(k, KS.LockCreate) && k.locks != [] && !k.locks[0].inuse
    ensures KS.Do(k, KS.LockCreate) == k.(locks := k.locks[0 := Lock(true, NO_OWNER, [])])
  {
    hide KS.KernelOk;
    FirstFreeIs(seq(|k.locks|, i requires 0 <= i < |k.locks| => k.locks[i].inuse), 0);
  }

  /** The first fork. */
  lemma Forks(k: KS.Kernel, r: nat)
    requires KS.KernelOk(k) && !k.halted && k.procs.free != [] && k.procs.free[0] == r && k.procs.run == []
    ensures KS.Enabled(k, KS.Event.ForkBegin)
    ensures var k1 := KS.Do(k, KS.Event.ForkBegin);
      && KS.KernelOk(k1) && KS.Enabled(k1, KS.Event.ForkFinish(r))
      && var k2 := KS.Do(k1, KS.Event.ForkFinish(r));
         && !k2.halted && k2.procs.current == r && KernelLife.Lives(k2.procs, r)
         && k2.calls == k.calls && k2.sems == k.sems && k2.locks == k.locks && k2.conds == k.conds && r < |k2.calls|
  {
    hide KS.ObjectsOk;
    KernelInvariant.DoOk(k, KS.Event.ForkBegin);
    KernelLife.ChildLives(KS.Do(k, KS.Event.ForkBegin), r);
  }

  /** From boot, the kernel can be brought to where `KernelRunsAreRuns` begins. */
  lemma CanStart(cfg: Config, nProcs: nat, nSems: nat, nLocks: nat, nConds: nat)
    returns (run: seq<KS.Kernel>, evs: seq<KS.Event>, j: Joint)
    requires nProcs > 0 && nSems > 0 && nLocks > 0 && nConds >= 4
    ensures KernelRuns.Follows(run, evs) && |run| == |evs| + 1 && run[0] == KS.Boot(nProcs, nSems, nLocks, nConds)
    ensures j.kernel == run[|evs|] && Starts(cfg, HANDLES, j)
  {
    hide KS.KernelOk, KernelLife.Lives, KernelRuns.Follows;
    run, evs := FirstObjects(nProcs, nSems, nLocks, nConds);
    run, evs := OneMoreCond(run, evs, nProcs - 1, 0);
    run, evs := OneMoreCond(run, evs, nProcs - 1, 1);
    run, evs := OneMoreCond(run, evs, nProcs - 1, 2);
    run, evs := OneMoreCond(run, evs, nProcs - 1, 3);
    j := Joint(run[|evs|], Init(cfg), [-1, -1, -1, -1, -1, -1, nProcs - 1]);
  }
}
