/** What the invariant and the transitions of the kernel give for whole runs. */
module KernelRuns {
  import opened Synch
  import opened Processes
  import opened KernelState
  import opened KernelInvariant

  /** `run` takes the events `evs` one after the other. */
  ghost predicate Follows(run: seq<Kernel>, evs: seq<Event>) {
    && |run| == |evs| + 1
    && (forall i :: 0 <= i < |evs| && KernelOk(run[i]) ==> Enabled(run[i], evs[i]) && run[i + 1] == Do(run[i], evs[i]))
  }

  /** The invariant holds in every state of a run that starts in a state that satisfies it. */
  lemma {:induction false} RunOk(run: seq<Kernel>, evs: seq<Event>, n: nat)
    requires Follows(run, evs) && KernelOk(run[0]) && n < |run|
    ensures KernelOk(run[n])
  {
    if n > 0 {
      RunOk(run, evs, n - 1);
      DoOk(run[n - 1], evs[n - 1]);
    }
  }

  lemma BootedRunOk(nProcs: nat, nSems: nat, nLocks: nat, nConds: nat, run: seq<Kernel>, evs: seq<Event>, n: nat)
    requires Follows(run, evs) && run[0] == Boot(nProcs, nSems, nLocks, nConds) && n < |run|
    ensures KernelOk(run[n])
  {
    BootOk(nProcs, nSems, nLocks, nConds);
    RunOk(run, evs, n);
  }

  // ----- one queue per process -----

  function Count(b: bool): nat { if b then 1 else 0 }

  /** In every reachable state a PCB is on exactly one of the four process queues, unless
      ProcessFork is still filling it in, and the current process is the runnable head of the
      run queue. */
  lemma OneQueuePerProcess(nProcs: nat, nSems: nat, nLocks: nat, nConds: nat, run: seq<Kernel>, evs: seq<Event>,
          n: nat, p: nat)
    requires Follows(run, evs) && run[0] == Boot(nProcs, nSems, nLocks, nConds) && n < |run| && !run[n].halted
    requires p < |run[n].procs.status|
    ensures var ps := run[n].procs;
      && Count(p in ps.free) + Count(p in ps.run) + Count(p in ps.wait) + Count(p in ps.zombie)
         == (if p in ps.forking then 0 else 1)
      && (ps.current == NOBODY <==> ps.run == [])
      && (ps.current != NOBODY ==> ps.run[0] == ps.current && 0 <= ps.current < |ps.status| && ps.status[ps.current] == Runnable)
  {
    BootedRunOk(nProcs, nSems, nLocks, nConds, run, evs, n);
    if run[n].procs.run != [] { assert run[n].procs.run[0] in run[n].procs.run; }
  }

  /** A waiting process is on exactly one queue of one object: that of the call it is inside of.
      Every other process is on none. */
  lemma OneObjectPerSleeper(k: Kernel, p: nat)
    requires KernelOk(k) && !k.halted && p < |k.calls|
    ensures k.procs.status[p] == Waiting ==> OnItsQueue(k, p)
    ensures forall s: nat :: s < |k.sems| && p in k.sems[s].waiting ==>
              k.procs.status[p] == Waiting && k.calls[p] == InSem(s)
    ensures forall l: nat :: l < |k.locks| && p in k.locks[l].waiting ==>
              k.procs.status[p] == Waiting && k.calls[p] == InLock(l)
    ensures forall c: nat :: c < |k.conds| && p in k.conds[c].waiting ==>
              k.procs.status[p] == Waiting && k.calls[p] == InCond(c)
  {
    assert CallOk(k, p);
  }

  // ----- the scheduler -----

  /** The step from `k` to `t` goes through ProcessSchedule, although nobody exits: a time slice
      ended, or the current process went to sleep. */
  predicate Switches(k: Kernel, t: Kernel, e: Event) {
    e == Timer || (0 <= k.procs.current < |t.procs.status| && t.procs.status[k.procs.current] == Waiting)
  }

  /** A prefix of the run queue moves up by one place when the kernel reschedules, and stays
      where it is when it does not. */
  ghost predicate RunQueueMoves(run: seq<nat>, run': seq<nat>, moved: bool) {
    if moved then run != [] && |run'| >= |run| - 1 && forall i :: 0 < i < |run| ==> run'[i - 1] == run[i]
    else |run'| >= |run| && forall i :: 0 <= i < |run| ==> run'[i] == run[i]
  }

  lemma SleepMoves(k: Kernel, p: nat, call: Call)
    requires AtTrapReturn(k.procs) && |k.calls| == |k.procs.status| && k.procs.run != [] && k.procs.run[0] == p
    requires !k.halted
    ensures p < |k.calls|
    ensures var t := Sleep(k, p, call);
      t.halted || (t.procs.run == k.procs.run[1..] && t.procs.status == k.procs.status[p := Waiting])
  {
    assert p in k.procs.run;
    SleepEffect(k, p, call);
    WithoutIs(k.procs.run, p);
  }

  ghost predicate Extends(run: seq<nat>, run': seq<nat>) {
    |run'| >= |run| && run'[..|run|] == run
  }

  lemma WakeMoves(k: Kernel, woken: Option<nat>, p: nat)
    requires woken.Some? ==> woken.value != p
    ensures var t := WakeIfAny(k, woken);
      && Extends(k.procs.run, t.procs.run)
      && |t.procs.status| == |k.procs.status| && (p < |k.procs.status| ==> t.procs.status[p] == k.procs.status[p])
      && t.calls == k.calls && t.halted == k.halted && t.procs.current == k.procs.current
  {
  }

  lemma {:induction false} WakeAllMoves(k: Kernel, c: nat, p: nat)
    requires c < |k.conds| && p !in k.conds[c].waiting
    ensures var t := WakeAll(k, c);
      && Extends(k.procs.run, t.procs.run)
      && |t.procs.status| == |k.procs.status| && (p < |k.procs.status| ==> t.procs.status[p] == k.procs.status[p])
      && t.halted == k.halted && t.procs.current == k.procs.current
    decreases |k.conds[c].waiting|
  {
    if k.conds[c].waiting != [] {
      var w := Synch.CondSignal(k.conds[c]);
      var k1 := k.(conds := k.conds[c := w.obj]);
      assert k.conds[c].waiting[0] in k.conds[c].waiting;
      WakeMoves(k1, w.woken, p);
      WakeAllMoves(WakeIfAny(k1, w.woken), c, p);
    }
  }

  lemma CondWaitMoves(k: Kernel, p: nat, c: nat)
    requires Running(k, p) && k.calls[p] == NoCall && c < |k.conds| && k.conds[c].inuse
    requires 0 <= k.conds[c].lock < |k.locks|
    ensures Moves(k, DoCondWait(k, p, c), p)
  {
    hide Sleep, DoLockRelease;
    RunningFacts(k, p);
    var l: nat := k.conds[c].lock;
    if k.locks[l].pid == p {
      var conds := k.conds[c := CondEnqueue(k.conds[c], p)];
      var k0 := if k.locks[l].inuse then DoLockRelease(k, p, l) else k;
      if k.locks[l].inuse {
        LockReleaseOk(k, p, l);
        ReleaseIgnoresConds(k, p, l, conds);
        ReleaseMoves(k, p, l);
      }
      RunningFacts(k0, p);
      SleepMoves(k0.(conds := conds), p, InCond(c));
    }
  }

  lemma ReleaseMoves(k: Kernel, p: nat, l: nat)
    requires Running(k, p) && l < |k.locks|
    ensures var t := DoLockRelease(k, p, l);
      Extends(k.procs.run, t.procs.run) && t.procs.status[p] == k.procs.status[p] && t.halted == k.halted && Moves(k, t, p)
  {
    RunningFacts(k, p);
    if k.locks[l].pid == p {
      var w := Synch.LockRelease(k.locks[l]);
      WakeMoves(k.(locks := k.locks[l := w.obj]), w.woken, p);
    }
  }

  /** What the transition from `k` to `t` does to the run queue, if `p` made it. */
  ghost predicate Moves(k: Kernel, t: Kernel, p: nat) {
    t.halted || (p < |t.procs.status| && RunQueueMoves(k.procs.run, t.procs.run, t.procs.status[p] == Waiting))
  }

  lemma AcquireMoves(k: Kernel, p: nat, l: nat)
    requires Running(k, p) && l < |k.locks|
    ensures var t := DoLockAcquire(k, p, l);
      Moves(k, t, p)
  {
    RunningFacts(k, p);
    var w := Synch.LockAcquire(k.locks[l], p);
    if w.sleeps { SleepMoves(k.(locks := k.locks[l := w.obj]), p, InLock(l)); }
  }

  lemma SemWaitMoves(k: Kernel, p: nat, s: nat)
    requires Running(k, p) && s < |k.sems|
    ensures Moves(k, DoSemWait(k, p, s), p)
  {
    RunningFacts(k, p);
    var w := Synch.SemWait(k.sems[s], p);
    if w.sleeps { SleepMoves(k.(sems := k.sems[s := w.obj]), p, InSem(s)); }
  }

  lemma SemSignalMoves(k: Kernel, p: nat, s: nat)
    requires Running(k, p) && s < |k.sems|
    ensures Moves(k, DoSemSignal(k, s), p)
  {
    RunningFacts(k, p);
    var w := Synch.SemSignal(k.sems[s]);
    if w.woken.Some? { assert w.woken.value in k.sems[s].waiting; }
    WakeMoves(k.(sems := k.sems[s := w.obj]), w.woken, p);
  }

  lemma CondSignalMoves(k: Kernel, p: nat, c: nat)
    requires Running(k, p) && c < |k.conds| && 0 <= k.conds[c].lock < |k.locks|
    ensures Moves(k, DoCondSignal(k, p, c), p)
  {
    RunningFacts(k, p);
    var w := Synch.CondSignal(k.conds[c]);
    if w.woken.Some? { assert w.woken.value in k.conds[c].waiting; }
    WakeMoves(k.(conds := k.conds[c := w.obj]), w.woken, p);
  }

  lemma BroadcastMoves(k: Kernel, p: nat, c: nat)
    requires Running(k, p) && c < |k.conds| && 0 <= k.conds[c].lock < |k.locks|
    ensures Moves(k, DoCondBroadcast(k, p, c), p)
  {
    RunningFacts(k, p);
    WakeAllMoves(k, c, p);
  }

  lemma ResumeMoves(k: Kernel, p: nat)
    requires Running(k, p) && k.calls[p] != NoCall
    ensures CallOk(k, p) && Moves(k, DoResume(k, p), p)
  {
    RunningFacts(k, p);
    assert CallOk(k, p);
    if k.calls[p].InCond? && k.locks[k.conds[k.calls[p].cond].lock].inuse {
      AcquireMoves(k, p, k.conds[k.calls[p].cond].lock);
    }
  }

  lemma CreateMoves(k: Kernel, p: nat, e: Event)
    requires Running(k, p) && (e.SemCreate? || e.LockCreate? || e.CondCreate?)
    ensures Moves(k, DoOwn(k, p, e), p)
  {
    RunningFacts(k, p);
  }

  lemma FailureMoves(k: Kernel, p: nat)
    requires Running(k, p)
    ensures Moves(k, k, p)
  {
    RunningFacts(k, p);
  }

  /** The transition of `p`, other than an exit or a time slice that ends, moves the run queue
      up by one place if `p` goes to sleep, and otherwise adds to its end. */
  lemma OwnMoves(k: Kernel, p: nat, e: Event)
    requires Running(k, p) && !IsFork(e) && Enabled(k, e) && e != Exit && e != Timer
    ensures Moves(k, DoOwn(k, p, e), p)
  {
    hide AtTrapReturn, SemsOk, LocksOk, Moves, DoSemWait, DoSemSignal, DoLockAcquire, DoLockRelease,
         DoCondWait, DoCondSignal, DoCondBroadcast, DoResume, CallsOk;
    FailureMoves(k, p);
    match e {
      case SemCreate(_) => CreateMoves(k, p, e);
      case LockCreate => CreateMoves(k, p, e);
      case CondCreate(_) => CreateMoves(k, p, e);
      case SemWait(h) => if GoodSem(k, h) { SemWaitMoves(k, p, h); }
      case SemSignal(h) => if GoodSem(k, h) { SemSignalMoves(k, p, h); }
      case LockAcquire(h) => if GoodLock(k, h) { AcquireMoves(k, p, h); }
      case LockRelease(h) => if GoodLock(k, h) { ReleaseMoves(k, p, h); }
      case CondWait(h) => if GoodCond(k, h) { CondWaitMoves(k, p, h); }
      case CondSignal(h) => if GoodCond(k, h) { CondSignalMoves(k, p, h); }
      case CondBroadcast(h) => if GoodCond(k, h) { BroadcastMoves(k, p, h); }
      case Resume => ResumeMoves(k, p);
      case _ => assert false;
    }
  }

  /** Every step that is not an exit moves the run queue up by one place if it goes through the
      scheduler, and otherwise adds to the end of the queue only. */
  lemma StepMoves(k: Kernel, e: Event)
    requires KernelOk(k) && Enabled(k, e) && e != Exit && !Do(k, e).halted
    ensures RunQueueMoves(k.procs.run, Do(k, e).procs.run, Switches(k, Do(k, e), e))
  {
    hide DoOwn;
    if IsFork(e) {
      if k.procs.run != [] { CurrentIsRunnable(k); }
    } else if e == Timer {
      RunningFacts(k, k.procs.current);
      TimerMoves(k, k.procs.current);
    } else {
      OwnMoves(k, k.procs.current, e);
    }
  }

  lemma TimerMoves(k: Kernel, p: nat)
    requires Running(k, p)
    ensures RunQueueMoves(k.procs.run, DoOwn(k, p, Timer).procs.run, true)
  {
    RunningFacts(k, p);
  }

  /** How often the kernel switches between states `n` and `m` of a run. */
  ghost function Switchings(run: seq<Kernel>, evs: seq<Event>, n: nat, m: nat): nat
    requires |run| == |evs| + 1 && n <= m < |run|
  {
    if n == m then 0
    else Switchings(run, evs, n, m - 1) + Count(Switches(run[m - 1], run[m], evs[m - 1]))
  }

  /** Round robin.  While nobody exits, the process at index `i` of the run queue moves up by one
      place at every switch, and so it is current after exactly `i` of them. */
  lemma {:induction false} BoundedWaiting(run: seq<Kernel>, evs: seq<Event>, n: nat, m: nat, i: nat)
    requires Follows(run, evs) && KernelOk(run[0]) && n <= m < |run| && !run[m].halted
    requires i < |run[n].procs.run| && Switchings(run, evs, n, m) <= i
    requires forall j :: n <= j < m ==> evs[j] != Exit
    ensures var s := Switchings(run, evs, n, m);
      i - s < |run[m].procs.run| && run[m].procs.run[i - s] == run[n].procs.run[i]
    ensures Switchings(run, evs, n, m) == i ==> run[m].procs.current == run[n].procs.run[i]
  {
    hide Do, CallsOk, ObjectsOk, ProcsOk;
    RunOk(run, evs, m);
    if n < m {
      RunOk(run, evs, m - 1);
      assert !run[m - 1].halted;
      BoundedWaiting(run, evs, n, m - 1, i);
      StepMoves(run[m - 1], evs[m - 1]);
    }
  }

  /** An exit schedules with the flag of a time slice that ended, after the exiting process has
      left the run queue: the next process goes to the back without having run. */
  lemma ExitSkipsTheNext(k: Kernel)
    requires KernelOk(k) && Enabled(k, Exit)
    ensures var run := k.procs.run;
      var t := Do(k, Exit);
      && (t.halted <==> |run| == 1)
      && (|run| > 1 ==>
            && t.procs.run == Rotate(run[1..])
            && t.procs.current == (if |run| == 2 then run[1] else run[2])
            && t.procs.run[|run| - 2] == run[1])
  {
    RunningFacts(k, k.procs.current);
    WithoutIs(k.procs.run, k.procs.current);
    assert Destroy(k.procs, k.procs.current).run == k.procs.run[1..];
    assert k.procs.zombie == [];
  }

  /** By how many places a step moves the run queue up: an exit takes the current process away, and
      puts the next one to the back. */
  function Places(k: Kernel, t: Kernel, e: Event): nat {
    if e == Exit then 2 else if Switches(k, t, e) then 1 else 0
  }

  /** By how many places the run queue moves up between states `n` and `m` of a run. */
  ghost function Moved(run: seq<Kernel>, evs: seq<Event>, n: nat, m: nat): nat
    requires |run| == |evs| + 1 && n <= m < |run|
  {
    if n == m then 0
    else Moved(run, evs, n, m - 1) + Places(run[m - 1], run[m], evs[m - 1])
  }

  /** `p` is second in the run queue. */
  predicate IsNext(k: Kernel, p: nat) { |k.procs.run| > 1 && k.procs.run[1] == p }

  /** `p` loses its turn: somebody exits while it is next, and it is not the only one left. */
  predicate Skips(k: Kernel, e: Event, p: nat) { e == Exit && IsNext(k, p) && |k.procs.run| > 2 }

  /** One step, for the process at index `x`. */
  lemma StepPlaces(k: Kernel, e: Event, x: nat)
    requires KernelOk(k) && Enabled(k, e) && !Do(k, e).halted && 0 < x < |k.procs.run|
    ensures var t, p, d := Do(k, e), k.procs.run[x], Places(k, Do(k, e), e);
      && KernelOk(t) && p != k.procs.current
      && (d < x ==> x - d < |t.procs.run| && t.procs.run[x - d] == p && t.procs.current != p)
      && (d >= x ==> (t.procs.current == p <==> !Skips(k, e, p)))
      && (Skips(k, e, p) ==> d >= x && t.procs.run != [] && t.procs.run[|t.procs.run| - 1] == p)
  {
    hide Do, KernelOk;
    DoOk(k, e);
    HeadIsCurrent(k, x);
    if e == Exit {
      ExitSkipsTheNext(k);
      if x > 2 { HeadIsCurrent(Do(k, e), x - 2); }
      if |k.procs.run| > 2 { HeadIsCurrent(k, 2); DifferentPlaces(k, 1, 2); DifferentPlaces(k, 1, x); }
    } else {
      StepMoves(k, e);
      var d := Count(Switches(k, Do(k, e), e));
      if d < x { HeadIsCurrent(Do(k, e), x - d); } else { HeadRuns(Do(k, e)); }
    }
  }

  lemma HeadRuns(k: Kernel)
    requires KernelOk(k) && !k.halted && k.procs.run != []
    ensures k.procs.current == k.procs.run[0]
  {
  }

  lemma DifferentPlaces(k: Kernel, x: nat, y: nat)
    requires KernelOk(k) && !k.halted && x < |k.procs.run| && y < |k.procs.run|
    ensures k.procs.run[x] == k.procs.run[y] ==> x == y
  {
    hide CallsOk, ObjectsOk;
  }

  lemma HeadIsCurrent(k: Kernel, x: nat)
    requires KernelOk(k) && !k.halted && 0 < x < |k.procs.run|
    ensures k.procs.current == k.procs.run[0] != k.procs.run[x]
  {
    hide CallsOk, ObjectsOk;
  }

  lemma RunsUntil(run: seq<Kernel>, evs: seq<Event>, m: nat)
    requires Follows(run, evs) && KernelOk(run[0]) && m < |run| && !run[m].halted
    ensures forall j :: 0 <= j < m ==> !run[j].halted
  {
    hide KernelOk, Do;
    forall j | 0 <= j < m ensures !run[j].halted { RunOk(run, evs, j); }
  }

  /** Round robin, exits included.  Until it has moved up by `i` places in all, the process at index
      `i` stands exactly as many places further up as the queue has moved, and has not been current. */
  lemma {:induction false} WaitsItsTurn(run: seq<Kernel>, evs: seq<Event>, n: nat, m: nat, i: nat)
    requires Follows(run, evs) && KernelOk(run[0]) && n <= m < |run| && !run[m].halted
    requires i < |run[n].procs.run| && Moved(run, evs, n, m) < i
    ensures var d := Moved(run, evs, n, m);
      i - d < |run[m].procs.run| && run[m].procs.run[i - d] == run[n].procs.run[i] != run[m].procs.current
  {
    hide Do, KernelOk, Enabled, Places;
    RunOk(run, evs, m);
    RunsUntil(run, evs, m);
    if n == m {
      HeadIsCurrent(run[m], i);
    } else {
      RunOk(run, evs, m - 1);
      WaitsItsTurn(run, evs, n, m - 1, i);
      StepPlaces(run[m - 1], evs[m - 1], i - Moved(run, evs, n, m - 1));
    }
  }

  /** In the step in which the queue has moved up by `i` places or more, its turn comes: it is current
      exactly if that step does not skip it; otherwise it is at the end of the queue. */
  lemma TurnComes(run: seq<Kernel>, evs: seq<Event>, n: nat, m: nat, i: nat)
    requires Follows(run, evs) && KernelOk(run[0]) && n < m < |run| && !run[m].halted
    requires i < |run[n].procs.run| && Moved(run, evs, n, m - 1) < i <= Moved(run, evs, n, m)
    ensures var p := run[n].procs.run[i];
      && (run[m].procs.current == p <==> !Skips(run[m - 1], evs[m - 1], p))
      && (Skips(run[m - 1], evs[m - 1], p) ==>
            run[m].procs.run != [] && run[m].procs.run[|run[m].procs.run| - 1] == p)
  {
    hide Do, KernelOk, Enabled, Places, Skips;
    RunOk(run, evs, m - 1);
    RunsUntil(run, evs, m);
    WaitsItsTurn(run, evs, n, m - 1, i);
    StepPlaces(run[m - 1], evs[m - 1], i - Moved(run, evs, n, m - 1));
  }

  /** So when the queue has moved up by `i` places, there is one state in which the turn of the process
      at index `i` has come; before, it has not been current, and in that state it is current exactly
      if it has not been skipped on the way there. */
  lemma {:induction false} CurrentInTurn(run: seq<Kernel>, evs: seq<Event>, n: nat, m: nat, i: nat) returns (j: nat)
    requires Follows(run, evs) && KernelOk(run[0]) && n <= m < |run| && !run[m].halted
    requires i < |run[n].procs.run| && Moved(run, evs, n, m) >= i
    ensures n <= j <= m
    ensures var p := run[n].procs.run[i];
      && (forall k :: n <= k < j ==> run[k].procs.current != p)
      && (run[j].procs.current == p <==> !(j > n && Skips(run[j - 1], evs[j - 1], p)))
    decreases m
  {
    hide Do, KernelOk, Enabled, Places, Skips;
    RunsUntil(run, evs, m);
    if i == 0 {
      RunOk(run, evs, n);
      HeadRuns(run[n]);
      j := n;
    } else if Moved(run, evs, n, m - 1) >= i {
      j := CurrentInTurn(run, evs, n, m - 1, i);
    } else {
      TurnComes(run, evs, n, m, i);
      forall k | n <= k < m ensures run[k].procs.current != run[n].procs.run[i] {
        MovedGrows(run, evs, n, k, m - 1);
        WaitsItsTurn(run, evs, n, k, i);
      }
      j := m;
    }
  }

  lemma {:induction false} MovedGrows(run: seq<Kernel>, evs: seq<Event>, n: nat, k: nat, m: nat)
    requires |run| == |evs| + 1 && n <= k <= m < |run|
    ensures Moved(run, evs, n, k) <= Moved(run, evs, n, m)
    decreases m
  {
    if k < m { MovedGrows(run, evs, n, k, m - 1); }
  }

  // ----- a process that never runs -----

  /** `p` is next, behind a process in user code. */
  ghost predicate Behind(k: Kernel, p: nat) {
    && KernelOk(k) && !k.halted && IsNext(k, p)
    && k.procs.current == k.procs.run[0] < |k.calls| && k.calls[k.procs.current] == NoCall
  }

  ghost predicate Starving(k: Kernel, p: nat) { Behind(k, p) && |k.procs.run| == 2 && k.procs.free != [] }

  /** It could run, but does not. */
  lemma BehindWaits(k: Kernel, p: nat)
    requires Behind(k, p)
    ensures k.procs.current != p && p < |k.procs.status| && k.procs.status[p] == Runnable
  {
    hide CallsOk, ObjectsOk;
    assert p in k.procs.run && k.procs.run[0] != k.procs.run[1];
  }

  lemma FreeIsNotInACall(k: Kernel, y: nat)
    requires KernelOk(k) && !k.halted && y in k.procs.free
    ensures y < |k.calls| && k.calls[y] == NoCall
  {
    assert k.procs.status[y] == Free;
    assert CallOk(k, y);
  }

  lemma BeginsFork(k: Kernel, p: nat)
    requires Starving(k, p)
    ensures KernelOk(k) && Enabled(k, Event.ForkBegin)
    ensures var y, t := k.procs.free[0], Do(k, Event.ForkBegin);
      && Behind(t, p) && |t.procs.run| == 2 && y in t.procs.forking && y < |t.calls| && t.calls[y] == NoCall
  {
    hide CallsOk, ObjectsOk, ProcsOk;
    FreeIsNotInACall(k, k.procs.free[0]);
    DoOk(k, Event.ForkBegin);
  }

  lemma FinishesFork(k: Kernel, p: nat, y: nat)
    requires Behind(k, p) && |k.procs.run| == 2 && y in k.procs.forking && y < |k.calls| && k.calls[y] == NoCall
    ensures KernelOk(k) && Enabled(k, Event.ForkFinish(y))
    ensures var t := Do(k, Event.ForkFinish(y));
      Behind(t, p) && |t.procs.run| == 3 && t.procs.run[2] == y && y < |t.calls| && t.calls[y] == NoCall
  {
    hide CallsOk, ObjectsOk, ProcsOk;
    DoOk(k, Event.ForkFinish(y));
  }

  lemma ReapOne(ps: Procs, x: nat)
    requires ps.zombie == [x] && x < |ps.status|
    ensures Reap(ps).free == ps.free + [x]
  {
    assert ps.zombie[1..] == [];
  }

  lemma LeavesToChild(k: Kernel, p: nat, y: nat)
    requires Behind(k, p) && |k.procs.run| == 3 && k.procs.run[2] == y && y < |k.calls| && k.calls[y] == NoCall
    ensures KernelOk(k) && Enabled(k, Exit) && Starving(Do(k, Exit), p)
  {
    hide CallsOk, ObjectsOk, KernelOk;
    ExitSkipsTheNext(k);
    DoOk(k, Exit);
    ExitFrees(k);
  }

  lemma ExitFrees(k: Kernel)
    requires KernelOk(k) && Enabled(k, Exit) && |k.procs.run| > 1
    ensures Do(k, Exit).procs.free == k.procs.free + [k.procs.current] && Do(k, Exit).calls == k.calls
  {
    hide CallsOk, ObjectsOk, Reap;
    var x: nat := k.procs.current;
    RunningFacts(k, x);
    WithoutIs(k.procs.run, x);
    var ps := Destroy(k.procs, x);
    var run := Rotate(ps.run);
    ReapOne(ps.(run := run, current := run[0]), x);
  }

  /** Longer by one event. */
  lemma OneMoreEvent(run: seq<Kernel>, evs: seq<Event>, e: Event)
    requires Follows(run, evs) && KernelOk(run[|evs|]) && Enabled(run[|evs|], e)
    ensures Follows(run + [Do(run[|evs|], e)], evs + [e])
    ensures forall n, m :: 0 <= n <= m <= |evs| ==>
              Moved(run + [Do(run[|evs|], e)], evs + [e], n, m) == Moved(run, evs, n, m)
  {
    hide Do, KernelOk, Enabled;
    forall n, m | 0 <= n <= m <= |evs|
      ensures Moved(run + [Do(run[|evs|], e)], evs + [e], n, m) == Moved(run, evs, n, m)
    {
      SameMoves(run, evs, Do(run[|evs|], e), e, n, m);
    }
  }

  lemma {:induction false} SameMoves(run: seq<Kernel>, evs: seq<Event>, t: Kernel, e: Event, n: nat, m: nat)
    requires |run| == |evs| + 1 && n <= m <= |evs|
    ensures Moved(run + [t], evs + [e], n, m) == Moved(run, evs, n, m)
    decreases m
  {
    if n < m { SameMoves(run, evs, t, e, n, m - 1); }
  }

  /** From state `n` on the kernel runs, and `p` is next. */
  ghost predicate BehindFrom(run: seq<Kernel>, n: nat, p: nat) {
    forall j :: n <= j < |run| ==> Behind(run[j], p)
  }

  /** A program that forks a copy of itself and exits, again and again, keeps the process next in
      the queue from ever running, however often the scheduler is gone through. */
  lemma {:induction false} Starves(run0: seq<Kernel>, evs0: seq<Event>, p: nat, times: nat)
    returns (run: seq<Kernel>, evs: seq<Event>)
    requires Follows(run0, evs0) && Starving(run0[|evs0|], p)
    ensures Follows(run, evs) && |run| == |evs| + 1 && |evs| == |evs0| + 3 * times && run0 <= run
    ensures BehindFrom(run, |evs0|, p) && Starving(run[|evs|], p)
    ensures Moved(run, evs, |evs0|, |evs|) >= 2 * times
    decreases times
  {
    hide Do, KernelOk, Enabled, Behind, Follows;
    FollowsLength(run0, evs0);
    if times == 0 {
      run, evs := run0, evs0;
    } else {
      run, evs := Starves(run0, evs0, p, times - 1);
      var n := |evs0|;
      var k := run[|evs|];
      BeginsFork(k, p);
      var y := k.procs.free[0];
      run, evs := Appended(run, evs, Event.ForkBegin, n, p);
      FinishesFork(run[|evs|], p, y);
      run, evs := Appended(run, evs, Event.ForkFinish(y), n, p);
      LeavesToChild(run[|evs|], p, y);
      run, evs := Appended(run, evs, Exit, n, p);
    }
  }

  lemma FollowsLength(run: seq<Kernel>, evs: seq<Event>)
    requires Follows(run, evs)
    ensures |run| == |evs| + 1
  {
  }

  lemma Appended(run: seq<Kernel>, evs: seq<Event>, e: Event, n: nat, p: nat) returns (run': seq<Kernel>, evs': seq<Event>)
    requires Follows(run, evs) && n <= |evs| && BehindFrom(run, n, p)
    requires KernelOk(run[|evs|]) && Enabled(run[|evs|], e) && Behind(Do(run[|evs|], e), p)
    ensures Follows(run', evs') && |run'| == |evs'| + 1 && evs' == evs + [e] && run' == run + [Do(run[|evs|], e)] && BehindFrom(run', n, p)
    ensures Moved(run', evs', n, |evs'|) >= Moved(run, evs, n, |evs|) + if e == Exit then 2 else 0
  {
    hide Do, KernelOk, Enabled, Behind;
    OneMoreEvent(run, evs, e);
    run', evs' := run + [Do(run[|evs|], e)], evs + [e];
  }

  /** A whole ProcessFork. */
  lemma OneFork(k: Kernel, y: nat)
    requires KernelOk(k) && !k.halted && k.procs.free != [] && k.procs.free[0] == y
    ensures Enabled(k, Event.ForkBegin) && KernelOk(Do(k, Event.ForkBegin))
    ensures Enabled(Do(k, Event.ForkBegin), Event.ForkFinish(y))
    ensures var t := Do(Do(k, Event.ForkBegin), Event.ForkFinish(y));
      && KernelOk(t) && !t.halted && t.calls == k.calls
      && t.procs.run == k.procs.run + [y] && t.procs.free == k.procs.free[1..]
  {
    hide CallsOk, ObjectsOk, ProcsOk;
    DoOk(k, Event.ForkBegin);
    DoOk(Do(k, Event.ForkBegin), Event.ForkFinish(y));
  }

  lemma TwoForks(nProcs: nat, nSems: nat, nLocks: nat, nConds: nat) returns (run: seq<Kernel>, evs: seq<Event>)
    requires nProcs >= 3
    ensures Follows(run, evs) && |evs| == 4 && run[0] == Boot(nProcs, nSems, nLocks, nConds)
    ensures Starving(run[4], nProcs - 2)
  {
    hide KernelOk, Do, Enabled;
    var a, b := nProcs - 1, nProcs - 2;
    var k0 := Boot(nProcs, nSems, nLocks, nConds);
    BootOk(nProcs, nSems, nLocks, nConds);
    OneFork(k0, a);
    var k1 := Do(k0, Event.ForkBegin);
    var k2 := Do(k1, Event.ForkFinish(a));
    OneFork(k2, b);
    var k3 := Do(k2, Event.ForkBegin);
    var k4 := Do(k3, Event.ForkFinish(b));
    HeadRuns(k4);
    run, evs := [k0, k1, k2, k3, k4], [Event.ForkBegin, Event.ForkFinish(a), Event.ForkBegin, Event.ForkFinish(b)];
  }

  /** With three PCBs or more, a kernel can be driven from boot so that a process that could run
      never does, however far the queue moves: it is skipped at every exit. */
  lemma ProcessCanStarve(nProcs: nat, nSems: nat, nLocks: nat, nConds: nat, times: nat)
    returns (run: seq<Kernel>, evs: seq<Event>)
    requires nProcs >= 3
    ensures Follows(run, evs) && |evs| == 4 + 3 * times && run[0] == Boot(nProcs, nSems, nLocks, nConds)
    ensures forall j :: 4 <= j < |run| ==>
              && !run[j].halted && run[j].procs.current != nProcs - 2
              && nProcs - 2 < |run[j].procs.status| && run[j].procs.status[nProcs - 2] == Runnable
    ensures Moved(run, evs, 4, |evs|) >= 2 * times
  {
    hide Do, KernelOk, Enabled, Moved;
    var run0, evs0 := TwoForks(nProcs, nSems, nLocks, nConds);
    run, evs := Starves(run0, evs0, nProcs - 2, times);
    forall j | 4 <= j < |run|
      ensures !run[j].halted && run[j].procs.current != nProcs - 2
      ensures nProcs - 2 < |run[j].procs.status| && run[j].procs.status[nProcs - 2] == Runnable
    {
      BehindWaits(run[j], nProcs - 2);
    }
  }
}
