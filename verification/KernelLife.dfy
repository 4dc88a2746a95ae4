/** Which PCBs hold a process, over one step of the kernel. */
module KernelLife {
  import opened Sequences
  import opened Synch
  import opened Processes
  import opened KernelState
  import opened KernelInvariant
  import opened KernelRuns

  /** A process that can run or waits, and has been forked completely. */
  predicate Lives(ps: Procs, q: nat) {
    q < |ps.status| && (ps.status[q] == Runnable || ps.status[q] == Waiting) && q !in ps.forking
  }

  /** Nobody dies: processes go to sleep and wake up. */
  ghost predicate AllLive(ps: Procs, ps': Procs) {
    |ps'.status| == |ps.status| && forall q: nat :: Lives(ps, q) ==> Lives(ps', q)
  }

  lemma SleepLives(k: Kernel, p: nat, call: Call)
    requires p < |k.procs.status| && p < |k.calls| && k.procs.zombie == []
    ensures AllLive(k.procs, Sleep(k, p, call).procs)
  {
  }

  lemma WakeLives(k: Kernel, woken: Option<nat>)
    ensures AllLive(k.procs, WakeIfAny(k, woken).procs) && WakeIfAny(k, woken).procs.zombie == k.procs.zombie
  {
  }

  lemma {:induction false} WakeAllLive(k: Kernel, c: nat)
    requires c < |k.conds|
    ensures AllLive(k.procs, WakeAll(k, c).procs)
    decreases |k.conds[c].waiting|
  {
    if k.conds[c].waiting != [] {
      var w := Synch.CondSignal(k.conds[c]);
      var k1 := k.(conds := k.conds[c := w.obj]);
      WakeLives(k1, w.woken);
      WakeAllLive(WakeIfAny(k1, w.woken), c);
    }
  }

  lemma ReleaseLives(k: Kernel, p: nat, l: nat)
    requires l < |k.locks|
    ensures AllLive(k.procs, DoLockRelease(k, p, l).procs)
    ensures DoLockRelease(k, p, l).procs.zombie == k.procs.zombie && DoLockRelease(k, p, l).calls == k.calls
  {
    var w := Synch.LockRelease(k.locks[l]);
    WakeLives(k.(locks := k.locks[l := w.obj]), w.woken);
  }

  lemma CondWaitLives(k: Kernel, p: nat, c: nat)
    requires p < |k.procs.status| && p < |k.calls| && c < |k.conds| && 0 <= k.conds[c].lock < |k.locks|
    requires k.procs.zombie == []
    ensures AllLive(k.procs, DoCondWait(k, p, c).procs)
  {
    hide Sleep, DoLockRelease;
    var l: nat := k.conds[c].lock;
    if k.locks[l].pid == p {
      var k1 := k.(conds := k.conds[c := CondEnqueue(k.conds[c], p)]);
      ReleaseLives(k1, p, l);
      SleepLives(if k.locks[l].inuse then DoLockRelease(k1, p, l) else k1, p, InCond(c));
    }
  }

  lemma OwnLives(k: Kernel, p: nat, e: Event)
    requires Running(k, p) && !IsFork(e) && Enabled(k, e) && e != Exit && e != Timer
    ensures AllLive(k.procs, DoOwn(k, p, e).procs)
  {
    hide Sleep, WakeIfAny, WakeAll, DoCondWait, DoLockRelease, SemsOk, LocksOk, ProcsOk, AllLive, FirstFree;
    RunningFacts(k, p);
    Same(k.procs);
    if e.SemWait? {
      if GoodSem(k, e.sem) { SleepLives(k.(sems := k.sems[e.sem := Synch.SemWait(k.sems[e.sem], p).obj]), p, InSem(e.sem)); }
    } else if e.SemSignal? {
      if GoodSem(k, e.sem) {
        var w := Synch.SemSignal(k.sems[e.sem]);
        WakeLives(k.(sems := k.sems[e.sem := w.obj]), w.woken);
      }
    } else if e.LockAcquire? {
      if GoodLock(k, e.lock) { AcquireLives(k, p, e.lock); }
    } else if e.LockRelease? {
      if GoodLock(k, e.lock) { ReleaseLives(k, p, e.lock); }
    } else if e.CondWait? {
      if GoodCond(k, e.cond) { CondWaitLives(k, p, e.cond); }
    } else if e.CondSignal? {
      if GoodCond(k, e.cond) {
        var w := Synch.CondSignal(k.conds[e.cond]);
        WakeLives(k.(conds := k.conds[e.cond := w.obj]), w.woken);
      }
    } else if e.CondBroadcast? {
      if GoodCond(k, e.cond) { WakeAllLive(k, e.cond); }
    } else if e == Resume {
      assert CallOk(k, p);
      if k.calls[p].InCond? { AcquireLives(k, p, k.conds[k.calls[p].cond].lock); }
    }
  }

  lemma Same(ps: Procs)
    ensures AllLive(ps, ps)
  {
  }

  lemma AcquireLives(k: Kernel, p: nat, l: nat)
    requires p < |k.procs.status| && p < |k.calls| && l < |k.locks| && k.procs.zombie == []
    ensures AllLive(k.procs, DoLockAcquire(k, p, l).procs)
  {
    SleepLives(k.(locks := k.locks[l := Synch.LockAcquire(k.locks[l], p).obj]), p, InLock(l));
  }

  /** A step ends no process but the one that exits. */
  lemma LifeStep(k: Kernel, e: Event)
    requires KernelOk(k) && Enabled(k, e)
    ensures |Do(k, e).procs.status| == |k.procs.status|
    ensures forall q: nat :: Lives(k.procs, q) && !(e == Exit && q == k.procs.current) ==> Lives(Do(k, e).procs, q)
  {
    hide DoOwn, CallsOk, ObjectsOk, AtTrapReturn;
    if IsFork(e) {
      ForkLives(k, e);
    } else {
      var p: nat := k.procs.current;
      RunningFacts(k, p);
      if e == Exit { ExitLives(k); } else if e == Timer { TimerLives(k); } else { OwnLives(k, p, e); }
    }
  }

  lemma ForkLives(k: Kernel, e: Event)
    requires KernelOk(k) && Enabled(k, e) && IsFork(e)
    ensures |Do(k, e).procs.status| == |k.procs.status|
    ensures forall q: nat :: Lives(k.procs, q) ==> Lives(Do(k, e).procs, q)
  {
    hide CallsOk, ObjectsOk;
    if e == Event.ForkBegin && k.procs.free != [] { assert k.procs.free[0] in k.procs.free; }
  }

  lemma TimerLives(k: Kernel)
    requires KernelOk(k) && Enabled(k, Timer)
    ensures |Do(k, Timer).procs.status| == |k.procs.status|
    ensures forall q: nat :: Lives(k.procs, q) ==> Lives(Do(k, Timer).procs, q)
  {
    hide CallsOk, ObjectsOk;
  }

  lemma ExitLives(k: Kernel)
    requires KernelOk(k) && Enabled(k, Exit)
    ensures |Do(k, Exit).procs.status| == |k.procs.status|
    ensures forall q: nat :: Lives(k.procs, q) && q != k.procs.current ==> Lives(Do(k, Exit).procs, q)
  {
    hide CallsOk, ObjectsOk;
    RunningFacts(k, k.procs.current);
  }

  /** A child that has been forked completely lives. */
  lemma ChildLives(k: Kernel, y: nat)
    requires KernelOk(k) && Enabled(k, Event.ForkFinish(y))
    ensures !Lives(k.procs, y) && Lives(Do(k, Event.ForkFinish(y)).procs, y)
    ensures y < |k.calls| && k.calls[y] == NoCall
  {
    hide ObjectsOk;
    assert y < |k.calls|;
    assert CallOk(k, y);
  }

  /** A process that lives can run, and is in the run queue, or is on the queue of its call. */
  lemma LivesSomewhere(k: Kernel, q: nat)
    requires KernelOk(k) && !k.halted && Lives(k.procs, q)
    ensures q < |k.calls| == |k.procs.status|
    ensures q in k.procs.run || (k.procs.status[q] == Waiting && OnItsQueue(k, q))
    ensures q in k.procs.run <==> k.procs.status[q] == Runnable
  {
    hide ObjectsOk;
    assert q < |k.calls|;
    assert CallOk(k, q);
  }
}
