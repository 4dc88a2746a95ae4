/** What the calls on semaphores, locks and condition variables return (os/traps.c:330-407), said of the
    states before and after each of them, and what forks and exits do to the queue of free PCBs. */
module KernelResults {
  import opened Synch
  import opened Processes
  import opened KernelState
  import opened KernelInvariant

  /** `r` is the place of the first of the entries that is not in use, or -1 if there is none. */
  predicate IsFirstFree(used: seq<bool>, r: int) {
    if r == -1 then forall i :: 0 <= i < |used| ==> used[i]
    else 0 <= r < |used| && !used[r] && forall i :: 0 <= i < r ==> used[i]
  }

  lemma FirstFreeIs(used: seq<bool>)
    ensures IsFirstFree(used, if FirstFree(used) == |used| then -1 else FirstFree(used))
  {
  }

  /** sem_create returns the handle of the first entry that is not in use, and makes it a semaphore
      with that count and no sleepers; or -1, with no effect, if all are in use. */
  lemma SemCreateReturns(k: Kernel, count: int)
    requires KernelOk(k) && Enabled(k, Event.SemCreate(count))
    ensures var r, t := Result(k, Event.SemCreate(count)), Do(k, Event.SemCreate(count));
      && r.Some?
      && IsFirstFree(seq(|k.sems|, i requires 0 <= i < |k.sems| => k.sems[i].inuse), r.value)
      && t == if r.value == -1 then k else k.(sems := k.sems[r.value := Sem(true, count, [])])
  {
    hide AtTrapReturn, CallsOk, ObjectsOk, FirstFree;
    RunningFacts(k, k.procs.current);
    FirstFreeIs(seq(|k.sems|, i requires 0 <= i < |k.sems| => k.sems[i].inuse));
  }

  /** lock_create, in the same way: the lock is free and nobody waits for it. */
  lemma LockCreateReturns(k: Kernel)
    requires KernelOk(k) && Enabled(k, Event.LockCreate)
    ensures var r, t := Result(k, Event.LockCreate), Do(k, Event.LockCreate);
      && r.Some?
      && IsFirstFree(seq(|k.locks|, i requires 0 <= i < |k.locks| => k.locks[i].inuse), r.value)
      && t == if r.value == -1 then k else k.(locks := k.locks[r.value := Lock(true, -1, [])])
  {
    hide AtTrapReturn, CallsOk, ObjectsOk, FirstFree;
    RunningFacts(k, k.procs.current);
    FirstFreeIs(seq(|k.locks|, i requires 0 <= i < |k.locks| => k.locks[i].inuse));
  }

  /** cond_create, in the same way: the handle of the lock must be in range, but the lock need not be
      in use. */
  lemma CondCreateReturns(k: Kernel, lock: int)
    requires KernelOk(k) && Enabled(k, Event.CondCreate(lock))
    ensures var r, t := Result(k, Event.CondCreate(lock)), Do(k, Event.CondCreate(lock));
      && r.Some?
      && (if 0 <= lock < |k.locks| then
            IsFirstFree(seq(|k.conds|, i requires 0 <= i < |k.conds| => k.conds[i].inuse), r.value)
          else r.value == -1)
      && t == if r.value == -1 then k else k.(conds := k.conds[r.value := Cond(true, lock, [])])
  {
    hide AtTrapReturn, CallsOk, ObjectsOk, FirstFree;
    RunningFacts(k, k.procs.current);
    FirstFreeIs(seq(|k.conds|, i requires 0 <= i < |k.conds| => k.conds[i].inuse));
  }

  /** A semaphore call fails on a handle that names no semaphore in use; a wait on a semaphore without
      credit has no result yet; every other call succeeds. */
  lemma SemReturns(k: Kernel, h: int)
    ensures var good := 0 <= h < |k.sems| && k.sems[h].inuse;
      && (Result(k, Event.SemSignal(h)) == if good then Some(1) else Some(-1))
      && (Result(k, Event.SemWait(h)) == if !good then Some(-1) else if k.sems[h].count > 0 then Some(1) else None)
  {
  }

  /** Every process that has been handed a lock is some PCB, and a lock is free exactly if its owner
      is -1. */
  lemma OwnerIsProcess(k: Kernel, l: int)
    requires KernelOk(k) && !k.halted && 0 <= l < |k.locks| && k.locks[l].inuse
    ensures k.locks[l].pid == -1 || 0 <= k.locks[l].pid < |k.procs.status|
  {
    hide AtTrapReturn, CallsOk, SemsOk, CondsOk, SleepersOf;
    var n: nat := l;
    assert LockOk(k.locks[n]);
  }

  /** lock_acquire fails on a handle that names no lock in use, succeeds at once for a free lock and for
      the owner, and otherwise has no result yet; lock_release succeeds exactly for the owner. */
  lemma LockReturns(k: Kernel, h: int)
    requires KernelOk(k) && !k.halted
    ensures var good := 0 <= h < |k.locks| && k.locks[h].inuse;
      && (Result(k, Event.LockAcquire(h)) ==
            if !good then Some(-1) else if k.locks[h].pid == -1 || k.locks[h].pid == k.procs.current then Some(1) else None)
      && (Result(k, Event.LockRelease(h)) == if good && k.locks[h].pid == k.procs.current then Some(1) else Some(-1))
  {
    hide AtTrapReturn, CallsOk, ObjectsOk, KernelOk;
    if GoodLock(k, h) { OwnerIsProcess(k, h); }
  }

  /** cond_signal and cond_broadcast succeed exactly on a condition variable in use, for the owner of its
      lock; cond_wait fails at once exactly on any other handle. */
  lemma CondReturns(k: Kernel, h: int)
    requires KernelOk(k) && !k.halted
    ensures var good := 0 <= h < |k.conds| && k.conds[h].inuse;
      && (good ==> 0 <= k.conds[h].lock < |k.locks|)
      && (Result(k, Event.CondWait(h)) == if good then None else Some(-1))
      && (Result(k, Event.CondSignal(h)) ==
            if good && k.locks[k.conds[h].lock].pid == k.procs.current then Some(1) else Some(-1))
      && (Result(k, Event.CondBroadcast(h)) ==
            if good && k.locks[k.conds[h].lock].pid == k.procs.current then Some(1) else Some(-1))
  {
    hide AtTrapReturn, CallsOk, SemsOk, LocksOk, SleepersOf;
    if 0 <= h < |k.conds| {
      var c: nat := h;
      assert k.conds[c].inuse ==> 0 <= k.conds[c].lock < |k.locks|;
    }
  }

  lemma InsideOfCall(k: Kernel, p: nat)
    requires KernelOk(k) && !k.halted && p < |k.calls|
    ensures k.calls[p].InCond? ==> k.calls[p].cond < |k.conds| && k.conds[k.calls[p].cond].inuse
  {
    hide AtTrapReturn, ObjectsOk;
    assert CallOk(k, p);
  }

  /** A call that slept succeeds when its process runs on, unless it is a cond_wait whose lock is in use
      and has another owner: that one has no result yet. */
  lemma ResumeReturns(k: Kernel)
    requires KernelOk(k) && Enabled(k, Resume)
    ensures 0 <= k.procs.current < |k.calls|
    ensures var call := k.calls[k.procs.current];
      && (call.InCond? ==> call.cond < |k.conds| && 0 <= k.conds[call.cond].lock < |k.locks|)
      && (Result(k, Resume) ==
            if call.InCond?
               && k.locks[k.conds[call.cond].lock].inuse
               && k.locks[k.conds[call.cond].lock].pid != -1
               && k.locks[k.conds[call.cond].lock].pid != k.procs.current
            then None else Some(1))
  {
    hide AtTrapReturn, KernelOk, ObjectsOk;
    RunningFacts(k, k.procs.current);
    InsideOfCall(k, k.procs.current);
    var call := k.calls[k.procs.current];
    if call.InCond? {
      CondReturns(k, call.cond);
      if GoodLock(k, k.conds[call.cond].lock) { OwnerIsProcess(k, k.conds[call.cond].lock); }
    }
  }

  lemma SleepJoins(k: Kernel, p: nat, call: Call)
    requires p < |k.procs.status| && p < |k.calls| && forall z :: z in k.procs.zombie ==> z < |k.procs.status|
    ensures Sleep(k, p, call).procs.wait == k.procs.wait + [p]
    ensures Sleep(k, p, call).procs.status[p] == Waiting || p in k.procs.zombie
  {
  }

  lemma AcquireJoins(k: Kernel, p: nat, l: nat)
    requires p < |k.procs.status| && p < |k.calls| && l < |k.locks| && k.procs.zombie == []
    requires k.locks[l].pid >= 0 && k.locks[l].pid != p
    ensures var t := DoLockAcquire(k, p, l); t.procs.wait == k.procs.wait + [p] && t.procs.status[p] == Waiting
  {
    hide Sleep;
    SleepJoins(k.(locks := k.locks[l := Synch.LockAcquire(k.locks[l], p).obj]), p, InLock(l));
  }

  lemma CondWaitJoins(k: Kernel, p: nat, c: nat)
    requires Running(k, p) && k.calls[p] == NoCall && c < |k.conds| && k.conds[c].inuse
    requires 0 <= k.conds[c].lock < |k.locks| && k.locks[k.conds[c].lock].pid == p
    ensures var t := DoCondWait(k, p, c);
      |t.procs.wait| > 0 && t.procs.wait[|t.procs.wait| - 1] == p && t.procs.status[p] == Waiting
  {
    hide Sleep, DoLockRelease;
    RunningFacts(k, p);
    var l: nat := k.conds[c].lock;
    var k1 := k.(conds := k.conds[c := CondEnqueue(k.conds[c], p)]);
    if k.locks[l].inuse {
      LockReleaseOk(k, p, l);
      ReleaseIgnoresConds(k, p, l, k1.conds);
      RunningFacts(DoLockRelease(k, p, l), p);
      SleepJoins(DoLockRelease(k1, p, l), p, InCond(c));
    } else {
      SleepJoins(k1, p, InCond(c));
    }
  }

  /** A call without a result has put its process to sleep, at the end of the wait queue, or has stopped
      the kernel. */
  lemma NoResultYet(k: Kernel, e: Event)
    requires KernelOk(k) && Enabled(k, e) && !IsFork(e) && e != Timer && e != Exit && Result(k, e) == None
    ensures 0 <= k.procs.current < |k.procs.status|
    ensures var t := Do(k, e);
      t.halted || (|t.procs.wait| > 0 && t.procs.wait[|t.procs.wait| - 1] == k.procs.current
                   && t.procs.status[k.procs.current] == Waiting)
  {
    hide AtTrapReturn, CallsOk, ObjectsOk, Sleep, DoLockAcquire, DoCondWait, FirstFree;
    var p: nat := k.procs.current;
    RunningFacts(k, p);
    if e.SemWait? {
      SleepJoins(k.(sems := k.sems[e.sem := Synch.SemWait(k.sems[e.sem], p).obj]), p, InSem(e.sem));
    } else if e.LockAcquire? {
      AcquireJoins(k, p, e.lock);
    } else if e.CondWait? {
      CondReturns(k, e.cond);
      if k.locks[k.conds[e.cond].lock].pid == p { CondWaitJoins(k, p, e.cond); } else { NotOwned(k, p, e.cond); }
    } else {
      InsideOfCall(k, p);
      AcquireJoins(k, p, k.conds[k.calls[p].cond].lock);
    }
  }

  lemma NotOwned(k: Kernel, p: nat, c: nat)
    requires p < |k.procs.status| && p < |k.calls| && c < |k.conds| && 0 <= k.conds[c].lock < |k.locks|
    requires k.locks[k.conds[c].lock].pid != p && forall z :: z in k.procs.zombie ==> z < |k.procs.status|
    ensures DoCondWait(k, p, c).halted
  {
  }

  // ----- free PCBs -----

  /** A fork takes the first free PCB; a failed one gives it back at the end, as does an exit. */
  lemma FreePcbs(k: Kernel, e: Event)
    requires KernelOk(k) && Enabled(k, e) && !Do(k, e).halted
    ensures e == Event.ForkBegin ==>
      k.procs.free != [] && Do(k, e).procs.free == k.procs.free[1..] && Do(k, e).procs.forking == k.procs.forking + {k.procs.free[0]}
    ensures e.ForkFail? ==> Do(k, e).procs.free == k.procs.free + [e.child] && e.child !in Do(k, e).procs.forking
    ensures e.ForkFinish? ==> Do(k, e).procs.run == k.procs.run + [e.child] && e.child !in Do(k, e).procs.forking
    ensures e == Exit ==> k.procs.current >= 0 && Do(k, e).procs.free == k.procs.free + [k.procs.current]
  {
    hide ObjectsOk, CallsOk;
    if e == Exit {
      var p: nat := k.procs.current;
      RunningFacts(k, p);
      var ps := Destroy(k.procs, p);
      assert ps.zombie == [p];
      ReapsOne(ps.(run := Rotate(ps.run), current := if ps.run == [] then 0 else Rotate(ps.run)[0]), p);
    }
  }

  lemma ReapsOne(ps: Procs, p: nat)
    requires ps.zombie == [p] && p < |ps.status|
    ensures Reap(ps).free == ps.free + [p]
  {
  }
}
