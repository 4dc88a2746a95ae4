/** Semaphores, locks and condition variables over whole runs of the kernel. */
module KernelObjects {
  import opened Synch
  import opened Processes
  import opened KernelState
  import opened KernelInvariant
  import opened KernelRuns

  // ----- what one step does to one object -----

  lemma SleepKeepsObjects(k: Kernel, p: nat, call: Call)
    requires p < |k.procs.status| && p < |k.calls|
    requires forall z :: z in k.procs.zombie ==> z < |k.procs.status|
    ensures var t := Sleep(k, p, call); t.sems == k.sems && t.locks == k.locks && t.conds == k.conds
  {
  }

  lemma WakeKeepsObjects(k: Kernel, woken: Option<nat>)
    ensures var t := WakeIfAny(k, woken); t.sems == k.sems && t.locks == k.locks && t.conds == k.conds
  {
  }

  /** A broadcast empties one queue. */
  lemma {:induction false} WakeAllObjects(k: Kernel, c: nat)
    requires c < |k.conds|
    ensures WakeAll(k, c).sems == k.sems && WakeAll(k, c).locks == k.locks
    ensures WakeAll(k, c).conds == k.conds[c := k.conds[c].(waiting := [])]
    decreases |k.conds[c].waiting|
  {
    if k.conds[c].waiting != [] {
      var w := Synch.CondSignal(k.conds[c]);
      var k1 := WakeIfAny(k.(conds := k.conds[c := w.obj]), w.woken);
      WakeKeepsObjects(k.(conds := k.conds[c := w.obj]), w.woken);
      WakeAllObjects(k1, c);
    } else {
      assert k.conds[c := k.conds[c]] == k.conds;
    }
  }

  lemma SemWaitObjects(k: Kernel, p: nat, s: nat)
    requires p < |k.procs.status| && p < |k.calls| && s < |k.sems|
    requires forall z :: z in k.procs.zombie ==> z < |k.procs.status|
    ensures var t := DoSemWait(k, p, s);
      t.sems == k.sems[s := Synch.SemWait(k.sems[s], p).obj] && t.locks == k.locks && t.conds == k.conds
  {
    SleepKeepsObjects(k.(sems := k.sems[s := Synch.SemWait(k.sems[s], p).obj]), p, InSem(s));
  }

  lemma SemSignalObjects(k: Kernel, s: nat)
    requires s < |k.sems|
    ensures var t := DoSemSignal(k, s);
      t.sems == k.sems[s := Synch.SemSignal(k.sems[s]).obj] && t.locks == k.locks && t.conds == k.conds
  {
    var w := Synch.SemSignal(k.sems[s]);
    WakeKeepsObjects(k.(sems := k.sems[s := w.obj]), w.woken);
  }

  lemma LockAcquireObjects(k: Kernel, p: nat, l: nat)
    requires p < |k.procs.status| && p < |k.calls| && l < |k.locks|
    requires forall z :: z in k.procs.zombie ==> z < |k.procs.status|
    ensures var t := DoLockAcquire(k, p, l);
      t.sems == k.sems && t.locks == k.locks[l := Synch.LockAcquire(k.locks[l], p).obj] && t.conds == k.conds
  {
    SleepKeepsObjects(k.(locks := k.locks[l := Synch.LockAcquire(k.locks[l], p).obj]), p, InLock(l));
  }

  lemma LockReleaseObjects(k: Kernel, p: nat, l: nat)
    requires l < |k.locks|
    ensures var t := DoLockRelease(k, p, l);
      && t.sems == k.sems && t.conds == k.conds
      && t.locks == if k.locks[l].pid == p then k.locks[l := Synch.LockRelease(k.locks[l]).obj] else k.locks
  {
    var w := Synch.LockRelease(k.locks[l]);
    WakeKeepsObjects(k.(locks := k.locks[l := w.obj]), w.woken);
  }

  lemma CondWaitObjects(k: Kernel, p: nat, c: nat)
    requires Running(k, p) && k.calls[p] == NoCall && c < |k.conds| && k.conds[c].inuse
    requires 0 <= k.conds[c].lock < |k.locks|
    ensures var t := DoCondWait(k, p, c);
      var l := k.conds[c].lock;
      && t.sems == k.sems
      && (k.locks[l].pid != p ==> t == Halt(k))
      && (k.locks[l].pid == p ==>
            && t.conds == k.conds[c := CondEnqueue(k.conds[c], p)]
            && t.locks == if k.locks[l].inuse then k.locks[l := Synch.LockRelease(k.locks[l]).obj] else k.locks)
  {
    hide Sleep, DoLockRelease;
    RunningFacts(k, p);
    var l: nat := k.conds[c].lock;
    if k.locks[l].pid == p {
      var k1 := k.(conds := k.conds[c := CondEnqueue(k.conds[c], p)]);
      var k2 := if k.locks[l].inuse then DoLockRelease(k1, p, l) else k1;
      LockReleaseObjects(k1, p, l);
      if k.locks[l].inuse {
        LockReleaseOk(k, p, l);
        ReleaseIgnoresConds(k, p, l, k1.conds);
        RunningFacts(DoLockRelease(k, p, l), p);
      }
      SleepKeepsObjects(k2, p, InCond(c));
    }
  }

  lemma CondSignalObjects(k: Kernel, p: nat, c: nat)
    requires c < |k.conds| && 0 <= k.conds[c].lock < |k.locks|
    ensures var t := DoCondSignal(k, p, c);
      && t.sems == k.sems && t.locks == k.locks
      && t.conds == if k.locks[k.conds[c].lock].pid == p then k.conds[c := Synch.CondSignal(k.conds[c]).obj] else k.conds
  {
    var w := Synch.CondSignal(k.conds[c]);
    WakeKeepsObjects(k.(conds := k.conds[c := w.obj]), w.woken);
  }

  lemma CondBroadcastObjects(k: Kernel, p: nat, c: nat)
    requires c < |k.conds| && 0 <= k.conds[c].lock < |k.locks|
    ensures var t := DoCondBroadcast(k, p, c);
      && t.sems == k.sems && t.locks == k.locks
      && t.conds == if k.locks[k.conds[c].lock].pid == p then k.conds[c := k.conds[c].(waiting := [])] else k.conds
  {
    WakeAllObjects(k, c);
  }

  // ----- one object over one step -----

  /** Semaphore `s` after a step: a wait by the current process, a signal, or nothing. */
  function SemAfter(k: Kernel, e: Event, s: nat): Sem
    requires s < |k.sems|
  {
    if k.procs.current >= 0 && e == Event.SemWait(s) then Synch.SemWait(k.sems[s], k.procs.current).obj
    else if e == Event.SemSignal(s) then Synch.SemSignal(k.sems[s]).obj
    else k.sems[s]
  }

  /** Process `p` takes lock `l`, or joins its queue: by lock_acquire, or at the end of a cond_wait. */
  predicate Acquires(k: Kernel, e: Event, l: nat, p: nat) {
    && p == k.procs.current && l < |k.locks| && k.locks[l].inuse
    && (e == Event.LockAcquire(l)
        || (e == Resume && p < |k.calls| && k.calls[p].InCond? && k.calls[p].cond < |k.conds| && k.conds[k.calls[p].cond].lock == l))
  }

  /** The owner `p` gives lock `l` back: by lock_release, or at the beginning of a cond_wait. */
  predicate Releases(k: Kernel, e: Event, l: nat, p: nat) {
    && p == k.procs.current && l < |k.locks| && k.locks[l].inuse && k.locks[l].pid == p
    && (e == Event.LockRelease(l) || (e.CondWait? && GoodCond(k, e.cond) && k.conds[e.cond].lock == l))
  }

  function LockAfter(k: Kernel, e: Event, l: nat): Lock
    requires l < |k.locks|
  {
    if k.procs.current < 0 then k.locks[l]
    else if Acquires(k, e, l, k.procs.current) then Synch.LockAcquire(k.locks[l], k.procs.current).obj
    else if Releases(k, e, l, k.procs.current) then Synch.LockRelease(k.locks[l]).obj
    else k.locks[l]
  }

  /** The current process owns the lock of condition variable `c`. */
  predicate OwnsLockOf(k: Kernel, c: nat) {
    c < |k.conds| && 0 <= k.conds[c].lock < |k.locks| && k.locks[k.conds[c].lock].pid == k.procs.current >= 0
  }

  function CondAfter(k: Kernel, e: Event, c: nat): Cond
    requires c < |k.conds|
  {
    if !OwnsLockOf(k, c) then k.conds[c]
    else if e == Event.CondWait(c) then CondEnqueue(k.conds[c], k.procs.current)
    else if e == Event.CondSignal(c) then Synch.CondSignal(k.conds[c]).obj
    else if e == Event.CondBroadcast(c) then k.conds[c].(waiting := [])
    else k.conds[c]
  }

  /** Every object in use is after the step `e` what that step makes of it. */
  ghost predicate Effect(k: Kernel, e: Event, t: Kernel) {
    && |t.sems| == |k.sems| && |t.locks| == |k.locks| && |t.conds| == |k.conds|
    && (forall s: nat :: s < |k.sems| && k.sems[s].inuse ==> t.sems[s] == SemAfter(k, e, s))
    && (forall l: nat :: l < |k.locks| && k.locks[l].inuse ==> t.locks[l] == LockAfter(k, e, l))
    && (forall c: nat :: c < |k.conds| && k.conds[c].inuse ==> t.conds[c] == CondAfter(k, e, c))
  }

  lemma ResumeObjects(k: Kernel, p: nat)
    requires Running(k, p) && k.calls[p] != NoCall
    ensures CallOk(k, p)
    ensures var t := DoResume(k, p);
      && t.sems == k.sems && t.conds == k.conds
      && (if k.calls[p].InCond? && k.locks[k.conds[k.calls[p].cond].lock].inuse then
            var l := k.conds[k.calls[p].cond].lock;
            t.locks == k.locks[l := Synch.LockAcquire(k.locks[l], p).obj]
          else t.locks == k.locks)
  {
    RunningFacts(k, p);
    assert CallOk(k, p);
    if k.calls[p].InCond? && k.locks[k.conds[k.calls[p].cond].lock].inuse {
      LockAcquireObjects(k, p, k.conds[k.calls[p].cond].lock);
    }
  }

  lemma CreateEffect(k: Kernel, e: Event)
    requires KernelOk(k) && Enabled(k, e) && (e.SemCreate? || e.LockCreate? || e.CondCreate?)
    ensures Effect(k, e, Do(k, e))
  {
    hide AtTrapReturn, SemsOk, LocksOk, CondsOk, CallsOk;
    RunningFacts(k, k.procs.current);
  }

  /** Time slices, exits and forks touch no object. */
  lemma OtherEffect(k: Kernel, e: Event)
    requires KernelOk(k) && Enabled(k, e) && (IsFork(e) || e == Timer || e == Exit)
    ensures Effect(k, e, Do(k, e))
  {
    hide AtTrapReturn, SemsOk, LocksOk, CondsOk, CallsOk, Schedule;
    if !IsFork(e) { RunningFacts(k, k.procs.current); }
    var t := Do(k, e);
    assert t.sems == k.sems && t.locks == k.locks && t.conds == k.conds;
  }

  lemma SemEffect(k: Kernel, e: Event, p: nat)
    requires Running(k, p) && Enabled(k, e) && (e.SemWait? || e.SemSignal?)
    ensures Effect(k, e, DoOwn(k, p, e))
  {
    hide DoSemWait, DoSemSignal, SemsOk, LocksOk, CallsOk;
    RunningFacts(k, p);
    if GoodSem(k, e.sem) {
      if e.SemWait? { SemWaitObjects(k, p, e.sem); } else { SemSignalObjects(k, e.sem); }
    }
  }

  lemma LockEffect(k: Kernel, e: Event, p: nat)
    requires Running(k, p) && Enabled(k, e) && (e.LockAcquire? || e.LockRelease?)
    ensures Effect(k, e, DoOwn(k, p, e))
  {
    hide DoLockAcquire, DoLockRelease, SemsOk, LocksOk, CallsOk;
    RunningFacts(k, p);
    if GoodLock(k, e.lock) {
      if e.LockAcquire? { LockAcquireObjects(k, p, e.lock); } else { LockReleaseObjects(k, p, e.lock); }
    }
  }

  lemma CondWaitEffect(k: Kernel, e: Event, p: nat)
    requires Running(k, p) && Enabled(k, e) && e.CondWait?
    ensures Effect(k, e, DoOwn(k, p, e))
  {
    hide DoCondWait, SemsOk, LocksOk, CallsOk;
    RunningFacts(k, p);
    if GoodCond(k, e.cond) { CondWaitObjects(k, p, e.cond); }
  }

  lemma CondSignalEffect(k: Kernel, e: Event, p: nat)
    requires Running(k, p) && Enabled(k, e) && (e.CondSignal? || e.CondBroadcast?)
    ensures Effect(k, e, DoOwn(k, p, e))
  {
    hide DoCondSignal, DoCondBroadcast, SemsOk, LocksOk, CallsOk;
    RunningFacts(k, p);
    if GoodCond(k, e.cond) {
      if e.CondSignal? { CondSignalObjects(k, p, e.cond); } else { CondBroadcastObjects(k, p, e.cond); }
    }
  }

  lemma ResumeEffect(k: Kernel, p: nat)
    requires Running(k, p) && Enabled(k, Resume)
    ensures Effect(k, Resume, DoOwn(k, p, Resume))
  {
    hide DoResume, SemsOk, LocksOk, CallsOk;
    ResumeObjects(k, p);
  }

  lemma StepEffect(k: Kernel, e: Event)
    requires KernelOk(k) && Enabled(k, e)
    ensures Effect(k, e, Do(k, e))
  {
    hide AtTrapReturn, SemsOk, LocksOk, DoOwn, Effect, CallsOk;
    var p := k.procs.current;
    if IsFork(e) || e == Timer || e == Exit { OtherEffect(k, e); }
    else if e.SemCreate? || e.LockCreate? || e.CondCreate? { CreateEffect(k, e); }
    else if e.SemWait? || e.SemSignal? { SemEffect(k, e, p); }
    else if e.LockAcquire? || e.LockRelease? { LockEffect(k, e, p); }
    else if e == Resume { ResumeEffect(k, p); }
    else if e.CondWait? { CondWaitEffect(k, e, p); }
    else { CondSignalEffect(k, e, p); }
  }

  // ----- the call of the current process over one step -----

  /** The call that the current process `p` is inside of after its step. */
  function CallAfter(k: Kernel, e: Event, p: nat): Call
    requires p < |k.calls|
  {
    match e
    case SemWait(s) => if GoodSem(k, s) && k.sems[s].count <= 0 then InSem(s) else k.calls[p]
    case LockAcquire(l) => if GoodLock(k, l) && NO_OWNER < k.locks[l].pid != p then InLock(l) else k.calls[p]
    case CondWait(c) => if GoodCond(k, c) && OwnsLockOf(k, c) then InCond(c) else k.calls[p]
    case Resume =>
      if k.calls[p].InCond? && k.calls[p].cond < |k.conds| then
        var l := k.conds[k.calls[p].cond].lock;
        if GoodLock(k, l) && NO_OWNER < k.locks[l].pid != p then InLock(l) else NoCall
      else NoCall
    case _ => k.calls[p]
  }

  lemma SleepCalls(k: Kernel, p: nat, call: Call)
    requires p < |k.procs.status| && p < |k.calls|
    requires forall z :: z in k.procs.zombie ==> z < |k.procs.status|
    ensures Sleep(k, p, call).calls == k.calls[p := call]
  {
  }

  lemma WakeCalls(k: Kernel, woken: Option<nat>)
    ensures WakeIfAny(k, woken).calls == k.calls
  {
  }

  lemma {:induction false} WakeAllCalls(k: Kernel, c: nat)
    requires c < |k.conds|
    ensures WakeAll(k, c).calls == k.calls
    decreases |k.conds[c].waiting|
  {
    if k.conds[c].waiting != [] {
      var w := Synch.CondSignal(k.conds[c]);
      WakeCalls(k.(conds := k.conds[c := w.obj]), w.woken);
      WakeAllCalls(WakeIfAny(k.(conds := k.conds[c := w.obj]), w.woken), c);
    }
  }

  lemma AcquireCalls(k: Kernel, p: nat, l: nat)
    requires Running(k, p) && l < |k.locks|
    ensures DoLockAcquire(k, p, l).calls ==
      k.calls[p := if k.locks[l].pid >= 0 && k.locks[l].pid != p then InLock(l) else NoCall]
  {
    hide Sleep;
    RunningFacts(k, p);
    SleepCalls(k.(locks := k.locks[l := Synch.LockAcquire(k.locks[l], p).obj]), p, InLock(l));
  }

  lemma ReleaseCalls(k: Kernel, p: nat, l: nat)
    requires l < |k.locks|
    ensures DoLockRelease(k, p, l).calls == k.calls
  {
    var w := Synch.LockRelease(k.locks[l]);
    WakeCalls(k.(locks := k.locks[l := w.obj]), w.woken);
  }

  lemma CondWaitCalls(k: Kernel, p: nat, c: nat)
    requires Running(k, p) && k.calls[p] == NoCall && c < |k.conds| && k.conds[c].inuse
    requires 0 <= k.conds[c].lock < |k.locks|
    ensures DoCondWait(k, p, c).calls == k.calls[p := if OwnsLockOf(k, c) then InCond(c) else NoCall]
  {
    hide Sleep, DoLockRelease;
    RunningFacts(k, p);
    var l: nat := k.conds[c].lock;
    if k.locks[l].pid == p {
      var k1 := k.(conds := k.conds[c := CondEnqueue(k.conds[c], p)]);
      var k2 := if k.locks[l].inuse then DoLockRelease(k1, p, l) else k1;
      ReleaseCalls(k1, p, l);
      if k.locks[l].inuse {
        LockReleaseOk(k, p, l);
        ReleaseIgnoresConds(k, p, l, k1.conds);
        RunningFacts(DoLockRelease(k, p, l), p);
      }
      SleepCalls(k2, p, InCond(c));
    } else {
      assert k.calls[p := NoCall] == k.calls;
    }
  }

  lemma ResumeCalls(k: Kernel, p: nat)
    requires Running(k, p) && k.calls[p] != NoCall
    ensures CallOk(k, p) && DoResume(k, p).calls == k.calls[p := CallAfter(k, Resume, p)]
  {
    RunningFacts(k, p);
    assert CallOk(k, p);
    if k.calls[p].InCond? && k.locks[k.conds[k.calls[p].cond].lock].inuse {
      AcquireCalls(k, p, k.conds[k.calls[p].cond].lock);
    }
  }

  lemma OwnCalls(k: Kernel, p: nat, e: Event)
    requires Running(k, p) && !IsFork(e) && Enabled(k, e)
    ensures DoOwn(k, p, e).calls == k.calls[p := CallAfter(k, e, p)]
  {
    hide AtTrapReturn, SemsOk, LocksOk, CallsOk, DoLockAcquire, DoLockRelease, DoCondWait, DoResume, WakeAll, Sleep,
         WakeIfAny, Schedule, FirstFree;
    RunningFacts(k, p);
    assert k.calls == k.calls[p := k.calls[p]];
    match e {
      case SemWait(h) =>
        if GoodSem(k, h) { SleepCalls(k.(sems := k.sems[h := Synch.SemWait(k.sems[h], p).obj]), p, InSem(h)); }
      case SemSignal(h) =>
        if GoodSem(k, h) {
          var w := Synch.SemSignal(k.sems[h]);
          WakeCalls(k.(sems := k.sems[h := w.obj]), w.woken);
        }
      case LockAcquire(h) => if GoodLock(k, h) { AcquireCalls(k, p, h); }
      case LockRelease(h) => if GoodLock(k, h) { ReleaseCalls(k, p, h); }
      case CondWait(h) => if GoodCond(k, h) { CondWaitCalls(k, p, h); }
      case CondSignal(h) =>
        if GoodCond(k, h) {
          assert CondsOk(k.procs.status, k.calls, k.conds, |k.locks|);
          var w := Synch.CondSignal(k.conds[h]);
          WakeCalls(k.(conds := k.conds[h := w.obj]), w.woken);
        }
      case CondBroadcast(h) => if GoodCond(k, h) { WakeAllCalls(k, h); }
      case Resume => ResumeCalls(k, p);
      case _ =>
    }
  }

  /** A step changes the call of the current process only. */
  lemma CallStep(k: Kernel, e: Event)
    requires KernelOk(k) && Enabled(k, e)
    ensures Do(k, e).calls ==
      if IsFork(e) then k.calls else k.calls[k.procs.current := CallAfter(k, e, k.procs.current)]
  {
    hide DoOwn, CallsOk, ObjectsOk, AtTrapReturn;
    if !IsFork(e) { OwnCalls(k, k.procs.current, e); }
  }
}
