/** Every transition of the kernel keeps `KernelOk`. */
module KernelInvariant {
  import opened Sequences
  import opened Synch
  import opened Processes
  import opened KernelState

  ghost predicate Running(k: Kernel, p: nat) {
    && !k.halted && KernelOk(k)
    && p == k.procs.current && p < |k.calls|
  }

  /** `p` is on no queue of a semaphore, lock or condition variable. */
  ghost predicate NotQueued(k: Kernel, p: nat) {
    && (forall s: nat :: s < |k.sems| ==> p !in k.sems[s].waiting)
    && (forall l: nat :: l < |k.locks| ==> p !in k.locks[l].waiting)
    && (forall c: nat :: c < |k.conds| ==> p !in k.conds[c].waiting)
  }

  lemma RunningFacts(k: Kernel, p: nat)
    requires Running(k, p)
    ensures k.procs.run != [] && k.procs.run[0] == p && p < |k.calls| == |k.procs.status|
    ensures k.procs.status[p] == Runnable && p !in k.procs.forking
    ensures p in k.procs.run && k.procs.zombie == []
    ensures NotQueued(k, p)
  {
    CurrentIsRunnable(k);
  }

  // ----- one process changes its status or call while it is on no queue -----

  lemma ObjectsKept(k: Kernel, k': Kernel, p: nat)
    requires ObjectsOk(k) && NotQueued(k, p) && p < |k.calls| == |k.procs.status|
    requires k'.sems == k.sems && k'.locks == k.locks && k'.conds == k.conds
    requires |k'.calls| == |k'.procs.status| == |k.calls|
    requires forall q :: 0 <= q < |k.calls| && q != p ==>
              k'.calls[q] == k.calls[q] && k'.procs.status[q] == k.procs.status[q]
    ensures ObjectsOk(k')
  {
    forall w, c | SleepersOf(k.procs.status, k.calls, w, c) && p !in w
      ensures SleepersOf(k'.procs.status, k'.calls, w, c)
    {
    }
  }

  lemma CallsKept(k: Kernel, k': Kernel, p: nat)
    requires CallsOk(k) && p < |k.calls|
    requires k'.sems == k.sems && k'.locks == k.locks && k'.conds == k.conds && k'.procs.forking == k.procs.forking
    requires |k'.calls| == |k'.procs.status| == |k.calls|
    requires forall q :: 0 <= q < |k.calls| && q != p ==>
              k'.calls[q] == k.calls[q] && k'.procs.status[q] == k.procs.status[q]
    requires CallOk(k', p)
    ensures CallsOk(k')
  {
    forall q: nat | q < |k.calls| ensures CallOk(k', q) {
      if q != p { assert CallOk(k, q); }
    }
  }

  // ----- going to sleep -----

  /** What `Sleep` does to the process queues of a state in which `p` is current. */
  lemma SleepEffect(k: Kernel, p: nat, call: Call)
    requires AtTrapReturn(k.procs) && |k.calls| == |k.procs.status| && p in k.procs.run && k.procs.run[0] == p
    requires !k.halted
    ensures p < |k.calls|
    ensures var t := Sleep(k, p, call);
      t.halted || (AtTrapReturn(t.procs)
                   && t == k.(procs := t.procs, calls := k.calls[p := call])
                   && t.procs.status == k.procs.status[p := Waiting] && t.procs.forking == k.procs.forking)
  {
    SuspendOk(k.procs, p);
    var k1 := k.(procs := Suspend(k.procs, p), calls := k.calls[p := call]);
    if k1.procs.run != [] {
      ScheduleOk(k1.procs, true);
    }
  }

  lemma PushSleeper(status: seq<Status>, calls: seq<Call>, w: seq<nat>, call: Call, p: nat)
    requires SleepersOf(status, calls, w, call) && p !in w
    requires p < |status| && p < |calls| && status[p] == Waiting && calls[p] == call
    ensures SleepersOf(status, calls, w + [p], call)
  {
    AppendDistinct(w, p);
  }

  /** After `p` has joined the queue of its call, the calls of the others are as they were. */
  lemma CallsAfterPush(k: Kernel, t: Kernel, p: nat)
    requires CallsOk(k) && p < |k.calls|
    requires |t.sems| == |k.sems| && |t.locks| == |k.locks| && |t.conds| == |k.conds|
    requires forall s: nat :: s < |k.sems| ==> forall q :: q in k.sems[s].waiting ==> q in t.sems[s].waiting
    requires forall l: nat :: l < |k.locks| ==> forall q :: q in k.locks[l].waiting ==> q in t.locks[l].waiting
    requires forall c: nat :: c < |k.conds| ==> forall q :: q in k.conds[c].waiting ==> q in t.conds[c].waiting
    requires forall c: nat :: c < |k.conds| ==> t.conds[c].inuse == k.conds[c].inuse
    requires forall l: nat :: l < |k.locks| ==> t.locks[l].inuse == k.locks[l].inuse && t.locks[l].pid == k.locks[l].pid
    requires t.procs.forking == k.procs.forking
    requires |t.calls| == |t.procs.status| == |k.calls|
    requires forall q :: 0 <= q < |k.calls| && q != p ==>
              t.calls[q] == k.calls[q] && t.procs.status[q] == k.procs.status[q]
    requires CallOk(t, p)
    ensures CallsOk(t)
  {
    forall q: nat | q < |k.calls| ensures CallOk(t, q) {
      if q != p { assert CallOk(k, q); }
    }
  }

  lemma SemWaitOk(k: Kernel, p: nat, s: nat)
    requires Running(k, p) && k.calls[p] == NoCall && s < |k.sems| && k.sems[s].inuse
    ensures KernelOk(DoSemWait(k, p, s))
  {
    hide AtTrapReturn, Sleep;
    RunningFacts(k, p);
    var w := Synch.SemWait(k.sems[s], p);
    var k1 := k.(sems := k.sems[s := w.obj]);
    if w.sleeps {
      SleepEffect(k1, p, InSem(s));
      var t := Sleep(k1, p, InSem(s));
      if !t.halted {
        ObjectsKept(k, t.(sems := k.sems), p);
        PushSleeper(t.procs.status, t.calls, k.sems[s].waiting, InSem(s), p);
        CallsAfterPush(k, t, p);
      }
    } else {
      CallsAfterPush(k, k1, p);
    }
  }

  lemma LockAcquireOk(k: Kernel, p: nat, l: nat)
    requires Running(k, p) && l < |k.locks| && k.locks[l].inuse
    ensures KernelOk(DoLockAcquire(k, p, l))
  {
    hide AtTrapReturn, Sleep;
    RunningFacts(k, p);
    var w := Synch.LockAcquire(k.locks[l], p);
    var k1 := k.(locks := k.locks[l := w.obj]);
    if w.sleeps {
      SleepEffect(k1, p, InLock(l));
      var t := Sleep(k1, p, InLock(l));
      if !t.halted {
        ObjectsKept(k, t.(locks := k.locks), p);
        PushSleeper(t.procs.status, t.calls, k.locks[l].waiting, InLock(l), p);
        CallsAfterPush(k, t, p);
      }
    } else {
      var t := k1.(calls := k.calls[p := NoCall]);
      ObjectsKept(k, t.(locks := k.locks), p);
      forall q: nat | q < |k.calls| ensures CallOk(t, q) {
        if q != p { assert CallOk(k, q); }
      }
    }
  }

  // ----- waking the first sleeper of a queue -----

  /** What waking `x` does to the process queues. */
  lemma WakeEffect(k: Kernel, x: nat)
    requires AtTrapReturn(k.procs) && k.procs.run != [] && x < |k.procs.status| && k.procs.status[x] == Waiting
    ensures var t := WakeIfAny(k, Some(x));
      && AtTrapReturn(t.procs) && t == k.(procs := t.procs)
      && t.procs.status == k.procs.status[x := Runnable] && t.procs.forking == k.procs.forking
      && t.procs.run != [] && t.procs.current == k.procs.current
  {
    WakeupOk(k.procs, x);
  }

  lemma PopSleeper(status: seq<Status>, calls: seq<Call>, w: seq<nat>, call: Call)
    requires SleepersOf(status, calls, w, call) && w != []
    ensures SleepersOf(status, calls, w[1..], call) && w[0] !in w[1..]
    ensures w[0] < |status| && w[0] < |calls| && status[w[0]] == Waiting && calls[w[0]] == call
  {
    HeadAndTail(w);
    assert w[0] in w;
  }

  /** After `x` has left the queue of its call and has been woken, nothing is left of it on any
      queue, and the calls of the others are as they were. */
  lemma CallsAfterPop(k: Kernel, t: Kernel, x: nat)
    requires CallsOk(k) && x < |k.calls| && t.calls == k.calls
    requires |t.sems| == |k.sems| && |t.locks| == |k.locks| && |t.conds| == |k.conds|
    requires forall s: nat :: s < |k.sems| ==> forall q :: q in k.sems[s].waiting && q != x ==> q in t.sems[s].waiting
    requires forall l: nat :: l < |k.locks| ==> forall q :: q in k.locks[l].waiting && q != x ==>
              q in t.locks[l].waiting
    requires forall c: nat :: c < |k.conds| ==> forall q :: q in k.conds[c].waiting && q != x ==>
              q in t.conds[c].waiting
    requires forall c: nat :: c < |k.conds| ==> t.conds[c].inuse == k.conds[c].inuse
    requires forall l: nat, q: nat :: l < |k.locks| && q < |k.calls| && q != x && k.calls[q] == InLock(l) && k.procs.status[q] == Runnable ==>
               t.locks[l].inuse == k.locks[l].inuse && t.locks[l].pid == k.locks[l].pid
    requires t.procs.forking == k.procs.forking && t.procs.status == k.procs.status[x := Runnable]
    requires k.procs.status[x] == Waiting
    requires k.calls[x].InLock? ==> k.calls[x].lock < |t.locks| && t.locks[k.calls[x].lock].inuse && t.locks[k.calls[x].lock].pid == x
    ensures CallsOk(t)
  {
    forall q: nat | q < |k.calls| ensures CallOk(t, q) {
      assert CallOk(k, q);
    }
  }

  lemma SemSignalOk(k: Kernel, p: nat, s: nat)
    requires Running(k, p) && s < |k.sems| && k.sems[s].inuse
    ensures KernelOk(DoSemSignal(k, s)) && Running(DoSemSignal(k, s), p)
  {
    hide AtTrapReturn, WakeIfAny;
    RunningFacts(k, p);
    var w := Synch.SemSignal(k.sems[s]);
    var k1 := k.(sems := k.sems[s := w.obj]);
    if w.woken.Some? {
      PopSleeper(k.procs.status, k.calls, k.sems[s].waiting, InSem(s));
      HeadAndTail(k.sems[s].waiting);
      var x := w.woken.value;
      WakeEffect(k1, x);
      ObjectsKept(k1, WakeIfAny(k1, w.woken), x);
      CallsAfterPop(k, WakeIfAny(k1, w.woken), x);
    } else {
      NobodyToWake(k1);
      assert CallOk(k, p);
      CallsAfterPush(k, k1, p);
    }
  }

  lemma NobodyToWake(k: Kernel)
    ensures WakeIfAny(k, None) == k
  {
  }

  lemma LockReleaseOk(k: Kernel, p: nat, l: nat)
    requires Running(k, p) && k.calls[p] == NoCall && l < |k.locks| && k.locks[l].inuse
    ensures var t := DoLockRelease(k, p, l);
      KernelOk(t) && Running(t, p) && t.calls == k.calls && t.conds == k.conds && t.sems == k.sems && |t.locks| == |k.locks|
  {
    hide AtTrapReturn, WakeIfAny;
    RunningFacts(k, p);
    var w := Synch.LockRelease(k.locks[l]);
    var k1 := k.(locks := k.locks[l := w.obj]);
    if k.locks[l].pid == p {
      if w.woken.Some? {
        PopSleeper(k.procs.status, k.calls, k.locks[l].waiting, InLock(l));
        HeadAndTail(k.locks[l].waiting);
        var x := w.woken.value;
        WakeEffect(k1, x);
        ObjectsKept(k1, WakeIfAny(k1, w.woken), x);
        forall q: nat | q < |k.calls| && k.calls[q] == InLock(l)
          ensures k.procs.status[q] != Runnable
        {
          assert CallOk(k, q);
        }
        CallsAfterPop(k, WakeIfAny(k1, w.woken), x);
      } else {
        NobodyToWake(k1);
        forall q: nat | q < |k.calls| ensures CallOk(k1, q) {
          assert CallOk(k, q);
        }
      }
    }
  }

  lemma WakeOneOk(k: Kernel, p: nat, c: nat)
    requires Running(k, p) && c < |k.conds| && k.conds[c].waiting != []
    ensures var w := Synch.CondSignal(k.conds[c]);
      var t := WakeIfAny(k.(conds := k.conds[c := w.obj]), w.woken);
      KernelOk(t) && Running(t, p) && t.locks == k.locks
  {
    hide AtTrapReturn, WakeIfAny;
    RunningFacts(k, p);
    var w := Synch.CondSignal(k.conds[c]);
    var k1 := k.(conds := k.conds[c := w.obj]);
    PopSleeper(k.procs.status, k.calls, k.conds[c].waiting, InCond(c));
    HeadAndTail(k.conds[c].waiting);
    var x := w.woken.value;
    WakeEffect(k1, x);
    ObjectsKept(k1, WakeIfAny(k1, w.woken), x);
    CallsAfterPop(k, WakeIfAny(k1, w.woken), x);
  }

  lemma CondSignalOk(k: Kernel, p: nat, c: nat)
    requires Running(k, p) && c < |k.conds| && 0 <= k.conds[c].lock < |k.locks|
    ensures KernelOk(DoCondSignal(k, p, c))
  {
    if k.conds[c].waiting != [] {
      WakeOneOk(k, p, c);
    } else {
      assert k.(conds := k.conds[c := k.conds[c]]) == k;
    }
  }

  lemma {:induction false} WakeAllOk(k: Kernel, p: nat, c: nat)
    requires Running(k, p) && c < |k.conds|
    ensures KernelOk(WakeAll(k, c))
    decreases |k.conds[c].waiting|
  {
    if k.conds[c].waiting != [] {
      WakeOneOk(k, p, c);
      var w := Synch.CondSignal(k.conds[c]);
      WakeAllOk(WakeIfAny(k.(conds := k.conds[c := w.obj]), w.woken), p, c);
    }
  }

  // ----- cond_wait -----

  lemma ReleaseIgnoresConds(k: Kernel, p: nat, l: nat, conds: seq<Cond>)
    requires l < |k.locks|
    ensures DoLockRelease(k.(conds := conds), p, l) == DoLockRelease(k, p, l).(conds := conds)
  {
  }

  lemma CondWaitOk(k: Kernel, p: nat, c: nat)
    requires Running(k, p) && k.calls[p] == NoCall && c < |k.conds| && k.conds[c].inuse
    requires 0 <= k.conds[c].lock < |k.locks|
    ensures KernelOk(DoCondWait(k, p, c))
  {
    hide AtTrapReturn, Sleep, DoLockRelease;
    RunningFacts(k, p);
    var l: nat := k.conds[c].lock;
    if k.locks[l].pid == p {
      var conds := k.conds[c := CondEnqueue(k.conds[c], p)];
      var k0 := if k.locks[l].inuse then DoLockRelease(k, p, l) else k;
      if k.locks[l].inuse {
        LockReleaseOk(k, p, l);
        ReleaseIgnoresConds(k, p, l, conds);
      }
      RunningFacts(k0, p);
      SleepEffect(k0.(conds := conds), p, InCond(c));
      var t := Sleep(k0.(conds := conds), p, InCond(c));
      if !t.halted {
        ObjectsKept(k0, t.(conds := k0.conds), p);
        PushSleeper(t.procs.status, t.calls, k.conds[c].waiting, InCond(c), p);
        CallsAfterPush(k0, t, p);
      }
    }
  }

  lemma ResumeOk(k: Kernel, p: nat)
    requires Running(k, p) && k.calls[p] != NoCall
    ensures CallOk(k, p) && KernelOk(DoResume(k, p))
  {
    RunningFacts(k, p);
    assert CallOk(k, p);
    if k.calls[p].InCond? && k.locks[k.conds[k.calls[p].cond].lock].inuse {
      LockAcquireOk(k, p, k.conds[k.calls[p].cond].lock);
    } else {
      var t := k.(calls := k.calls[p := NoCall]);
      ObjectsKept(k, t, p);
      CallsKept(k, t, p);
    }
  }

  // ----- timer, exit, forks, creation -----

  lemma TimerOk(k: Kernel, p: nat)
    requires Running(k, p)
    ensures KernelOk(Reschedule(k, false))
  {
    RunningFacts(k, p);
    ScheduleOk(k.procs, false);
    var t := Reschedule(k, false);
    ObjectsKept(k, t, p);
    assert CallOk(k, p);
    CallsKept(k, t, p);
  }

  lemma ExitOk(k: Kernel, p: nat)
    requires Running(k, p) && k.calls[p] == NoCall
    ensures KernelOk(Reschedule(k.(procs := Destroy(k.procs, p)), false))
  {
    RunningFacts(k, p);
    DestroyOk(k.procs, p);
    var k1 := k.(procs := Destroy(k.procs, p));
    if k1.procs.run != [] {
      ScheduleOk(k1.procs, false);
      var t := Reschedule(k1, false);
      assert k1.procs.zombie == [p];
      assert t.procs.status[p] != Waiting by { assert p !in t.procs.wait; }
      ObjectsKept(k, t, p);
      CallsKept(k, t, p);
    }
  }

  /** A PCB that is free or being forked is inside no call and on no queue. */
  lemma IdlePcb(k: Kernel, p: nat)
    requires KernelOk(k) && !k.halted && p < |k.calls| && (k.procs.status[p] == Free || p in k.procs.forking)
    ensures k.calls[p] == NoCall && NotQueued(k, p)
  {
    assert CallOk(k, p);
    if p in k.procs.forking { assert k.procs.status[p] == Runnable; }
  }

  lemma ForkOk(k: Kernel, e: Event)
    requires KernelOk(k) && Enabled(k, e) && IsFork(e)
    ensures KernelOk(Do(k, e))
  {
    var t := Do(k, e);
    match e {
      case ForkBegin =>
        if k.procs.free != [] {
          assert k.procs.free[0] in k.procs.free;
          ForkBeginOk(k.procs);
          IdlePcb(k, k.procs.free[0]);
          ObjectsKept(k, t, k.procs.free[0]);
          forall q: nat | q < |k.calls| ensures CallOk(t, q) { assert CallOk(k, q); }
        }
      case ForkFinish(p) =>
        ForkFinishOk(k.procs, p);
        IdlePcb(k, p);
        forall q: nat | q < |k.calls| ensures CallOk(t, q) { assert CallOk(k, q); }
      case ForkFail(p) =>
        ForkFailOk(k.procs, p);
        IdlePcb(k, p);
        ObjectsKept(k, t, p);
        forall q: nat | q < |k.calls| ensures CallOk(t, q) { assert CallOk(k, q); }
    }
  }

  lemma CreateOk(k: Kernel, e: Event)
    requires KernelOk(k) && Enabled(k, e) && (e.SemCreate? || e.LockCreate? || e.CondCreate?)
    ensures KernelOk(Do(k, e))
  {
    hide AtTrapReturn, SleepersOf;
    var t := Do(k, e);
    forall w: seq<nat>, c: Call | w == []
      ensures SleepersOf(k.procs.status, k.calls, w, c)
    {
      NobodySleeps(k.procs.status, k.calls, c);
    }
    forall q: nat | q < |k.calls| ensures CallOk(t, q) {
      assert CallOk(k, q);
    }
  }

  lemma NobodySleeps(status: seq<Status>, calls: seq<Call>, c: Call)
    ensures SleepersOf(status, calls, [], c)
  {
  }

  /** Every transition keeps the invariant. */
  lemma DoOk(k: Kernel, e: Event)
    requires KernelOk(k) && Enabled(k, e)
    ensures KernelOk(Do(k, e))
  {
    if IsFork(e) {
      ForkOk(k, e);
    } else if e.SemCreate? || e.LockCreate? || e.CondCreate? {
      CreateOk(k, e);
    } else {
      var p: nat := k.procs.current;
      assert CallOk(k, p);
      match e {
        case Timer => TimerOk(k, p);
        case Exit => ExitOk(k, p);
        case SemWait(h) => if GoodSem(k, h) { SemWaitOk(k, p, h); }
        case SemSignal(h) => if GoodSem(k, h) { SemSignalOk(k, p, h); }
        case LockAcquire(h) => if GoodLock(k, h) { LockAcquireOk(k, p, h); }
        case LockRelease(h) => if GoodLock(k, h) { LockReleaseOk(k, p, h); }
        case CondWait(h) => if GoodCond(k, h) { CondWaitOk(k, p, h); }
        case CondSignal(h) => if GoodCond(k, h) { CondSignalOk(k, p, h); }
        case CondBroadcast(h) => if GoodCond(k, h) { WakeAllOk(k, p, h); }
        case _ => ResumeOk(k, p);
      }
    }
  }

  lemma BootOk(nProcs: nat, nSems: nat, nLocks: nat, nConds: nat)
    ensures KernelOk(Boot(nProcs, nSems, nLocks, nConds))
  {
    var k := Boot(nProcs, nSems, nLocks, nConds);
    forall p: nat ensures p in k.procs.free <==> p < nProcs {
      if p < nProcs { assert k.procs.free[nProcs - 1 - p] == p; }
    }
    forall q: nat | q < |k.calls| ensures CallOk(k, q) { }
    assert ObjectsOk(k);
  }
}
