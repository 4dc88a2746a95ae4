/** What the kernel promises about its semaphores, locks and condition variables, for every run. */
module KernelSync {
  import opened Sequences
  import opened Synch
  import opened Processes
  import opened KernelState
  import opened KernelInvariant
  import opened KernelRuns
  import opened KernelObjects

  // ----- semaphores: accounting -----

  /** How many of the first `n` events signal semaphore `s`. */
  function Signals(evs: seq<Event>, s: nat, n: nat): nat
    requires n <= |evs|
  {
    if n == 0 then 0 else Signals(evs, s, n - 1) + Count(evs[n - 1] == Event.SemSignal(s))
  }

  /** The event lets a wait through: one that need not sleep, or that of the first sleeper. */
  predicate Grants(k: Kernel, e: Event, s: nat)
    requires s < |k.sems|
  {
    || (k.procs.current >= 0 && e == Event.SemWait(s) && k.sems[s].count > 0)
    || (e == Event.SemSignal(s) && k.sems[s].count >= 0 && k.sems[s].waiting != [])
  }

  ghost function Granted(run: seq<Kernel>, evs: seq<Event>, s: nat, n: nat): nat
    requires |run| == |evs| + 1 && n <= |evs|
  {
    if n == 0 then 0
    else Granted(run, evs, s, n - 1) + Count(s < |run[n - 1].sems| && Grants(run[n - 1], evs[n - 1], s))
  }

  /** The books of a semaphore balance in every run, from any initial count: what is left is
      what it started with, plus the signals, minus the granted waits; a wait is granted only
      on credit, and somebody sleeps only while there is none.  So a semaphore that starts at
      -(k-1) grants its first wait after k signals at the earliest. */
  lemma {:induction false} SemaphoreAccounts(run: seq<Kernel>, evs: seq<Event>, s: nat, n: nat)
    requires Follows(run, evs) && KernelOk(run[0]) && n < |run|
    requires !run[0].halted && GoodSem(run[0], s)
    ensures GoodSem(run[n], s)
    ensures run[n].sems[s].count == run[0].sems[s].count + Signals(evs, s, n) - Granted(run, evs, s, n)
    ensures Granted(run, evs, s, n) > 0 ==> Granted(run, evs, s, n) <= run[0].sems[s].count + Signals(evs, s, n)
    ensures run[n].sems[s].waiting != [] ==> run[n].sems[s].count <= 0
  {
    hide Do, AtTrapReturn, CallsOk;
    if n > 0 {
      SemaphoreAccounts(run, evs, s, n - 1);
      RunOk(run, evs, n - 1);
      StepEffect(run[n - 1], evs[n - 1]);
    }
  }

  // ----- queues: first in, first out -----

  datatype Object = ASem(index: nat) | ALock(index: nat) | ACond(index: nat)

  /** The object exists and is in use. */
  predicate InUse(k: Kernel, o: Object) {
    match o
    case ASem(i) => GoodSem(k, i)
    case ALock(i) => GoodLock(k, i)
    case ACond(i) => GoodCond(k, i)
  }

  function Sleepers(k: Kernel, o: Object): seq<nat>
    requires InUse(k, o)
  {
    match o
    case ASem(i) => k.sems[i].waiting
    case ALock(i) => k.locks[i].waiting
    case ACond(i) => k.conds[i].waiting
  }

  /** A queue of sleepers loses some at its front, or gains one at its end. */
  ghost predicate QueueStep(w: seq<nat>, w': seq<nat>) {
    || (|w'| <= |w| && w' == w[|w| - |w'|..])
    || (|w'| == |w| + 1 && w' == w + [w'[|w|]])
  }

  /** How many sleepers a step takes from the front. */
  function Gone(w: seq<nat>, w': seq<nat>): nat { if |w'| < |w| then |w| - |w'| else 0 }

  lemma StillThere(w: seq<nat>, w': seq<nat>, j: nat)
    requires QueueStep(w, w') && j < |w| && Gone(w, w') <= j
    ensures j - Gone(w, w') < |w'| && w'[j - Gone(w, w')] == w[j]
  {
  }

  lemma SemSleepers(k: Kernel, e: Event, i: nat)
    requires KernelOk(k) && Enabled(k, e) && GoodSem(k, i)
    ensures GoodSem(Do(k, e), i) && QueueStep(k.sems[i].waiting, Do(k, e).sems[i].waiting)
  {
    hide KernelOk, Do, Enabled;
    StepEffect(k, e);
  }

  lemma LockSleepers(k: Kernel, e: Event, i: nat)
    requires KernelOk(k) && Enabled(k, e) && GoodLock(k, i)
    ensures GoodLock(Do(k, e), i)
    ensures var w, w' := k.locks[i].waiting, Do(k, e).locks[i].waiting;
      QueueStep(w, w') && (|w'| < |w| ==> |w'| == |w| - 1 && Do(k, e).locks[i].pid == w[0])
  {
    hide KernelOk, Do, Enabled;
    StepEffect(k, e);
  }

  lemma CondSleepers(k: Kernel, e: Event, i: nat)
    requires KernelOk(k) && Enabled(k, e) && GoodCond(k, i)
    ensures GoodCond(Do(k, e), i) && QueueStep(k.conds[i].waiting, Do(k, e).conds[i].waiting)
  {
    hide KernelOk, Do, Enabled;
    StepEffect(k, e);
  }

  /** One step on the queue of one object. */
  lemma SleepersStep(k: Kernel, e: Event, o: Object)
    requires KernelOk(k) && Enabled(k, e) && InUse(k, o)
    ensures InUse(Do(k, e), o) && QueueStep(Sleepers(k, o), Sleepers(Do(k, e), o))
    ensures o.ALock? && |Sleepers(Do(k, e), o)| < |Sleepers(k, o)| ==>
              && |Sleepers(Do(k, e), o)| == |Sleepers(k, o)| - 1
              && Do(k, e).locks[o.index].pid == Sleepers(k, o)[0]
  {
    hide KernelOk, Do, Enabled, QueueStep;
    match o {
      case ASem(i) => SemSleepers(k, e, i);
      case ALock(i) => LockSleepers(k, e, i);
      case ACond(i) => CondSleepers(k, e, i);
    }
  }

  /** How many sleepers have left the queue of `o` from state `n` to state `m`. */
  ghost function Left(run: seq<Kernel>, o: Object, n: nat, m: nat): nat
    requires n <= m < |run|
  {
    if n == m then 0
    else if !InUse(run[m - 1], o) || !InUse(run[m], o) then Left(run, o, n, m - 1)
    else Left(run, o, n, m - 1) + Gone(Sleepers(run[m - 1], o), Sleepers(run[m], o))
  }

  /** Nobody overtakes: the sleeper at index `i` of a queue has moved up by as many places as
      sleepers have left, until it leaves itself. */
  lemma {:induction false} FirstInFirstOut(run: seq<Kernel>, evs: seq<Event>, o: Object, n: nat, m: nat, i: nat)
    requires Follows(run, evs) && KernelOk(run[0]) && n <= m < |run|
    requires InUse(run[n], o) && i < |Sleepers(run[n], o)| && Left(run, o, n, m) <= i
    ensures InUse(run[m], o)
    ensures var s := Left(run, o, n, m);
      i - s < |Sleepers(run[m], o)| && Sleepers(run[m], o)[i - s] == Sleepers(run[n], o)[i]
  {
    hide KernelOk, Do, Enabled, QueueStep, Sleepers, InUse, Gone;
    if n < m {
      FirstInFirstOut(run, evs, o, n, m - 1, i);
      RunOk(run, evs, m - 1);
      SleepersStep(run[m - 1], evs[m - 1], o);
      StillThere(Sleepers(run[m - 1], o), Sleepers(run[m], o), i - Left(run, o, n, m - 1));
    }
  }

  /** A sleeper that leaves a queue is awake. */
  lemma LeavingMeansAwake(k: Kernel, e: Event, o: Object, q: nat)
    requires KernelOk(k) && Enabled(k, e) && InUse(k, o) && !Do(k, e).halted
    requires InUse(Do(k, e), o) && q in Sleepers(k, o) && q !in Sleepers(Do(k, e), o)
    ensures q < |Do(k, e).procs.status| && Do(k, e).procs.status[q] == Runnable
  {
    hide DoOwn, AtTrapReturn;
    var t := Do(k, e);
    SleeperFacts(k, o, q);
    DoOk(k, e);
    CallStep(k, e);
    assert CallOk(t, q);
  }

  function CallFor(o: Object): Call {
    match o
    case ASem(i) => InSem(i)
    case ALock(i) => InLock(i)
    case ACond(i) => InCond(i)
  }

  lemma SleeperFacts(k: Kernel, o: Object, q: nat)
    requires KernelOk(k) && !k.halted && InUse(k, o) && q in Sleepers(k, o)
    ensures q < |k.calls| == |k.procs.status| && k.calls[q] == CallFor(o) && k.procs.status[q] == Waiting
    ensures q != k.procs.current
  {
    if k.procs.current >= 0 { CurrentIsRunnable(k); }
  }

  /** The sleeper at index `i` is woken exactly when the (i+1)-th sleeper leaves; if it sleeps on a
      lock, it then owns that lock, after exactly `i + 1` releases that handed the lock over. */
  lemma WokenInTurn(run: seq<Kernel>, evs: seq<Event>, o: Object, n: nat, m: nat, i: nat)
    requires Follows(run, evs) && KernelOk(run[0]) && n <= m < |run| - 1 && !run[m + 1].halted
    requires InUse(run[n], o) && i < |Sleepers(run[n], o)|
    requires Left(run, o, n, m) <= i < Left(run, o, n, m + 1)
    ensures var q := Sleepers(run[n], o)[i];
      && q < |run[m].procs.status| && run[m].procs.status[q] == Waiting
      && q < |run[m + 1].procs.status| && run[m + 1].procs.status[q] == Runnable
      && (o.ALock? ==> Left(run, o, n, m + 1) == i + 1 && run[m + 1].locks[o.index].pid == q)
  {
    hide Do, AtTrapReturn, CallsOk;
    var k, t, q, s := run[m], run[m + 1], Sleepers(run[n], o)[i], Left(run, o, n, m);
    FirstInFirstOut(run, evs, o, n, m, i);
    RunOk(run, evs, m);
    RunOk(run, evs, m + 1);
    SleepersStep(k, evs[m], o);
    var w, w' := Sleepers(k, o), Sleepers(t, o);
    assert w[i - s] == q && i - s < |w| - |w'|;
    SleepersAreDistinct(k, o);
    forall j | 0 <= j < |w'| ensures w'[j] != q { assert w[|w| - |w'| + j] == w'[j]; }
    SleeperFacts(k, o, q);
    LeavingMeansAwake(k, evs[m], o, q);
  }

  lemma SleepersAreDistinct(k: Kernel, o: Object)
    requires KernelOk(k) && !k.halted && InUse(k, o)
    ensures Distinct(Sleepers(k, o))
  {
  }

  /** A step that takes exactly the first sleeper from a queue wakes it. */
  lemma FirstIsWoken(k: Kernel, e: Event, o: Object)
    requires KernelOk(k) && Enabled(k, e) && InUse(k, o) && Sleepers(k, o) != [] && !Do(k, e).halted
    requires InUse(Do(k, e), o) && Sleepers(Do(k, e), o) == Sleepers(k, o)[1..]
    ensures var q := Sleepers(k, o)[0];
      q < |Do(k, e).procs.status| && Do(k, e).procs.status[q] == Runnable
  {
    hide Do, AtTrapReturn, CallsOk;
    SleepersAreDistinct(k, o);
    HeadAndTail(Sleepers(k, o));
    LeavingMeansAwake(k, e, o, Sleepers(k, o)[0]);
  }

  // ----- a sleeper's turn, counted in the calls of the others -----

  /** The owner of lock `l` gives it back in this step. */
  predicate GivesBack(k: Kernel, e: Event, l: nat) { k.procs.current >= 0 && Releases(k, e, l, k.procs.current) }

  /** How often lock `l` is given back between states `n` and `m`. */
  ghost function ReleasesOf(run: seq<Kernel>, evs: seq<Event>, l: nat, n: nat, m: nat): nat
    requires |run| == |evs| + 1 && n <= m < |run|
  {
    if n == m then 0 else ReleasesOf(run, evs, l, n, m - 1) + Count(GivesBack(run[m - 1], evs[m - 1], l))
  }

  lemma LockQueueStep(k: Kernel, e: Event, l: nat)
    requires KernelOk(k) && Enabled(k, e) && GoodLock(k, l) && k.locks[l].waiting != []
    ensures GoodLock(Do(k, e), l)
    ensures var w, t := k.locks[l].waiting, Do(k, e).locks[l];
      if GivesBack(k, e, l) then t.waiting == w[1..] && t.pid == w[0] else Extends(w, t.waiting)
  {
    hide KernelOk, Do, Enabled;
    StepEffect(k, e);
  }

  /** The waiter at index `i` moves up by one place at every release, and at nothing else. */
  lemma {:induction false} LockInTurn(run: seq<Kernel>, evs: seq<Event>, l: nat, n: nat, m: nat, i: nat)
    requires Follows(run, evs) && KernelOk(run[0]) && n <= m < |run|
    requires GoodLock(run[n], l) && i < |run[n].locks[l].waiting| && ReleasesOf(run, evs, l, n, m) <= i
    ensures GoodLock(run[m], l)
    ensures var r := ReleasesOf(run, evs, l, n, m);
      i - r < |run[m].locks[l].waiting| && run[m].locks[l].waiting[i - r] == run[n].locks[l].waiting[i]
  {
    hide KernelOk, Do, Enabled, GivesBack;
    if n < m {
      LockInTurn(run, evs, l, n, m - 1, i);
      RunOk(run, evs, m - 1);
      LockQueueStep(run[m - 1], evs[m - 1], l);
    }
  }

  /** The waiter at index `i` of a lock's queue gets the lock with the release number `i + 1`, and
      with none before: until then it sleeps and somebody else is the owner. */
  lemma OwnsAfterReleases(run: seq<Kernel>, evs: seq<Event>, l: nat, n: nat, m: nat, i: nat)
    requires Follows(run, evs) && KernelOk(run[0]) && n <= m < |evs| && !run[m + 1].halted
    requires GoodLock(run[n], l) && i < |run[n].locks[l].waiting| && ReleasesOf(run, evs, l, n, m) <= i
    ensures var q, t := run[n].locks[l].waiting[i], run[m + 1];
      && q < |run[m].procs.status| && run[m].procs.status[q] == Waiting
      && GoodLock(run[m], l) && run[m].locks[l].pid != q
      && q < |t.procs.status| && GoodLock(t, l)
      && (t.locks[l].pid == q <==> ReleasesOf(run, evs, l, n, m + 1) == i + 1)
      && (t.procs.status[q] == Runnable <==> ReleasesOf(run, evs, l, n, m + 1) == i + 1)
  {
    hide KernelOk, Do, Enabled, GivesBack;
    var k, t, q, r := run[m], run[m + 1], run[n].locks[l].waiting[i], ReleasesOf(run, evs, l, n, m);
    LockInTurn(run, evs, l, n, m, i);
    RunOk(run, evs, m);
    RunOk(run, evs, m + 1);
    StillRunning(run, evs, m);
    LockSleeper(k, l, i - r);
    LockQueueStep(k, evs[m], l);
    if GivesBack(k, evs[m], l) && r == i {
      FirstIsWoken(k, evs[m], ALock(l));
    } else {
      LockInTurn(run, evs, l, n, m + 1, i);
      LockSleeper(t, l, i - ReleasesOf(run, evs, l, n, m + 1));
    }
  }

  lemma StillRunning(run: seq<Kernel>, evs: seq<Event>, m: nat)
    requires Follows(run, evs) && KernelOk(run[0]) && m < |evs|
    ensures !run[m].halted
  {
    hide Do, KernelOk;
    RunOk(run, evs, m);
  }

  lemma LockSleeper(k: Kernel, l: nat, i: nat)
    requires KernelOk(k) && !k.halted && GoodLock(k, l) && i < |k.locks[l].waiting|
    ensures var q := k.locks[l].waiting[i];
      q < |k.procs.status| && k.procs.status[q] == Waiting && k.locks[l].pid != q
  {
    hide AtTrapReturn, CallsOk, SemsOk, CondsOk;
    assert k.locks[l].waiting[i] in k.locks[l].waiting;
  }

  /** The sleepers that `signals` signals wake when the count was `count`. */
  function Woken(count: int, signals: int): nat { if count + signals > 0 then count + signals else 0 }

  lemma SemQueueStep(k: Kernel, e: Event, s: nat)
    requires KernelOk(k) && Enabled(k, e) && GoodSem(k, s) && k.sems[s].waiting != []
    ensures GoodSem(Do(k, e), s)
    ensures k.sems[s].count <= 0
    ensures var w, c, t := k.sems[s].waiting, k.sems[s].count, Do(k, e).sems[s];
      if e != Event.SemSignal(s) then Extends(w, t.waiting) && t.count == c
      else if c < 0 then t.waiting == w && t.count == c + 1
      else t.waiting == w[1..] && t.count == c
  {
    hide AtTrapReturn, CallsOk, LocksOk, CondsOk, Do;
    StepEffect(k, e);
  }

  /** The sleeper at index `i` of a semaphore's queue moves up by one place at every signal, after
      those that pay off a negative count, and at nothing else. */
  lemma {:induction false} SemInTurn(run: seq<Kernel>, evs: seq<Event>, s: nat, n: nat, m: nat, i: nat)
    requires Follows(run, evs) && KernelOk(run[0]) && n <= m < |run| && !run[n].halted
    requires GoodSem(run[n], s) && i < |run[n].sems[s].waiting|
    requires Woken(run[n].sems[s].count, Signals(evs, s, m) - Signals(evs, s, n)) <= i
    ensures GoodSem(run[m], s)
    ensures var c, signals := run[n].sems[s].count, Signals(evs, s, m) - Signals(evs, s, n);
      && run[m].sems[s].count == (if c + signals <= 0 then c + signals else 0)
      && i - Woken(c, signals) < |run[m].sems[s].waiting|
      && run[m].sems[s].waiting[i - Woken(c, signals)] == run[n].sems[s].waiting[i]
  {
    hide Do, Enabled, AtTrapReturn, CallsOk, LocksOk, CondsOk;
    if n < m {
      RunOk(run, evs, m - 1);
      SemInTurn(run, evs, s, n, m - 1, i);
      SemQueueStep(run[m - 1], evs[m - 1], s);
    } else {
      RunOk(run, evs, n);
    }
  }

  /** The sleeper at index `i` is woken by signal number `i + 1 - count`, and by none before. */
  lemma AwakeAfterSignals(run: seq<Kernel>, evs: seq<Event>, s: nat, n: nat, m: nat, i: nat)
    requires Follows(run, evs) && KernelOk(run[0]) && n <= m < |evs| && !run[m + 1].halted && !run[n].halted
    requires GoodSem(run[n], s) && i < |run[n].sems[s].waiting|
    requires Signals(evs, s, m) - Signals(evs, s, n) <= i - run[n].sems[s].count
    ensures var q, t := run[n].sems[s].waiting[i], run[m + 1];
      && q < |run[m].procs.status| && run[m].procs.status[q] == Waiting
      && q < |t.procs.status|
      && (t.procs.status[q] == Runnable <==> Signals(evs, s, m + 1) - Signals(evs, s, n) == i + 1 - run[n].sems[s].count)
  {
    hide KernelOk, Do, Enabled;
    var k, t, q := run[m], run[m + 1], run[n].sems[s].waiting[i];
    var c, signals := run[n].sems[s].count, Signals(evs, s, m) - Signals(evs, s, n);
    RunOk(run, evs, n);
    NoCredit(run[n], s);
    SemInTurn(run, evs, s, n, m, i);
    RunOk(run, evs, m);
    RunOk(run, evs, m + 1);
    StillRunning(run, evs, m);
    SemSleeper(k, s, i - Woken(c, signals));
    SemQueueStep(k, evs[m], s);
    if evs[m] == Event.SemSignal(s) && c + signals == i {
      FirstIsWoken(k, evs[m], ASem(s));
    } else {
      SemInTurn(run, evs, s, n, m + 1, i);
      SemSleeper(t, s, i - Woken(c, Signals(evs, s, m + 1) - Signals(evs, s, n)));
    }
  }

  lemma NoCredit(k: Kernel, s: nat)
    requires KernelOk(k) && !k.halted && GoodSem(k, s) && k.sems[s].waiting != []
    ensures k.sems[s].count <= 0
  {
    hide AtTrapReturn, CallsOk, LocksOk, CondsOk;
  }

  lemma SemSleeper(k: Kernel, s: nat, i: nat)
    requires KernelOk(k) && !k.halted && GoodSem(k, s) && i < |k.sems[s].waiting|
    ensures var q := k.sems[s].waiting[i]; q < |k.procs.status| && k.procs.status[q] == Waiting
  {
    hide AtTrapReturn, CallsOk, LocksOk, CondsOk;
    assert k.sems[s].waiting[i] in k.sems[s].waiting;
  }

  // ----- locks: mutual exclusion -----

  /** The call by which the current process takes lock `l` returns to user code in this step. */
  predicate ReturnsHolding(k: Kernel, e: Event, t: Kernel, l: nat, p: nat) {
    && p == k.procs.current && p < |k.calls| && p < |t.calls| && t.calls[p] == NoCall
    && (Acquires(k, e, l, p) || (e == Resume && k.calls[p] == InLock(l)))
  }

  /** The processes that have returned from taking lock `l` and have neither given it back nor
      exited since, according to the history of the run. */
  ghost function Holders(run: seq<Kernel>, evs: seq<Event>, l: nat, n: nat): set<int>
    requires |run| == |evs| + 1 && n <= |evs|
  {
    if n == 0 then {}
    else
      var k, e, t, h := run[n - 1], evs[n - 1], run[n], Holders(run, evs, l, n - 1);
      var p := k.procs.current;
      if p < 0 then h
      else if e == Exit || Releases(k, e, l, p) then h - {p}
      else if ReturnsHolding(k, e, t, l, p) then h + {p}
      else h
  }

  lemma HolderIsOwner(k: Kernel, e: Event, l: nat)
    requires KernelOk(k) && Enabled(k, e) && GoodLock(k, l)
    ensures GoodLock(Do(k, e), l)
    ensures var t, p := Do(k, e), k.procs.current;
      && (p >= 0 && ReturnsHolding(k, e, t, l, p) ==> t.locks[l].pid == p)
      && (t.locks[l].pid == k.locks[l].pid || k.locks[l].pid == NO_OWNER || (p >= 0 && Releases(k, e, l, p)))
  {
    hide KernelOk, Do, Enabled;
    StepEffect(k, e);
    CallStep(k, e);
    if !IsFork(e) { InLockOwns(k, e, l); }
  }

  /** A process that runs on inside a lock_acquire has been handed the lock. */
  lemma InLockOwns(k: Kernel, e: Event, l: nat)
    requires KernelOk(k) && Enabled(k, e) && !IsFork(e)
    ensures 0 <= k.procs.current < |k.calls|
    ensures k.calls[k.procs.current] == InLock(l) ==> GoodLock(k, l) && k.locks[l].pid == k.procs.current
    ensures GoodLock(k, l) ==> k.locks[l].pid >= NO_OWNER
  {
    CurrentIsRunnable(k);
    assert CallOk(k, k.procs.current);
  }

  /** Mutual exclusion, in every run: whoever is between taking a lock and giving it back is its
      owner, so there is at most one such process. */
  lemma {:induction false} MutualExclusion(run: seq<Kernel>, evs: seq<Event>, l: nat, n: nat)
    requires Follows(run, evs) && KernelOk(run[0]) && n < |run| && GoodLock(run[0], l)
    ensures GoodLock(run[n], l)
    ensures Holders(run, evs, l, n) <= {run[n].locks[l].pid}
    ensures NO_OWNER !in Holders(run, evs, l, n)
  {
    hide KernelOk, Do, Enabled;
    if n > 0 {
      MutualExclusion(run, evs, l, n - 1);
      RunOk(run, evs, n - 1);
      HolderIsOwner(run[n - 1], evs[n - 1], l);
    }
  }

  /** In every run, nobody waits for a free lock, and no owner waits for its own lock. */
  lemma LockQueuesAreSound(run: seq<Kernel>, evs: seq<Event>, l: nat, n: nat)
    requires Follows(run, evs) && KernelOk(run[0]) && n < |run| && !run[n].halted && GoodLock(run[n], l)
    ensures var k := run[n].locks[l];
      && (k.pid == NO_OWNER ==> k.waiting == [])
      && (forall q :: q in k.waiting ==> q != k.pid && q < |run[n].procs.status| && run[n].procs.status[q] == Waiting)
  {
    RunOk(run, evs, n);
  }

  // ----- condition variables -----

  /** cond_wait by the owner of the lock: in one step it joins the queue, gives the lock back to
      the first waiter, and sleeps.  No signal can come in between.  A lock that was never created
      is nobody's to give back: its owner field says 0, and stays. */
  lemma CondWaitIsAtomic(k: Kernel, c: nat)
    requires KernelOk(k) && Enabled(k, Event.CondWait(c)) && GoodCond(k, c)
    ensures k.procs.current >= 0 && 0 <= k.conds[c].lock < |k.locks|
    ensures var t, p, l := Do(k, Event.CondWait(c)), k.procs.current, k.conds[c].lock;
      && (k.locks[l].pid != p ==> t == Halt(k))
      && (k.locks[l].pid == p ==>
            && GoodCond(t, c) && t.conds[c].waiting == k.conds[c].waiting + [p]
            && (if k.locks[l].inuse then
                  GoodLock(t, l) && t.locks[l].pid != p && t.locks == k.locks[l := Synch.LockRelease(k.locks[l]).obj]
                else t.locks == k.locks)
            && p < |t.calls| && t.calls[p] == InCond(c)
            && (t.halted || (p < |t.procs.status| && t.procs.status[p] == Waiting)))
  {
    hide DoCondWait, AtTrapReturn, CallOk, SemsOk;
    var p, l := k.procs.current, k.conds[c].lock;
    var t := Do(k, Event.CondWait(c));
    RunningFacts(k, p);
    CondWaitObjects(k, p, c);
    if k.locks[l].pid == p {
      CallStep(k, Event.CondWait(c));
      DoOk(k, Event.CondWait(c));
      if !t.halted { SleeperFacts(t, ACond(c), p) by { assert t.conds[c].waiting[|k.conds[c].waiting|] == p; } }
    }
  }

  /** A signal by the owner of the lock wakes the first sleeper, a broadcast wakes them all; by
      anybody else they do nothing. */
  lemma SignalsWake(k: Kernel, e: Event, c: nat)
    requires KernelOk(k) && Enabled(k, e) && GoodCond(k, c) && (e == Event.CondSignal(c) || e == Event.CondBroadcast(c))
    ensures var t := Do(k, e);
      && GoodCond(t, c)
      && (!OwnsLockOf(k, c) ==> t == k)
      && (OwnsLockOf(k, c) ==>
            var woken := if e == Event.CondBroadcast(c) then |k.conds[c].waiting| else if k.conds[c].waiting == [] then 0 else 1;
            && t.conds[c].waiting == k.conds[c].waiting[woken..]
            && forall i :: 0 <= i < woken ==>
                 k.conds[c].waiting[i] < |t.procs.status| && t.procs.status[k.conds[c].waiting[i]] == Runnable)
  {
    hide WakeAll, WakeIfAny, AtTrapReturn, CallOk, SemsOk;
    var t, w := Do(k, e), k.conds[c].waiting;
    StepEffect(k, e);
    SleepersAreDistinct(k, ACond(c));
    if OwnsLockOf(k, c) {
      assert !t.halted by { WakingDoesNotHalt(k, e, c); }
      forall i | 0 <= i < |w| && w[i] !in t.conds[c].waiting
        ensures w[i] < |t.procs.status| && t.procs.status[w[i]] == Runnable
      {
        LeavingMeansAwake(k, e, ACond(c), w[i]);
      }
    }
  }

  lemma {:induction false} WakeAllDoesNotHalt(k: Kernel, c: nat)
    requires c < |k.conds|
    ensures WakeAll(k, c).halted == k.halted
    decreases |k.conds[c].waiting|
  {
    if k.conds[c].waiting != [] {
      var w := Synch.CondSignal(k.conds[c]);
      WakeAllDoesNotHalt(WakeIfAny(k.(conds := k.conds[c := w.obj]), w.woken), c);
    }
  }

  lemma WakingDoesNotHalt(k: Kernel, e: Event, c: nat)
    requires KernelOk(k) && Enabled(k, e) && GoodCond(k, c) && (e == Event.CondSignal(c) || e == Event.CondBroadcast(c))
    ensures !Do(k, e).halted
  {
    WakeAllDoesNotHalt(k, c);
  }

  /** The entry of a lock that was never created names PID 0 as its owner. */
  lemma NeverCreated(k: Kernel, l: nat)
    requires KernelOk(k) && !k.halted && l < |k.locks| && !k.locks[l].inuse
    ensures k.locks[l].pid == 0
  {
    hide AtTrapReturn, CallsOk, SemsOk, CondsOk;
  }

  lemma ResumeWithoutLock(k: Kernel, c: nat)
    requires KernelOk(k) && Enabled(k, Resume) && k.calls[k.procs.current] == InCond(c)
    ensures GoodCond(k, c) && 0 <= k.conds[c].lock < |k.locks|
    ensures !k.locks[k.conds[c].lock].inuse ==> Do(k, Resume).locks == k.locks && k.locks[k.conds[c].lock].pid == 0
  {
    hide AtTrapReturn, SemsOk, Sleep;
    ResumeObjects(k, k.procs.current);
  }

  lemma OwnedLock(k: Kernel, c: nat)
    requires KernelOk(k) && !k.halted && OwnsLockOf(k, c)
    ensures GoodLock(k, k.conds[c].lock) || k.procs.current == 0
  {
    hide KernelOk;
    if !k.locks[k.conds[c].lock].inuse { NeverCreated(k, k.conds[c].lock); }
  }

  /** From its cond_wait until that call returns, a process is inside it; and when it returns,
      whatever the others did in between, the process owns the lock again. */
  lemma {:induction false} CondWaitReturnsOwning(run: seq<Kernel>, evs: seq<Event>, n: nat, m: nat, c: nat)
    requires Follows(run, evs) && KernelOk(run[0]) && n < m < |run|
    requires evs[n] == Event.CondWait(c) && GoodCond(run[n], c) && OwnsLockOf(run[n], c)
    requires forall j :: n < j < m ==> 0 <= run[n].procs.current < |run[j].calls| && run[j].calls[run[n].procs.current] != NoCall
    ensures var p, l := run[n].procs.current, run[n].conds[c].lock;
      && 0 <= p < |run[m].calls|
      && GoodCond(run[m], c) && run[m].conds[c].lock == l && 0 <= l < |run[m].locks|
      && (GoodLock(run[m], l) || p == 0)
      && (GoodLock(run[n], l) ==> GoodLock(run[m], l))
      && (run[m].calls[p] == InCond(c) || run[m].calls[p] == InLock(l)
          || (run[m].calls[p] == NoCall && run[m].locks[l].pid == p))
  {
    hide KernelOk, Do, Enabled;
    var k, e, p, l := run[m - 1], evs[m - 1], run[n].procs.current, run[n].conds[c].lock;
    RunOk(run, evs, m - 1);
    StillRunning(run, evs, m - 1);
    StepEffect(k, e);
    CallStep(k, e);
    if m - 1 == n {
      CondWaitIsAtomic(k, c) by { assert Enabled(k, e); }
      OwnedLock(k, c);
    } else {
      CondWaitReturnsOwning(run, evs, n, m - 1, c);
      if !IsFork(e) {
        InLockOwns(k, e, l);
        if k.procs.current == p {
          InsideACall(k, e, p);
          if e == Resume && k.calls[p] == InCond(c) { ResumeWithoutLock(k, c); }
        }
      }
    }
  }

  /** A process inside a call can only run on inside it, or lose its time slice. */
  lemma InsideACall(k: Kernel, e: Event, p: nat)
    requires Enabled(k, e) && !IsFork(e) && k.procs.current == p && p < |k.calls| && k.calls[p] != NoCall
    ensures e == Resume || e == Timer
  {
  }

  // ----- when the kernel stops -----

  /** The current process goes to sleep in this step. */
  predicate GoesToSleep(k: Kernel, e: Event) {
    !IsFork(e) && 0 <= k.procs.current < |k.calls|
    && CallAfter(k, e, k.procs.current) != NoCall && CallAfter(k, e, k.procs.current) != k.calls[k.procs.current]
  }

  /** The step wakes another process before the current one goes to sleep. */
  predicate HandsOver(k: Kernel, e: Event) {
    e.CondWait? && e.cond >= 0 && OwnsLockOf(k, e.cond) && GoodLock(k, k.conds[e.cond].lock) && k.locks[k.conds[e.cond].lock].waiting != []
  }

  lemma SleepHalts(k: Kernel, p: nat, call: Call)
    requires AtTrapReturn(k.procs) && |k.calls| == |k.procs.status| && k.procs.run != [] && k.procs.run[0] == p
    requires !k.halted
    ensures p < |k.calls| && (Sleep(k, p, call).halted <==> |k.procs.run| == 1)
  {
    assert p in k.procs.run;
    WithoutIs(k.procs.run, p);
  }

  lemma AcquireHalts(k: Kernel, p: nat, l: nat)
    requires Running(k, p) && GoodLock(k, l)
    ensures DoLockAcquire(k, p, l).halted <==> NO_OWNER < k.locks[l].pid != p && |k.procs.run| == 1
  {
    hide Sleep;
    RunningFacts(k, p);
    assert k.locks[l].pid >= NO_OWNER by { InLockOwns(k, Timer, l); }
    SleepHalts(k.(locks := k.locks[l := Synch.LockAcquire(k.locks[l], p).obj]), p, InLock(l));
  }

  lemma CondWaitHalts(k: Kernel, p: nat, c: nat)
    requires Running(k, p) && k.calls[p] == NoCall && GoodCond(k, c) && 0 <= k.conds[c].lock < |k.locks|
    ensures DoCondWait(k, p, c).halted <==> !OwnsLockOf(k, c) || (|k.procs.run| == 1 && !HandsOver(k, Event.CondWait(c)))
  {
    hide Sleep, DoLockRelease;
    RunningFacts(k, p);
    var l: nat := k.conds[c].lock;
    if k.locks[l].pid == p {
      var conds := k.conds[c := CondEnqueue(k.conds[c], p)];
      var k0 := if k.locks[l].inuse then DoLockRelease(k, p, l) else k;
      if k.locks[l].inuse {
        LockReleaseOk(k, p, l);
        ReleaseIgnoresConds(k, p, l, conds);
        ReleaseWakes(k, p, l);
      }
      RunningFacts(k0, p);
      SleepHalts(k0.(conds := conds), p, InCond(c));
    }
  }

  lemma ReleaseWakes(k: Kernel, p: nat, l: nat)
    requires Running(k, p) && l < |k.locks| && k.locks[l].pid == p
    ensures |DoLockRelease(k, p, l).procs.run| == |k.procs.run| + if GoodLock(k, l) && k.locks[l].waiting != [] then 1 else 0
  {
    if k.locks[l].waiting != [] { assert k.locks[l].waiting[0] in k.locks[l].waiting; }
  }

  /** Calls that put nobody to sleep. */
  predicate Quiet(e: Event) {
    !IsFork(e) && !e.SemWait? && !e.LockAcquire? && !e.CondWait? && e != Resume && e != Exit
  }

  lemma QuietRunsOn(k: Kernel, e: Event)
    requires KernelOk(k) && Enabled(k, e) && Quiet(e)
    ensures !Do(k, e).halted && !GoesToSleep(k, e)
  {
    hide SleepersOf, WakeAll, SemsOk, LocksOk, ProcsOk, FirstFree, Wakeup, Schedule;
    CurrentIsRunnable(k);
    if e.CondBroadcast? && GoodCond(k, e.cond) { WakeAllDoesNotHalt(k, e.cond); }
  }

  lemma ResumeHalts(k: Kernel)
    requires KernelOk(k) && Enabled(k, Resume)
    ensures Do(k, Resume).halted <==> GoesToSleep(k, Resume) && |k.procs.run| == 1
  {
    hide DoLockAcquire, SleepersOf, SemsOk, LocksOk, ProcsOk;
    var p: nat := k.procs.current;
    RunningFacts(k, p);
    assert CallOk(k, p);
    if k.calls[p].InCond? && GoodLock(k, k.conds[k.calls[p].cond].lock) { AcquireHalts(k, p, k.conds[k.calls[p].cond].lock); }
  }

  /** The kernel stops exactly when a process is forked and no PCB is free, when somebody waits on a
      condition variable without its lock, and when the last process that can run exits or goes to
      sleep without waking another one.  In particular no step fails in any other way. */
  lemma HaltsExactlyWhen(k: Kernel, e: Event)
    requires KernelOk(k) && Enabled(k, e)
    ensures Do(k, e).halted <==>
      || (e == Event.ForkBegin && k.procs.free == [])
      || (e.CondWait? && GoodCond(k, e.cond) && !OwnsLockOf(k, e.cond))
      || ((e == Exit || GoesToSleep(k, e)) && |k.procs.run| == 1 && !HandsOver(k, e))
  {
    hide DoLockAcquire, DoCondWait, DoResume, SleepersOf, Sleep, SemsOk, LocksOk, ProcsOk, Schedule;
    if Quiet(e) {
      QuietRunsOn(k, e);
    } else if !IsFork(e) {
      var p: nat := k.procs.current;
      CurrentIsRunnable(k);
      RunningFacts(k, p);
      if e.SemWait? {
        if GoodSem(k, e.sem) { SleepHalts(k.(sems := k.sems[e.sem := Synch.SemWait(k.sems[e.sem], p).obj]), p, InSem(e.sem)); }
      } else if e.LockAcquire? {
        if GoodLock(k, e.lock) { AcquireHalts(k, p, e.lock); }
      } else if e.CondWait? {
        if GoodCond(k, e.cond) { CondWaitHalts(k, p, e.cond); }
      } else if e == Resume {
        ResumeHalts(k);
      } else {
        ExitSkipsTheNext(k);
      }
    }
  }

  // ----- what the calls return -----

  /** The step is a call on a semaphore, a lock or a condition variable, or the rest of one. */
  predicate IsCall(e: Event) { !IsFork(e) && e != Timer && e != Exit }

  /** A call hands over its result in the step in which it returns to user code, and in no other. */
  lemma ResultsOnReturn(k: Kernel, e: Event)
    requires KernelOk(k) && Enabled(k, e) && IsCall(e)
    ensures 0 <= k.procs.current < |Do(k, e).calls|
    ensures Result(k, e).Some? <==> Do(k, e).calls[k.procs.current] == NoCall && !Do(k, e).halted
  {
    hide Do, KernelOk, FirstFree;
    CallStep(k, e);
    HaltsExactlyWhen(k, e);
    CurrentIsRunnable(k);
    if e == Resume { CurrentCall(k); } else if e.CondWait? && GoodCond(k, e.cond) { CurrentCall(k); }
  }

  lemma CurrentCall(k: Kernel)
    requires KernelOk(k) && !k.halted && 0 <= k.procs.current < |k.calls|
    ensures k.calls[k.procs.current].InCond? ==> GoodCond(k, k.calls[k.procs.current].cond)
    ensures forall l: nat :: GoodLock(k, l) ==> k.locks[l].pid >= NO_OWNER
  {
    RunningFacts(k, k.procs.current);
    assert CallOk(k, k.procs.current);
  }

  /** A call that fails has changed nothing. */
  lemma FailureChangesNothing(k: Kernel, e: Event)
    requires KernelOk(k) && Enabled(k, e) && Result(k, e) == Some(SYNC_FAIL)
    ensures Do(k, e) == k
  {
  }
}
