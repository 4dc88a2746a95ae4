/** The kernel as a state machine: the process queues, the three pools of synchronisation
    objects, and one transition per trap, interrupt, or continuation of a call that slept. */
module KernelState {
  import opened Sequences
  import opened Synch
  import opened Processes

  /** The kernel call that a process is inside of while it sleeps, and until it runs again.
      `InLock` is a lock_acquire, or the second half of a cond_wait. */
  datatype Call = NoCall | InSem(sem: nat) | InLock(lock: nat) | InCond(cond: nat)

  datatype Kernel = Kernel(
    procs: Procs,
    calls: seq<Call>,
    sems: seq<Sem>,
    locks: seq<Lock>,
    conds: seq<Cond>,
    halted: bool          // exitsim() was called
  )

  datatype Event =
    | Timer                       // timer interrupt, or a context-switch trap
    | Exit
    | SemCreate(count: int)
    | SemWait(sem: int)
    | SemSignal(sem: int)
    | LockCreate
    | LockAcquire(lock: int)
    | LockRelease(lock: int)
    | CondCreate(lock: int)
    | CondWait(cond: int)
    | CondSignal(cond: int)
    | CondBroadcast(cond: int)
    | Resume                      // the current process runs on inside a call that slept
    | ForkBegin
    | ForkFinish(child: nat)
    | ForkFail(child: nat)

  /** The state at boot, after the modules have been initialised. */
  function Boot(nProcs: nat, nSems: nat, nLocks: nat, nConds: nat): Kernel {
    Kernel(
      Procs(seq(nProcs, _ => Free), seq(nProcs, i requires 0 <= i < nProcs => nProcs - 1 - i), [], [], [], {}, NOBODY),
      seq(nProcs, _ => NoCall),
      seq(nSems, _ => Sem(false, 0, [])),
      seq(nLocks, _ => Lock(false, 0, [])),    // static storage: the owner field is 0, not -1
      seq(nConds, _ => Cond(false, 0, [])),
      false)
  }

  // ----- transitions -----

  function Halt(k: Kernel): Kernel { k.(halted := true) }

  /** ProcessSchedule; the kernel stops when nobody is runnable. */
  function Reschedule(k: Kernel, suspended: bool): Kernel
    requires forall p :: p in k.procs.zombie ==> p < |k.procs.status|
  {
    if k.procs.run == [] then Halt(k) else k.(procs := Schedule(k.procs, suspended))
  }

  /** ProcessSleep by `p`, inside `call`. */
  function Sleep(k: Kernel, p: nat, call: Call): Kernel
    requires p < |k.procs.status| && p < |k.calls|
    requires forall z :: z in k.procs.zombie ==> z < |k.procs.status|
  {
    Reschedule(k.(procs := Suspend(k.procs, p), calls := k.calls[p := call]), true)
  }

  function WakeIfAny(k: Kernel, woken: Option<nat>): Kernel {
    match woken
    case None => k
    case Some(p) => if p < |k.procs.status| then k.(procs := Wakeup(k.procs, p)) else k
  }

  function DoSemWait(k: Kernel, p: nat, s: nat): Kernel
    requires p < |k.procs.status| && p < |k.calls| && s < |k.sems|
    requires forall z :: z in k.procs.zombie ==> z < |k.procs.status|
  {
    var w := Synch.SemWait(k.sems[s], p);
    var k1 := k.(sems := k.sems[s := w.obj]);
    if w.sleeps then Sleep(k1, p, InSem(s)) else k1
  }

  function DoSemSignal(k: Kernel, s: nat): Kernel
    requires s < |k.sems|
  {
    var w := Synch.SemSignal(k.sems[s]);
    WakeIfAny(k.(sems := k.sems[s := w.obj]), w.woken)
  }

  /** LockAcquire by `p`; if it does not sleep, `p` is inside no call afterwards. */
  function DoLockAcquire(k: Kernel, p: nat, l: nat): Kernel
    requires p < |k.procs.status| && p < |k.calls| && l < |k.locks|
    requires forall z :: z in k.procs.zombie ==> z < |k.procs.status|
  {
    var w := Synch.LockAcquire(k.locks[l], p);
    var k1 := k.(locks := k.locks[l := w.obj]);
    if w.sleeps then Sleep(k1, p, InLock(l)) else k1.(calls := k1.calls[p := NoCall])
  }

  /** LockRelease by `p`; it fails, and changes nothing, if `p` is not the owner. */
  function DoLockRelease(k: Kernel, p: nat, l: nat): Kernel
    requires l < |k.locks|
  {
    if k.locks[l].pid != p then k
    else
      var w := Synch.LockRelease(k.locks[l]);
      WakeIfAny(k.(locks := k.locks[l := w.obj]), w.woken)
  }

  /** CondWait by `p` up to its sleep: it is queued first, then the lock is released. */
  function DoCondWait(k: Kernel, p: nat, c: nat): Kernel
    requires p < |k.procs.status| && p < |k.calls| && c < |k.conds| && 0 <= k.conds[c].lock < |k.locks|
    requires forall z :: z in k.procs.zombie ==> z < |k.procs.status|
  {
    var l := k.conds[c].lock;
    if k.locks[l].pid != p then Halt(k)
    else
      var k1 := k.(conds := k.conds[c := CondEnqueue(k.conds[c], p)]);
      var k2 := if k.locks[l].inuse then DoLockRelease(k1, p, l) else k1;
      Sleep(k2, p, InCond(c))
  }

  function DoCondSignal(k: Kernel, p: nat, c: nat): Kernel
    requires c < |k.conds| && 0 <= k.conds[c].lock < |k.locks|
  {
    if k.locks[k.conds[c].lock].pid != p then k
    else
      var w := Synch.CondSignal(k.conds[c]);
      WakeIfAny(k.(conds := k.conds[c := w.obj]), w.woken)
  }

  /** The loop of CondBroadcast. */
  function WakeAll(k: Kernel, c: nat): Kernel
    requires c < |k.conds|
    decreases |k.conds[c].waiting|
  {
    if k.conds[c].waiting == [] then k
    else
      var w := Synch.CondSignal(k.conds[c]);
      WakeAll(WakeIfAny(k.(conds := k.conds[c := w.obj]), w.woken), c)
  }

  function DoCondBroadcast(k: Kernel, p: nat, c: nat): Kernel
    requires c < |k.conds| && 0 <= k.conds[c].lock < |k.locks|
  {
    if k.locks[k.conds[c].lock].pid != p then k else WakeAll(k, c)
  }

  /** The rest of a call that slept. */
  function DoResume(k: Kernel, p: nat): Kernel
    requires p < |k.procs.status| && p < |k.calls|
    requires k.calls[p].InCond? ==> k.calls[p].cond < |k.conds| && 0 <= k.conds[k.calls[p].cond].lock < |k.locks|
    requires forall z :: z in k.procs.zombie ==> z < |k.procs.status|
  {
    match k.calls[p]
    case InCond(c) =>
      var l := k.conds[c].lock;
      if k.locks[l].inuse then DoLockAcquire(k, p, l) else k.(calls := k.calls[p := NoCall])
    case _ => k.(calls := k.calls[p := NoCall])
  }

  /** The first entry of a pool that is not in use, or the size of the pool. */
  function FirstFree(used: seq<bool>): (i: nat)
    ensures i <= |used| && (forall j :: 0 <= j < i ==> used[j]) && (i < |used| ==> !used[i])
  {
    if used == [] || !used[0] then 0 else 1 + FirstFree(used[1..])
  }

  function FreeSem(k: Kernel): (s: nat)
    ensures s <= |k.sems|
  {
    FirstFree(seq(|k.sems|, i requires 0 <= i < |k.sems| => k.sems[i].inuse))
  }

  function FreeLock(k: Kernel): (l: nat)
    ensures l <= |k.locks|
  {
    FirstFree(seq(|k.locks|, i requires 0 <= i < |k.locks| => k.locks[i].inuse))
  }

  function FreeCond(k: Kernel): (c: nat)
    ensures c <= |k.conds|
  {
    FirstFree(seq(|k.conds|, i requires 0 <= i < |k.conds| => k.conds[i].inuse))
  }

  function DoSemCreate(k: Kernel, count: int): Kernel {
    var s := FreeSem(k);
    if s == |k.sems| then k else k.(sems := k.sems[s := Sem(true, count, [])])
  }

  function DoLockCreate(k: Kernel): Kernel {
    var l := FreeLock(k);
    if l == |k.locks| then k else k.(locks := k.locks[l := Lock(true, NO_OWNER, [])])
  }

  function DoCondCreate(k: Kernel, lock: int): Kernel {
    if !(0 <= lock < |k.locks|) then k
    else
      var c := FreeCond(k);
      if c == |k.conds| then k else k.(conds := k.conds[c := Cond(true, lock, [])])
  }

  predicate GoodSem(k: Kernel, h: int) { 0 <= h < |k.sems| && k.sems[h].inuse }

  predicate GoodLock(k: Kernel, h: int) { 0 <= h < |k.locks| && k.locks[h].inuse }

  predicate GoodCond(k: Kernel, h: int) { 0 <= h < |k.conds| && k.conds[h].inuse }

  /** Events that need no process in user code: forks, whose two halves may be interrupted. */
  predicate IsFork(e: Event) { e.ForkBegin? || e.ForkFinish? || e.ForkFail? }

  /** A process makes a kernel call only from user code, and runs on inside a call only if it
      slept there. */
  predicate Enabled(k: Kernel, e: Event) {
    && !k.halted
    && match e
       case ForkBegin => true
       case ForkFinish(p) => p in k.procs.forking
       case ForkFail(p) => p in k.procs.forking
       case Timer => 0 <= k.procs.current < |k.calls|
       case Resume => 0 <= k.procs.current < |k.calls| && k.calls[k.procs.current] != NoCall
       case _ => 0 <= k.procs.current < |k.calls| && k.calls[k.procs.current] == NoCall
  }

  /** `w` holds sleepers that are inside `call`, each once. */
  ghost predicate SleepersOf(status: seq<Status>, calls: seq<Call>, w: seq<nat>, call: Call) {
    && Distinct(w)
    && (forall p :: p in w ==> p < |status| && p < |calls| && status[p] == Waiting && calls[p] == call)
  }

  ghost predicate SemsOk(status: seq<Status>, calls: seq<Call>, sems: seq<Sem>) {
    forall s: nat :: s < |sems| ==>
      && SleepersOf(status, calls, sems[s].waiting, InSem(s))
      && SemOk(sems[s])
      && (!sems[s].inuse ==> sems[s].waiting == [])
  }

  ghost predicate LocksOk(status: seq<Status>, calls: seq<Call>, locks: seq<Lock>) {
    forall l: nat :: l < |locks| ==>
      && SleepersOf(status, calls, locks[l].waiting, InLock(l))
      && (if locks[l].inuse then LockOk(locks[l]) && locks[l].pid < |status|
          else locks[l].pid == 0 && locks[l].waiting == [])
  }

  ghost predicate CondsOk(status: seq<Status>, calls: seq<Call>, conds: seq<Cond>, nLocks: nat) {
    forall c: nat :: c < |conds| ==>
      && SleepersOf(status, calls, conds[c].waiting, InCond(c))
      && (if conds[c].inuse then 0 <= conds[c].lock < nLocks else conds[c].waiting == [])
  }

  /** `p` is on the queue of the object that its call waits for. */
  predicate OnItsQueue(k: Kernel, p: nat)
    requires p < |k.calls|
  {
    match k.calls[p]
    case NoCall => false
    case InSem(s) => s < |k.sems| && p in k.sems[s].waiting
    case InLock(l) => l < |k.locks| && p in k.locks[l].waiting
    case InCond(c) => c < |k.conds| && p in k.conds[c].waiting
  }

  /** A sleeper is inside a call and on its queue; a process that a lock has been handed to owns
      that lock. */
  ghost predicate CallOk(k: Kernel, p: nat)
    requires p < |k.calls| && p < |k.procs.status|
  {
    && (k.procs.status[p] == Waiting ==> OnItsQueue(k, p))
    && (k.calls[p] != NoCall ==>
          (k.procs.status[p] == Waiting || k.procs.status[p] == Runnable) && p !in k.procs.forking)
    && (k.calls[p].InCond? ==> k.calls[p].cond < |k.conds| && k.conds[k.calls[p].cond].inuse)
    && (k.calls[p].InLock? && k.procs.status[p] == Runnable ==>
          k.calls[p].lock < |k.locks| && k.locks[k.calls[p].lock].inuse && k.locks[k.calls[p].lock].pid == p)
  }

  ghost predicate CallsOk(k: Kernel) {
    && |k.calls| == |k.procs.status|
    && forall p: nat :: p < |k.calls| ==> CallOk(k, p)
  }

  ghost predicate ObjectsOk(k: Kernel) {
    && SemsOk(k.procs.status, k.calls, k.sems)
    && LocksOk(k.procs.status, k.calls, k.locks)
    && CondsOk(k.procs.status, k.calls, k.conds, |k.locks|)
  }

  /** The invariant of every reachable state in which the kernel still runs. */
  ghost predicate KernelOk(k: Kernel) {
    k.halted || (AtTrapReturn(k.procs) && CallsOk(k) && ObjectsOk(k))
  }

  lemma CurrentIsRunnable(k: Kernel)
    requires KernelOk(k) && !k.halted && 0 <= k.procs.current
    ensures k.procs.run != [] && k.procs.run[0] == k.procs.current && k.procs.current < |k.procs.status| == |k.calls|
    ensures k.procs.status[k.procs.current] == Runnable && k.procs.current !in k.procs.forking
  {
    assert k.procs.run[0] in k.procs.run;
  }

  /** The transition that process `p` makes, from user code or inside a call. */
  function DoOwn(k: Kernel, p: nat, e: Event): Kernel
    requires AtTrapReturn(k.procs) && CallsOk(k) && ObjectsOk(k) && p < |k.calls|
  {
    match e
    case Timer => Reschedule(k, false)
    case Exit => Reschedule(k.(procs := Destroy(k.procs, p)), false)
    case SemCreate(count) => DoSemCreate(k, count)
    case SemWait(h) => if GoodSem(k, h) then DoSemWait(k, p, h) else k
    case SemSignal(h) => if GoodSem(k, h) then DoSemSignal(k, h) else k
    case LockCreate => DoLockCreate(k)
    case LockAcquire(h) => if GoodLock(k, h) then DoLockAcquire(k, p, h) else k
    case LockRelease(h) => if GoodLock(k, h) then DoLockRelease(k, p, h) else k
    case CondCreate(l) => DoCondCreate(k, l)
    case CondWait(h) => if GoodCond(k, h) then DoCondWait(k, p, h) else k
    case CondSignal(h) => if GoodCond(k, h) then DoCondSignal(k, p, h) else k
    case CondBroadcast(h) => if GoodCond(k, h) then DoCondBroadcast(k, p, h) else k
    case Resume => assert CallOk(k, p); DoResume(k, p)
    case _ => k
  }

  /** The transition of the kernel. */
  function Do(k: Kernel, e: Event): Kernel
    requires KernelOk(k) && Enabled(k, e)
  {
    match e
    case ForkBegin =>
      if k.procs.free == [] then Halt(k)
      else
        assert k.procs.free[0] in k.procs.free;
        k.(procs := Processes.ForkBegin(k.procs))
    case ForkFinish(p) => k.(procs := Processes.ForkFinish(k.procs, p))
    case ForkFail(p) => k.(procs := Processes.ForkFail(k.procs, p))
    case _ => DoOwn(k, k.procs.current, e)
  }

  // ----- what a call returns -----

  /** The handle of an entry of a pool of `n`, or failure if there is none left. */
  function Handle(i: nat, n: nat): int { if i == n then SYNC_FAIL else i }

  function Status(ok: bool): int { if ok then SYNC_SUCCESS else SYNC_FAIL }

  /** The current process can have lock `l` without sleeping. */
  predicate Grabs(k: Kernel, l: nat)
    requires l < |k.locks|
  {
    k.locks[l].pid < 0 || k.locks[l].pid == k.procs.current
  }

  /** The lock of condition variable `h` is the current process's own. */
  predicate MaySignal(k: Kernel, h: int) {
    GoodCond(k, h) && 0 <= k.conds[h].lock < |k.locks| && k.locks[k.conds[h].lock].pid == k.procs.current
  }

  /** The continuation of a cond_wait must sleep again, on the lock. */
  predicate SleepsAgain(k: Kernel, call: Call) {
    call.InCond? && call.cond < |k.conds| && GoodLock(k, k.conds[call.cond].lock) && !Grabs(k, k.conds[call.cond].lock)
  }

  /** What ProcessSetResult hands to the current process in this step: the result of its call on a
      semaphore, a lock or a condition variable, once that call returns. */
  function Result(k: Kernel, e: Event): Option<int> {
    match e
    case SemCreate(_) => Some(Handle(FreeSem(k), |k.sems|))
    case SemWait(h) => if GoodSem(k, h) && k.sems[h].count <= 0 then None else Some(Status(GoodSem(k, h)))
    case SemSignal(h) => Some(Status(GoodSem(k, h)))
    case LockCreate => Some(Handle(FreeLock(k), |k.locks|))
    case LockAcquire(h) => if GoodLock(k, h) && !Grabs(k, h) then None else Some(Status(GoodLock(k, h)))
    case LockRelease(h) => Some(Status(GoodLock(k, h) && k.locks[h].pid == k.procs.current))
    case CondCreate(l) => Some(if 0 <= l < |k.locks| then Handle(FreeCond(k), |k.conds|) else SYNC_FAIL)
    case CondWait(h) => if GoodCond(k, h) then None else Some(SYNC_FAIL)
    case CondSignal(h) => Some(Status(MaySignal(k, h)))
    case CondBroadcast(h) => Some(Status(MaySignal(k, h)))
    case Resume => if 0 <= k.procs.current < |k.calls| && SleepsAgain(k, k.calls[k.procs.current]) then None else Some(SYNC_SUCCESS)
    case _ => None
  }
}
