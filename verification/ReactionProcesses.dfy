/** Steps of the reaction network on the kernel: a process of the kernel that follows a program of
    apps/q5 takes the steps of `Reactions`, whatever the scheduler does, and among other processes
    that leave the objects of the network alone. */
module ReactionProcesses {
  import opened Sequences
  import opened Synch
  import opened Reactions
  import opened ReactionInvariant
  import opened ReactionRuns
  import KS = KernelState
  import KernelInvariant
  import KernelObjects
  import KernelSync
  import KernelLife

  /** The handles that krypton has created. */
  datatype Handles = Handles(lock: nat, sem: nat, conds: seq<nat>)

  // ----- the same object, with PIDs for processes -----

  /** No two processes have the same PID; -1 stands for a process that does not exist, or has gone. */
  ghost predicate PidsDiffer(pid: seq<int>) {
    && |pid| == 7
    && forall p, q :: 0 <= p < q < 7 && pid[p] >= 0 ==> pid[p] != pid[q]
  }

  ghost predicate SameQueue(w: seq<nat>, q: seq<nat>, pid: seq<int>) {
    && |pid| == 7 && |w| == |q|
    && forall i :: 0 <= i < |q| ==> q[i] <= KRYPTON && w[i] == pid[q[i]]
  }

  ghost predicate SameOwner(owner: int, p: int, pid: seq<int>) {
    && |pid| == 7
    && if p < 0 then owner == p == NO_OWNER else p <= KRYPTON && owner == pid[p] >= 0
  }

  ghost predicate SameLock(a: Lock, b: Lock, pid: seq<int>) {
    a.inuse && SameOwner(a.pid, b.pid, pid) && SameQueue(a.waiting, b.waiting, pid)
  }

  ghost predicate SameSem(a: Sem, b: Sem, pid: seq<int>) {
    a.inuse && a.count == b.count && SameQueue(a.waiting, b.waiting, pid)
  }

  ghost predicate SameCond(a: Cond, b: Cond, pid: seq<int>, lock: nat) {
    a.inuse && a.lock == lock && SameQueue(a.waiting, b.waiting, pid)
  }

  lemma PushSame(w: seq<nat>, q: seq<nat>, pid: seq<int>, p: nat)
    requires SameQueue(w, q, pid) && p <= KRYPTON && pid[p] >= 0
    ensures SameQueue(w + [pid[p]], q + [p], pid)
  {
  }

  lemma PopSame(w: seq<nat>, q: seq<nat>, pid: seq<int>)
    requires SameQueue(w, q, pid) && q != []
    ensures q[0] <= KRYPTON && w[0] == pid[q[0]] >= 0 && SameQueue(w[1..], q[1..], pid)
  {
  }

  lemma AcquireSame(a: Lock, b: Lock, pid: seq<int>, p: nat)
    requires SameLock(a, b, pid) && PidsDiffer(pid) && p <= KRYPTON && pid[p] >= 0
    ensures SameLock(LockAcquire(a, pid[p]).obj, LockAcquire(b, p).obj, pid)
    ensures a.pid == pid[p] <==> b.pid == p
  {
    hide SameQueue;
    PushSame(a.waiting, b.waiting, pid, p);
  }

  lemma ReleaseSame(a: Lock, b: Lock, pid: seq<int>)
    requires SameLock(a, b, pid)
    ensures SameLock(LockRelease(a).obj, LockRelease(b).obj, pid)
  {
    if b.waiting != [] { PopSame(a.waiting, b.waiting, pid); }
  }

  lemma SemWaitSame(a: Sem, b: Sem, pid: seq<int>, p: nat)
    requires SameSem(a, b, pid) && p <= KRYPTON && pid[p] >= 0
    ensures SameSem(SemWait(a, pid[p]).obj, SemWait(b, p).obj, pid)
  {
    PushSame(a.waiting, b.waiting, pid, p);
  }

  lemma SemSignalSame(a: Sem, b: Sem, pid: seq<int>)
    requires SameSem(a, b, pid)
    ensures SameSem(SemSignal(a).obj, SemSignal(b).obj, pid)
  {
    if b.waiting != [] { PopSame(a.waiting, b.waiting, pid); }
  }

  lemma EnqueueSame(a: Cond, b: Cond, pid: seq<int>, lock: nat, p: nat)
    requires SameCond(a, b, pid, lock) && p <= KRYPTON && pid[p] >= 0
    ensures SameCond(CondEnqueue(a, pid[p]), CondEnqueue(b, p), pid, lock)
  {
    PushSame(a.waiting, b.waiting, pid, p);
  }

  lemma SignalSame(a: Cond, b: Cond, pid: seq<int>, lock: nat)
    requires SameCond(a, b, pid, lock)
    ensures SameCond(CondSignal(a).obj, CondSignal(b).obj, pid, lock)
  {
    if b.waiting != [] { PopSame(a.waiting, b.waiting, pid); }
  }

  // ----- a state of the kernel and a state of the programs -----

  ghost predicate SameConds(k: KS.Kernel, s: State, pid: seq<int>, h: Handles) {
    && Shape(s) && |h.conds| == 4
    && (forall c :: 0 <= c < 4 ==> h.conds[c] < |k.conds| && SameCond(k.conds[h.conds[c]], s.conds[c], pid, h.lock))
  }

  ghost predicate SameObjects(k: KS.Kernel, s: State, pid: seq<int>, h: Handles) {
    && Shape(s) && Distinct(h.conds)
    && h.sem < |k.sems| && SameSem(k.sems[h.sem], s.sem, pid)
    && h.lock < |k.locks| && SameLock(k.locks[h.lock], s.lock, pid)
    && SameConds(k, s, pid, h)
  }

  predicate Created(s: State, p: nat)
    requires Shape(s)
  {
    p == KRYPTON || p < s.procs[KRYPTON].i
  }

  /** A process inside this kernel call is at `pc` in its program. */
  predicate Fits(call: KS.Call, pc: Pc, p: nat, h: Handles)
    requires |h.conds| == 4
  {
    match call
    case NoCall => pc != Reacquire
    case InSem(x) => x == h.sem && p == KRYPTON && pc == Granted
    case InLock(l) => l == h.lock && p < CHILDREN && (pc == Check || pc == Update)
    case InCond(c) => IsReaction(p) && c == h.conds[p - 2] && pc == Reacquire
  }

  ghost predicate SameProcess(k: KS.Kernel, s: State, pid: seq<int>, h: Handles, p: nat)
    requires p <= KRYPTON && |pid| == 7 && |h.conds| == 4 && Shape(s)
  {
    if pid[p] >= 0 then
      && KernelLife.Lives(k.procs, pid[p]) && pid[p] < |k.calls| && Created(s, p)
      && Fits(k.calls[pid[p]], s.procs[p].pc, p, h)
    else if Created(s, p) then s.procs[p].pc == Exited
    else s.procs[p].pc != Reacquire
  }

  ghost predicate SameProcesses(k: KS.Kernel, s: State, pid: seq<int>, h: Handles) {
    && PidsDiffer(pid) && |h.conds| == 4 && Shape(s)
    && forall p: nat :: p <= KRYPTON ==> SameProcess(k, s, pid, h, p)
  }

  /** The call has nothing to do with the objects of the programs. */
  predicate Elsewhere(k: KS.Kernel, call: KS.Call, h: Handles) {
    match call
    case NoCall => true
    case InSem(x) => x != h.sem
    case InLock(l) => l != h.lock
    case InCond(c) => c !in h.conds && KS.GoodCond(k, c) && k.conds[c].lock != h.lock
  }

  ghost predicate OthersElsewhere(k: KS.Kernel, pid: seq<int>, h: Handles) {
    forall q: nat :: q < |k.calls| && q !in pid ==> Elsewhere(k, k.calls[q], h)
  }

  ghost predicate Coupled(cfg: Config, k: KS.Kernel, s: State, pid: seq<int>, h: Handles) {
    && KS.KernelOk(k) && !k.halted && Inv(cfg, s)
    && SameObjects(k, s, pid, h) && SameProcesses(k, s, pid, h) && OthersElsewhere(k, pid, h)
  }

  // ----- joint steps -----

  /** The process of the network that has this PID, or 7 for none. */
  function Who(pid: seq<int>, r: int): (p: nat)
    requires |pid| == 7
    ensures p <= 7 && (p < 7 ==> pid[p] == r >= 0)
    ensures p == 7 ==> r < 0 || r !in pid
  {
    if r < 0 then 7
    else if pid[0] == r then 0 else if pid[1] == r then 1 else if pid[2] == r then 2 else if pid[3] == r then 3
    else if pid[4] == r then 4 else if pid[5] == r then 5 else if pid[6] == r then 6 else 7
  }

  /** The kernel call that process `p` makes in its next step; None if it makes none. */
  function NextCall(s: State, p: nat, h: Handles): Option<KS.Event>
    requires Shape(s) && p <= KRYPTON && |h.conds| == 4
  {
    match s.procs[p].pc
    case Acquire => Some(KS.Event.LockAcquire(h.lock))
    case Check => if IsReaction(p) && MustWait(s.cnt, p) then Some(KS.Event.CondWait(h.conds[p - 2])) else None
    case SignalA => if SignalsA(s.cnt, p) then Some(KS.Event.CondSignal(h.conds[TargetA(p) - 2])) else None
    case SignalB => if s.cnt.o2 > 2 then Some(KS.Event.CondSignal(h.conds[REACTION_4 - 2])) else None
    case Release => Some(KS.Event.LockRelease(h.lock))
    case Finish => Some(KS.Event.SemSignal(h.sem))
    case Await => Some(KS.Event.SemWait(h.sem))
    case Exited => Some(KS.Exit)
    case _ => None
  }

  /** What process `p` makes of the state of the programs. */
  function Next(cfg: Config, s: State, p: nat): (t: State)
    requires Shape(s) && p <= KRYPTON
    ensures Shape(t)
  {
    if p == KRYPTON then StepKrypton(s) else StepChild(cfg, s, p)
  }

  /** The event is a call on an object of the programs. */
  predicate Touches(k: KS.Kernel, e: KS.Event, h: Handles) {
    match e
    case SemWait(x) => x == h.sem
    case SemSignal(x) => x == h.sem
    case LockAcquire(l) => l == h.lock
    case LockRelease(l) => l == h.lock
    case CondWait(c) => (c >= 0 && c in h.conds) || (KS.GoodCond(k, c) && k.conds[c].lock == h.lock)
    case CondSignal(c) => c >= 0 && c in h.conds
    case CondBroadcast(c) => c >= 0 && c in h.conds
    case _ => false
  }

  /** A step without a kernel call: the current process of the network runs in user code. */
  ghost predicate UserStep(cfg: Config, k: KS.Kernel, s: State, pid: seq<int>, h: Handles, s': State, p: nat)
    requires Shape(s) && |h.conds| == 4 && p <= KRYPTON && |pid| == 7
  {
    && k.procs.current == pid[p] && 0 <= pid[p] < |k.calls| && k.calls[pid[p]] == KS.NoCall
    && NextCall(s, p, h) == None && s.procs[p].pc != Spawn
    && s' == Next(cfg, s, p)
  }

  /** What an event of the kernel makes of the programs and their PIDs.  A process of the network
      makes the calls of its program only; other processes leave its objects alone. */
  ghost predicate EventStep(cfg: Config, k: KS.Kernel, s: State, pid: seq<int>, h: Handles, e: KS.Event,
          s': State, pid': seq<int>)
    requires Shape(s) && |h.conds| == 4 && |pid| == 7
  {
    var p := Who(pid, k.procs.current);
    if e.ForkFinish? && p == KRYPTON && s.procs[KRYPTON].pc == Spawn then
      s' == Next(cfg, s, KRYPTON) && s.procs[KRYPTON].i < CHILDREN && pid' == pid[s.procs[KRYPTON].i := e.child]
    else if KS.IsFork(e) || e == KS.Timer then
      s' == s && pid' == pid
    else if p == 7 then
      !Touches(k, e, h) && s' == s && pid' == pid
    else if e == KS.Resume then
      && pid' == pid
      && s' == if k.procs.current < |k.calls| && k.calls[k.procs.current].InCond? then Next(cfg, s, p) else s
    else
      && NextCall(s, p, h) == Some(e)
      && if e == KS.Exit then s' == s && pid' == pid[p := -1] else s' == Next(cfg, s, p) && pid' == pid
  }

  // ----- the current process is awake in its program -----

  lemma QueueMember(w: seq<nat>, q: seq<nat>, pid: seq<int>, p: nat)
    requires SameQueue(w, q, pid) && p in q
    ensures p <= KRYPTON && pid[p] >= 0 && pid[p] in w
  {
    var i :| 0 <= i < |q| && q[i] == p;
    assert w[i] == pid[p];
  }

  lemma CurrentIsAwake(cfg: Config, k: KS.Kernel, s: State, pid: seq<int>, h: Handles, p: nat)
    requires Coupled(cfg, k, s, pid, h) && p <= KRYPTON && pid[p] == k.procs.current >= 0 && s.procs[p].pc != Exited
    ensures Enabled(s, p) && Next(cfg, s, p) == Step(cfg, s, p)
  {
    hide Inv, OthersElsewhere, KS.KernelOk, Fits, SameQueue;
    assert Shape(s) && !s.halted by { InvShape(cfg, s); }
    assert SameProcess(k, s, pid, h, p);
    if p in s.lock.waiting {
      QueueMember(k.locks[h.lock].waiting, s.lock.waiting, pid, p);
      KernelSync.SleeperFacts(k, KernelSync.ALock(h.lock), pid[p]);
    }
    if p in s.sem.waiting {
      QueueMember(k.sems[h.sem].waiting, s.sem.waiting, pid, p);
      KernelSync.SleeperFacts(k, KernelSync.ASem(h.sem), pid[p]);
    }
    forall c | 0 <= c < 4 ensures p !in s.conds[c].waiting {
      if p in s.conds[c].waiting {
        QueueMember(k.conds[h.conds[c]].waiting, s.conds[c].waiting, pid, p);
        KernelSync.SleeperFacts(k, KernelSync.ACond(h.conds[c]), pid[p]);
      }
    }
  }

  lemma InvShape(cfg: Config, s: State)
    requires Inv(cfg, s)
    ensures Shape(s) && !s.halted
  {
  }

  // ----- the objects over one step -----

  /** What a step of the kernel makes of the objects of the programs. */
  lemma ObjectsAfter(k: KS.Kernel, e: KS.Event, s: State, pid: seq<int>, h: Handles)
    requires KS.KernelOk(k) && KS.Enabled(k, e) && SameObjects(k, s, pid, h)
    ensures var t := KS.Do(k, e);
      && |t.sems| == |k.sems| && t.sems[h.sem] == KernelObjects.SemAfter(k, e, h.sem)
      && |t.locks| == |k.locks| && t.locks[h.lock] == KernelObjects.LockAfter(k, e, h.lock)
      && |t.conds| == |k.conds|
      && (forall c :: 0 <= c < 4 ==> t.conds[h.conds[c]] == KernelObjects.CondAfter(k, e, h.conds[c]))
  {
    hide KS.Do, KS.KernelOk, KS.Enabled, KernelObjects.SemAfter, KernelObjects.LockAfter, KernelObjects.CondAfter, SameQueue;
    KernelObjects.StepEffect(k, e);
  }

  /** A step that makes no kernel call leaves the objects of the programs alone. */
  lemma QuietStep(cfg: Config, s: State, p: nat, h: Handles)
    requires Shape(s) && p <= KRYPTON && |h.conds| == 4 && NextCall(s, p, h) == None && s.procs[p].pc != Reacquire
    ensures var t := Next(cfg, s, p); t.lock == s.lock && t.sem == s.sem && t.conds == s.conds
  {
    hide MustWait, SignalsA, React, LockAcquire, LockRelease, SemSignal, SemWait, CondSignal, CondEnqueue;
  }

  lemma SameAfter(k: KS.Kernel, s: State, k': KS.Kernel, s': State, pid: seq<int>, h: Handles)
    requires SameObjects(k, s, pid, h) && Shape(s')
    requires |k'.sems| == |k.sems| && |k'.locks| == |k.locks| && |k'.conds| == |k.conds|
    requires k'.sems[h.sem] == k.sems[h.sem] && s'.sem == s.sem
    requires k'.locks[h.lock] == k.locks[h.lock] && s'.lock == s.lock
    requires s'.conds == s.conds && forall c :: 0 <= c < 4 ==> k'.conds[h.conds[c]] == k.conds[h.conds[c]]
    ensures SameObjects(k', s', pid, h)
  {
    hide SameQueue;
  }

  /** A step of the kernel that is no call on these objects leaves them alone. */
  lemma UntouchedObjects(k: KS.Kernel, e: KS.Event, s: State, pid: seq<int>, h: Handles)
    requires KS.KernelOk(k) && KS.Enabled(k, e) && SameObjects(k, s, pid, h) && !Touches(k, e, h)
    requires e == KS.Resume && k.calls[k.procs.current].InCond? ==>
      Elsewhere(k, k.calls[k.procs.current], h)
    ensures SameObjects(KS.Do(k, e), s, pid, h)
  {
    hide KS.Do, KS.KernelOk, SameQueue;
    ObjectsAfter(k, e, s, pid, h);
    SameAfter(k, s, KS.Do(k, e), s, pid, h);
  }

  /** lock_acquire, on both sides. */
  lemma AcquireObjects(k: KS.Kernel, e: KS.Event, s: State, pid: seq<int>, h: Handles, p: nat, s': State)
    requires KS.KernelOk(k) && KS.Enabled(k, e) && SameObjects(k, s, pid, h) && PidsDiffer(pid)
    requires p <= KRYPTON && pid[p] == k.procs.current >= 0 && KernelObjects.Acquires(k, e, h.lock, pid[p])
    requires Shape(s') && s'.lock == LockAcquire(s.lock, p).obj && s'.sem == s.sem && s'.conds == s.conds
    ensures SameObjects(KS.Do(k, e), s', pid, h)
  {
    hide KS.Do, KS.KernelOk, SameQueue, LockAcquire, SameOwner;
    ObjectsAfter(k, e, s, pid, h);
    AcquireSame(k.locks[h.lock], s.lock, pid, p);
  }

  /** lock_release by the owner, on both sides. */
  lemma ReleaseObjects(k: KS.Kernel, s: State, pid: seq<int>, h: Handles, p: nat, s': State)
    requires KS.KernelOk(k) && KS.Enabled(k, KS.Event.LockRelease(h.lock)) && SameObjects(k, s, pid, h)
    requires p <= KRYPTON && pid[p] == k.procs.current >= 0 && s.lock.pid == p
    requires Shape(s') && s'.lock == LockRelease(s.lock).obj && s'.sem == s.sem && s'.conds == s.conds
    ensures SameObjects(KS.Do(k, KS.Event.LockRelease(h.lock)), s', pid, h)
  {
    hide KS.Do, KS.KernelOk, SameQueue, LockRelease;
    ObjectsAfter(k, KS.Event.LockRelease(h.lock), s, pid, h);
    ReleaseSame(k.locks[h.lock], s.lock, pid);
  }

  lemma SemObjects(k: KS.Kernel, e: KS.Event, s: State, pid: seq<int>, h: Handles, p: nat, s': State)
    requires KS.KernelOk(k) && KS.Enabled(k, e) && SameObjects(k, s, pid, h)
    requires p <= KRYPTON && pid[p] == k.procs.current >= 0 && Shape(s') && s'.lock == s.lock && s'.conds == s.conds
    requires || (e == KS.Event.SemWait(h.sem) && s'.sem == SemWait(s.sem, p).obj)
             || (e == KS.Event.SemSignal(h.sem) && s'.sem == SemSignal(s.sem).obj)
    ensures SameObjects(KS.Do(k, e), s', pid, h)
  {
    hide KS.Do, KS.KernelOk, SameQueue, SemWait, SemSignal;
    ObjectsAfter(k, e, s, pid, h);
    if e.SemWait? { SemWaitSame(k.sems[h.sem], s.sem, pid, p); } else { SemSignalSame(k.sems[h.sem], s.sem, pid); }
  }

  /** The current process owns the lock of a condition variable in the kernel if it does so in its
      program. */
  lemma OwnsBoth(k: KS.Kernel, s: State, pid: seq<int>, h: Handles, p: nat, c: nat)
    requires SameObjects(k, s, pid, h) && p <= KRYPTON && pid[p] == k.procs.current >= 0 && s.lock.pid == p && c < 4
    ensures KernelObjects.OwnsLockOf(k, h.conds[c])
  {
  }

  lemma CondSignalObjects(k: KS.Kernel, s: State, pid: seq<int>, h: Handles, p: nat, c: nat, s': State)
    requires c < 4 && |h.conds| == 4 && KS.KernelOk(k) && KS.Enabled(k, KS.Event.CondSignal(h.conds[c]))
    requires SameObjects(k, s, pid, h)
    requires p <= KRYPTON && pid[p] == k.procs.current >= 0 && s.lock.pid == p
    requires Shape(s') && s'.lock == s.lock && s'.sem == s.sem && s'.conds == s.conds[c := CondSignal(s.conds[c]).obj]
    ensures SameObjects(KS.Do(k, KS.Event.CondSignal(h.conds[c])), s', pid, h)
  {
    hide KS.Do, KS.KernelOk, SameQueue, CondSignal, SameOwner;
    ObjectsAfter(k, KS.Event.CondSignal(h.conds[c]), s, pid, h);
    forall d: nat | d < 4 ensures KernelObjects.OwnsLockOf(k, h.conds[d]) && (h.conds[d] == h.conds[c] ==> d == c) {
      OwnsBoth(k, s, pid, h, p, d);
      OneHandle(h, c, d);
    }
    SignalSame(k.conds[h.conds[c]], s.conds[c], pid, h.lock);
  }

  lemma OneHandle(h: Handles, c: nat, d: nat)
    requires Distinct(h.conds) && c < |h.conds| && d < |h.conds|
    ensures h.conds[c] == h.conds[d] ==> c == d
  {
  }

  lemma CondWaitObjects(k: KS.Kernel, s: State, pid: seq<int>, h: Handles, p: nat, c: nat, s': State)
    requires c < 4 && |h.conds| == 4 && KS.KernelOk(k) && KS.Enabled(k, KS.Event.CondWait(h.conds[c]))
    requires SameObjects(k, s, pid, h)
    requires p <= KRYPTON && pid[p] == k.procs.current >= 0 && s.lock.pid == p
    requires Shape(s') && s'.lock == LockRelease(s.lock).obj && s'.sem == s.sem
    requires s'.conds == s.conds[c := CondEnqueue(s.conds[c], p)]
    ensures SameObjects(KS.Do(k, KS.Event.CondWait(h.conds[c])), s', pid, h)
  {
    hide KS.Do, KS.KernelOk, SameQueue, CondEnqueue, LockRelease;
    ObjectsAfter(k, KS.Event.CondWait(h.conds[c]), s, pid, h);
    forall d: nat | d < 4 ensures KernelObjects.OwnsLockOf(k, h.conds[d]) && (h.conds[d] == h.conds[c] ==> d == c) {
      OwnsBoth(k, s, pid, h, p, d);
      OneHandle(h, c, d);
    }
    EnqueueSame(k.conds[h.conds[c]], s.conds[c], pid, h.lock, p);
    ReleaseSame(k.locks[h.lock], s.lock, pid);
  }

  /** The parts of a state after a step of a child. */
  lemma ChildParts(cfg: Config, s: State, p: nat)
    requires Inv(cfg, s) && p < CHILDREN && Enabled(s, p)
    ensures var t := Next(cfg, s, p);
      && t.lock == NextLock(s, p) && t.sem == NextSem(s, p) && t.conds == NextConds(s, p)
      && t.procs == s.procs[p := NextLocal(cfg, s, p)]
    ensures Critical(s.procs[p].pc) ==> s.lock.pid == p
    ensures s.procs[p].pc != Exited && PcOk(cfg, p, s.procs[p])
  {
    hide StepChild, NextLock, NextSem, NextConds, NextLocal;
    NobodyAsleepRuns(cfg, s, p);
    StepByParts(cfg, s, p);
    StepByQueues(cfg, s, p);
  }

  lemma ParentPcs(cfg: Config, s: State)
    requires Inv(cfg, s)
    ensures var me := s.procs[KRYPTON];
      && (me.pc == Spawn || me.pc == Await || me.pc == Granted || me.pc == Exited)
      && (if me.pc == Spawn then me.i < CHILDREN else me.i == CHILDREN)
  {
  }

  /** The objects, when a process of the network makes the kernel call of its program. */
  lemma OwnCallObjects(cfg: Config, k: KS.Kernel, s: State, pid: seq<int>, h: Handles, p: nat, e: KS.Event)
    requires Coupled(cfg, k, s, pid, h) && p <= KRYPTON && pid[p] == k.procs.current >= 0 && s.procs[p].pc != Exited
    requires KS.Enabled(k, e) && NextCall(s, p, h) == Some(e)
    ensures SameObjects(KS.Do(k, e), Next(cfg, s, p), pid, h)
  {
    hide Inv, KS.Do, KS.KernelOk, SameQueue, SameObjects, SameProcess, OthersElsewhere, MustWait, SignalsA,
         LockAcquire, LockRelease, CondSignal, CondEnqueue, SemSignal, SemWait;
    CurrentIsAwake(cfg, k, s, pid, h, p);
    var t := Next(cfg, s, p);
    if p == KRYPTON {
      ParentPcs(cfg, s);
      SemObjects(k, e, s, pid, h, p, t);
    } else {
      hide StepChild;
      ChildParts(cfg, s, p);
      match s.procs[p].pc {
        case Acquire => AcquireObjects(k, e, s, pid, h, p, t) by { CurrentTakes(k, s, pid, h, p); }
        case Check => CondWaitObjects(k, s, pid, h, p, p - 2, t);
        case SignalA => CondSignalObjects(k, s, pid, h, p, TargetA(p) - 2, t);
        case SignalB => CondSignalObjects(k, s, pid, h, p, REACTION_4 - 2, t);
        case Release => ReleaseObjects(k, s, pid, h, p, t);
        case _ => SemObjects(k, e, s, pid, h, p, t);
      }
    }
  }

  lemma CurrentTakes(k: KS.Kernel, s: State, pid: seq<int>, h: Handles, p: nat)
    requires SameObjects(k, s, pid, h) && p <= KRYPTON && pid[p] == k.procs.current >= 0
    ensures KernelObjects.Acquires(k, KS.Event.LockAcquire(h.lock), h.lock, pid[p])
  {
  }

  /** The objects, when a process of the network runs on inside its cond_wait. */
  lemma ReacquireObjects(cfg: Config, k: KS.Kernel, s: State, pid: seq<int>, h: Handles, p: nat)
    requires Coupled(cfg, k, s, pid, h) && p <= KRYPTON && pid[p] == k.procs.current >= 0
    requires KS.Enabled(k, KS.Resume) && k.calls[pid[p]].InCond?
    ensures p < CHILDREN && s.procs[p].pc == Reacquire
    ensures SameObjects(KS.Do(k, KS.Resume), Next(cfg, s, p), pid, h)
  {
    hide Inv, KS.Do, KS.KernelOk, SameQueue, OthersElsewhere, LockAcquire, StepChild;
    assert SameProcess(k, s, pid, h, p);
    CurrentIsAwake(cfg, k, s, pid, h, p);
    ChildParts(cfg, s, p);
    assert k.conds[h.conds[p - 2]].lock == h.lock;
    AcquireObjects(k, KS.Resume, s, pid, h, p, Next(cfg, s, p));
  }

  // ----- the processes over one step -----

  /** A process that does not take the step itself stays where it is. */
  lemma BystanderKept(k: KS.Kernel, e: KS.Event, s: State, s': State, pid: seq<int>, pid': seq<int>, h: Handles, q: nat)
    requires KS.KernelOk(k) && KS.Enabled(k, e) && q <= KRYPTON && |pid| == |pid'| == 7 && |h.conds| == 4
    requires Shape(s) && Shape(s') && SameProcess(k, s, pid, h, q)
    requires pid'[q] == pid[q] && (pid[q] >= 0 ==> pid[q] != k.procs.current || KS.IsFork(e))
    requires s'.procs[q] == s.procs[q] && (Created(s', q) <==> Created(s, q))
    ensures SameProcess(KS.Do(k, e), s', pid', h, q)
  {
    hide KS.Do, KS.KernelOk, KernelLife.Lives, Fits, Created;
    KernelLife.LifeStep(k, e);
    KernelObjects.CallStep(k, e);
  }

  /** The call that a process of the network is inside of after its step fits its program. */
  lemma CallFits(cfg: Config, k: KS.Kernel, s: State, pid: seq<int>, h: Handles, p: nat, e: KS.Event)
    requires Coupled(cfg, k, s, pid, h) && p <= KRYPTON && pid[p] == k.procs.current >= 0 && s.procs[p].pc != Exited
    requires KS.Enabled(k, e) && NextCall(s, p, h) == Some(e)
    ensures pid[p] < |k.calls| && Fits(KernelObjects.CallAfter(k, e, pid[p]), Next(cfg, s, p).procs[p].pc, p, h)
  {
    hide Inv, KS.KernelOk, SameQueue, OthersElsewhere, KernelObjects.CallAfter, Fits, Next;
    assert SameProcess(k, s, pid, h, p);
    CurrentIsAwake(cfg, k, s, pid, h, p);
    if p == KRYPTON {
      ParentPcs(cfg, s);
      ParentFits(k, s, h, e, pid[p]);
    } else {
      ChildParts(cfg, s, p);
      if e.CondWait? { OwnsBoth(k, s, pid, h, p, p - 2); }
      ChildFits(cfg, k, s, h, p, e, pid[p]);
      NextIsChild(cfg, s, p);
    }
  }

  lemma NextIsChild(cfg: Config, s: State, p: nat)
    requires Shape(s)
    ensures p < CHILDREN ==> Next(cfg, s, p) == StepChild(cfg, s, p)
    ensures Next(cfg, s, KRYPTON) == StepKrypton(s)
  {
    hide StepChild, StepKrypton;
  }

  lemma ParentFits(k: KS.Kernel, s: State, h: Handles, e: KS.Event, r: nat)
    requires Shape(s) && |h.conds| == 4 && r < |k.calls| && k.calls[r] == KS.NoCall
    requires s.procs[KRYPTON].pc == Await && NextCall(s, KRYPTON, h) == Some(e)
    ensures Fits(KernelObjects.CallAfter(k, e, r), StepKrypton(s).procs[KRYPTON].pc, KRYPTON, h)
  {
  }

  /** The same for a child, whose call is told by its place in the program. */
  lemma ChildFits(cfg: Config, k: KS.Kernel, s: State, h: Handles, p: nat, e: KS.Event, r: nat)
    requires Shape(s) && |h.conds| == 4 && r < |k.calls| && k.calls[r] == KS.NoCall && p < CHILDREN
    requires NextCall(s, p, h) == Some(e) && e != KS.Exit && s.procs[p].pc != Await
    requires e.CondWait? ==> KernelObjects.OwnsLockOf(k, h.conds[p - 2]) && KS.GoodCond(k, h.conds[p - 2])
    ensures Fits(KernelObjects.CallAfter(k, e, r), NextLocal(cfg, s, p).pc, p, h)
  {
    hide LoopTest, MustWait, SignalsA;
    NoReacquire(cfg, s, p);
  }

  /** The loop test does not lead into the middle of cond_wait. */
  lemma NoReacquire(cfg: Config, s: State, p: nat)
    requires Shape(s) && p < CHILDREN
    ensures LoopTest(cfg, p, s.procs[p].i + 1) != Reacquire
  {
  }

  lemma SelfAfterCall(cfg: Config, k: KS.Kernel, s: State, pid: seq<int>, h: Handles, p: nat, e: KS.Event)
    requires Coupled(cfg, k, s, pid, h) && p <= KRYPTON && pid[p] == k.procs.current >= 0 && s.procs[p].pc != Exited
    requires KS.Enabled(k, e) && NextCall(s, p, h) == Some(e)
    ensures SameProcess(KS.Do(k, e), Next(cfg, s, p), pid, h, p)
  {
    hide Inv, KS.Do, KS.KernelOk, SameObjects, SameQueue, OthersElsewhere, Fits, Next, KernelLife.Lives, KernelObjects.CallAfter;
    assert SameProcess(k, s, pid, h, p);
    CallFits(cfg, k, s, pid, h, p, e);
    KernelLife.LifeStep(k, e);
    KernelObjects.CallStep(k, e);
    StaysCreated(cfg, s, p, p);
  }

  /** A step other than the creation of a child creates nobody, and moves nobody else. */
  lemma StaysCreated(cfg: Config, s: State, p: nat, q: nat)
    requires Shape(s) && p <= KRYPTON && q <= KRYPTON && s.procs[p].pc != Spawn
    ensures Created(Next(cfg, s, p), q) <==> Created(s, q)
    ensures q != p ==> Next(cfg, s, p).procs[q] == s.procs[q]
  {
    hide MustWait, SignalsA, React, LoopTest, LockAcquire, LockRelease, SemSignal, SemWait, CondSignal, CondEnqueue;
  }

  /** The processes, when one of the network makes the kernel call of its program. */
  lemma ProcessesAfterCall(cfg: Config, k: KS.Kernel, s: State, pid: seq<int>, h: Handles, p: nat, e: KS.Event)
    requires Coupled(cfg, k, s, pid, h) && p <= KRYPTON && pid[p] == k.procs.current >= 0 && s.procs[p].pc != Exited
    requires KS.Enabled(k, e) && NextCall(s, p, h) == Some(e)
    ensures SameProcesses(KS.Do(k, e), Next(cfg, s, p), pid, h)
  {
    hide Inv, KS.Do, KS.KernelOk, SameObjects, OthersElsewhere, Next, SameProcess;
    var t := Next(cfg, s, p);
    forall q: nat | q <= KRYPTON ensures SameProcess(KS.Do(k, e), t, pid, h, q) {
      if q == p {
        SelfAfterCall(cfg, k, s, pid, h, p, e);
      } else {
        StaysCreated(cfg, s, p, q);
        BystanderKept(k, e, s, t, pid, pid, h, q);
      }
    }
  }

  /** The processes, when nobody of the network takes a step of its program. */
  lemma ProcessesUntouched(k: KS.Kernel, e: KS.Event, s: State, pid: seq<int>, h: Handles)
    requires KS.KernelOk(k) && KS.Enabled(k, e) && SameProcesses(k, s, pid, h)
    requires KS.IsFork(e) || e == KS.Timer || Who(pid, k.procs.current) == 7
    ensures SameProcesses(KS.Do(k, e), s, pid, h)
  {
    hide KS.Do, KS.KernelOk, SameProcess;
    forall q: nat | q <= KRYPTON ensures SameProcess(KS.Do(k, e), s, pid, h, q) {
      if e == KS.Timer { TimerKeeps(k, s, pid, h, q); } else { BystanderKept(k, e, s, s, pid, pid, h, q); }
    }
  }

  lemma TimerKeeps(k: KS.Kernel, s: State, pid: seq<int>, h: Handles, q: nat)
    requires KS.KernelOk(k) && KS.Enabled(k, KS.Timer) && q <= KRYPTON && |pid| == 7 && |h.conds| == 4 && Shape(s)
    requires SameProcess(k, s, pid, h, q)
    ensures SameProcess(KS.Do(k, KS.Timer), s, pid, h, q)
  {
    hide KS.Do, KS.KernelOk, KernelLife.Lives, Fits, Created;
    KernelLife.LifeStep(k, KS.Timer);
    KernelObjects.CallStep(k, KS.Timer);
  }

  /** The processes, when one of the network runs on inside a kernel call. */
  lemma ProcessesAfterResume(cfg: Config, k: KS.Kernel, s: State, pid: seq<int>, h: Handles, p: nat)
    requires Coupled(cfg, k, s, pid, h) && p <= KRYPTON && pid[p] == k.procs.current >= 0 && KS.Enabled(k, KS.Resume)
    ensures var t := if k.calls[pid[p]].InCond? then Next(cfg, s, p) else s;
      SameProcesses(KS.Do(k, KS.Resume), t, pid, h)
  {
    hide Inv, KS.Do, KS.KernelOk, SameObjects, OthersElsewhere, Next, SameProcess;
    var t := if k.calls[pid[p]].InCond? then Next(cfg, s, p) else s;
    forall q: nat | q <= KRYPTON ensures SameProcess(KS.Do(k, KS.Resume), t, pid, h, q) {
      if q == p {
        SelfAfterResume(cfg, k, s, pid, h, p);
      } else {
        if t != s { ResumedPc(cfg, k, s, pid, h, p); StaysCreated(cfg, s, p, q); }
        BystanderKept(k, KS.Resume, s, t, pid, pid, h, q);
      }
    }
  }

  lemma ResumedPc(cfg: Config, k: KS.Kernel, s: State, pid: seq<int>, h: Handles, p: nat)
    requires Coupled(cfg, k, s, pid, h) && p <= KRYPTON && pid[p] == k.procs.current >= 0
    requires pid[p] < |k.calls| && k.calls[pid[p]].InCond?
    ensures p < CHILDREN && s.procs[p].pc == Reacquire
    ensures k.calls[pid[p]].cond == h.conds[p - 2] < |k.conds| && k.conds[h.conds[p - 2]].lock == h.lock
  {
    hide Inv, KS.KernelOk, OthersElsewhere;
    assert SameProcess(k, s, pid, h, p);
  }

  lemma SelfAfterResume(cfg: Config, k: KS.Kernel, s: State, pid: seq<int>, h: Handles, p: nat)
    requires Coupled(cfg, k, s, pid, h) && p <= KRYPTON && pid[p] == k.procs.current >= 0 && KS.Enabled(k, KS.Resume)
    ensures var t := if k.calls[pid[p]].InCond? then Next(cfg, s, p) else s;
      SameProcess(KS.Do(k, KS.Resume), t, pid, h, p)
  {
    hide Inv, KS.Do, KS.KernelOk, SameQueue, OthersElsewhere, KernelLife.Lives, LockAcquire, LoopTest;
    assert SameProcess(k, s, pid, h, p);
    KernelLife.LifeStep(k, KS.Resume);
    KernelObjects.CallStep(k, KS.Resume);
    if k.calls[pid[p]].InCond? {
      hide StepChild;
      ResumedPc(cfg, k, s, pid, h, p);
      CurrentIsAwake(cfg, k, s, pid, h, p);
      ChildParts(cfg, s, p);
      StaysCreated(cfg, s, p, p);
    }
  }

  // ----- the other processes -----

  /** The call of another process stays elsewhere, if its step does not touch these objects. */
  lemma ElsewhereAfter(k: KS.Kernel, e: KS.Event, s: State, pid: seq<int>, h: Handles, call: KS.Call)
    requires KS.KernelOk(k) && KS.Enabled(k, e) && SameObjects(k, s, pid, h) && Elsewhere(k, call, h)
    ensures Elsewhere(KS.Do(k, e), call, h)
  {
    hide KS.Do, KS.KernelOk, SameObjects;
    KernelObjects.StepEffect(k, e);
  }

  lemma StrangerAfter(k: KS.Kernel, e: KS.Event, s: State, pid: seq<int>, h: Handles)
    requires KS.KernelOk(k) && KS.Enabled(k, e) && !KS.IsFork(e) && SameObjects(k, s, pid, h) && !Touches(k, e, h)
    ensures 0 <= k.procs.current < |k.calls|
    ensures Elsewhere(k, k.calls[k.procs.current], h) ==> Elsewhere(k, KernelObjects.CallAfter(k, e, k.procs.current), h)
  {
    hide KS.Do, KS.KernelOk, SameQueue;
  }

  lemma OthersAfter(k: KS.Kernel, e: KS.Event, s: State, pid: seq<int>, pid': seq<int>, h: Handles)
    requires KS.KernelOk(k) && KS.Enabled(k, e) && SameObjects(k, s, pid, h) && OthersElsewhere(k, pid, h)
    requires |pid| == 7 && (forall q: nat :: q in pid ==> q in pid' || (q == k.procs.current && e == KS.Exit))
    requires KS.IsFork(e) || k.procs.current in pid || !Touches(k, e, h)
    ensures OthersElsewhere(KS.Do(k, e), pid', h)
  {
    hide KS.Do, KS.KernelOk, SameObjects, Elsewhere, Touches, KernelObjects.CallAfter;
    KernelObjects.CallStep(k, e);
    var t := KS.Do(k, e);
    NoCallIsElsewhere(t, h);
    forall q: nat | q < |t.calls| && q !in pid' ensures Elsewhere(t, t.calls[q], h) {
      if KS.IsFork(e) || q != k.procs.current {
        ElsewhereAfter(k, e, s, pid, h, k.calls[q]);
      } else if q in pid {
        ExitHasNoCall(k);
      } else {
        StrangerAfter(k, e, s, pid, h);
        ElsewhereAfter(k, e, s, pid, h, KernelObjects.CallAfter(k, e, q));
      }
    }
  }

  lemma NoCallIsElsewhere(k: KS.Kernel, h: Handles)
    ensures Elsewhere(k, KS.NoCall, h)
  {
  }

  lemma ExitHasNoCall(k: KS.Kernel)
    requires KS.Enabled(k, KS.Exit)
    ensures 0 <= k.procs.current < |k.calls| && KernelObjects.CallAfter(k, KS.Exit, k.procs.current) == KS.NoCall
  {
  }

  // ----- one joint step -----

  /** A step of the programs, or none. */
  ghost predicate ProgramStep(cfg: Config, s: State, s': State) {
    Shape(s) && (s' == s || exists p :: Enabled(s, p) && s' == Step(cfg, s, p))
  }

  lemma UserStepKeeps(cfg: Config, k: KS.Kernel, s: State, pid: seq<int>, h: Handles, s': State, p: nat)
    requires Coupled(cfg, k, s, pid, h) && p <= KRYPTON && UserStep(cfg, k, s, pid, h, s', p)
    ensures Coupled(cfg, k, s', pid, h) && ProgramStep(cfg, s, s')
  {
    hide Inv, KS.KernelOk, SameQueue, OthersElsewhere, Next, Step, KernelLife.Lives;
    assert SameProcess(k, s, pid, h, p);
    CurrentIsAwake(cfg, k, s, pid, h, p);
    QuietStep(cfg, s, p, h);
    StepKeepsInv(cfg, s, p);
    NoReacquireNext(cfg, s, p, h);
    forall q: nat | q <= KRYPTON ensures SameProcess(k, s', pid, h, q) {
      assert SameProcess(k, s, pid, h, q);
      StaysCreated(cfg, s, p, q);
    }
  }

  lemma NoReacquireNext(cfg: Config, s: State, p: nat, h: Handles)
    requires Shape(s) && p <= KRYPTON && |h.conds| == 4 && NextCall(s, p, h) == None
    requires s.procs[p].pc != Reacquire
    ensures Next(cfg, s, p).procs[p].pc != Reacquire
  {
    hide MustWait, SignalsA, React, LoopTest, LockAcquire, LockRelease, SemSignal, SemWait, CondSignal, CondEnqueue;
  }

  lemma HasPid(k: KS.Kernel, s: State, pid: seq<int>, h: Handles, p: nat)
    requires SameProcesses(k, s, pid, h) && p <= KRYPTON
    ensures |pid| == 7 && pid[p] in pid
  {
  }

  /** A process of the network makes its kernel call. */
  lemma CallKeeps(cfg: Config, k: KS.Kernel, s: State, pid: seq<int>, h: Handles, p: nat, e: KS.Event)
    requires Coupled(cfg, k, s, pid, h) && p <= KRYPTON && pid[p] == k.procs.current >= 0 && s.procs[p].pc != Exited
    requires KS.Enabled(k, e) && NextCall(s, p, h) == Some(e) && !KS.Do(k, e).halted
    ensures Coupled(cfg, KS.Do(k, e), Next(cfg, s, p), pid, h) && ProgramStep(cfg, s, Next(cfg, s, p))
  {
    hide Inv, KS.Do, KS.KernelOk, SameObjects, SameProcesses, OthersElsewhere, Next, Step;
    CurrentIsAwake(cfg, k, s, pid, h, p);
    StepKeepsInv(cfg, s, p);
    KernelInvariant.DoOk(k, e);
    OwnCallObjects(cfg, k, s, pid, h, p, e);
    ProcessesAfterCall(cfg, k, s, pid, h, p, e);
    InvShape(cfg, s);
    HasPid(k, s, pid, h, p);
    OthersAfter(k, e, s, pid, pid, h);
  }

  lemma ResumeKeeps(cfg: Config, k: KS.Kernel, s: State, pid: seq<int>, h: Handles, p: nat)
    requires Coupled(cfg, k, s, pid, h) && p <= KRYPTON && pid[p] == k.procs.current >= 0
    requires KS.Enabled(k, KS.Resume) && !KS.Do(k, KS.Resume).halted
    ensures var t := if k.calls[pid[p]].InCond? then Next(cfg, s, p) else s;
      Coupled(cfg, KS.Do(k, KS.Resume), t, pid, h) && ProgramStep(cfg, s, t)
  {
    hide Inv, KS.Do, KS.KernelOk, SameObjects, SameProcesses, OthersElsewhere, Next, Step;
    KernelInvariant.DoOk(k, KS.Resume);
    ProcessesAfterResume(cfg, k, s, pid, h, p);
    InvShape(cfg, s);
    HasPid(k, s, pid, h, p);
    OthersAfter(k, KS.Resume, s, pid, pid, h);
    if k.calls[pid[p]].InCond? {
      ResumedPc(cfg, k, s, pid, h, p);
      CurrentIsAwake(cfg, k, s, pid, h, p);
      StepKeepsInv(cfg, s, p);
      ReacquireObjects(cfg, k, s, pid, h, p);
    } else {
      UntouchedObjects(k, KS.Resume, s, pid, h);
    }
  }

  /** A process of the network exits. */
  lemma ExitKeeps(cfg: Config, k: KS.Kernel, s: State, pid: seq<int>, h: Handles, p: nat)
    requires Coupled(cfg, k, s, pid, h) && p <= KRYPTON && pid[p] == k.procs.current >= 0 && s.procs[p].pc == Exited
    requires KS.Enabled(k, KS.Exit) && !KS.Do(k, KS.Exit).halted
    ensures Coupled(cfg, KS.Do(k, KS.Exit), s, pid[p := -1], h)
  {
    hide Inv, KS.Do, KS.KernelOk, SameObjects, SameQueue, OthersElsewhere, Fits, KernelLife.Lives;
    var t, pid' := KS.Do(k, KS.Exit), pid[p := -1];
    KernelInvariant.DoOk(k, KS.Exit);
    assert SameProcess(k, s, pid, h, p);
    forall q: nat | q <= KRYPTON ensures SameProcess(t, s, pid', h, q) {
      if q != p { BystanderKept(k, KS.Exit, s, s, pid, pid', h, q); }
    }
    assert k.procs.current in pid;
    forall q: nat | q in pid ensures q in pid' || q == k.procs.current {
      var i :| 0 <= i < 7 && pid[i] == q;
      assert pid'[i] == q || i == p;
    }
    OthersAfter(k, KS.Exit, s, pid, pid', h);
    UntouchedObjects(k, KS.Exit, s, pid, h);
    Forgotten(cfg, t, s, pid, h, p);
  }

  /** A process that has exited is on no queue of its program, and owns no lock. */
  lemma Forgotten(cfg: Config, k: KS.Kernel, s: State, pid: seq<int>, h: Handles, p: nat)
    requires Inv(cfg, s) && SameObjects(k, s, pid, h) && p <= KRYPTON && s.procs[p].pc == Exited
    ensures SameObjects(k, s, pid[p := -1], h)
  {
    ExitedIsNowhere(cfg, s, p);
  }

  lemma ExitedIsNowhere(cfg: Config, s: State, p: nat)
    requires Inv(cfg, s) && p <= KRYPTON && s.procs[p].pc == Exited
    ensures s.lock.pid != p && p !in s.lock.waiting && p !in s.sem.waiting
    ensures forall c :: 0 <= c < 4 ==> p !in s.conds[c].waiting
  {
  }

  /** Krypton creates its next child. */
  lemma SpawnKeeps(cfg: Config, k: KS.Kernel, s: State, pid: seq<int>, h: Handles, y: nat)
    requires Coupled(cfg, k, s, pid, h) && pid[KRYPTON] == k.procs.current >= 0 && s.procs[KRYPTON].pc == Spawn
    requires KS.Enabled(k, KS.Event.ForkFinish(y)) && !KS.Do(k, KS.Event.ForkFinish(y)).halted
    ensures s.procs[KRYPTON].i < CHILDREN
    ensures var t, s' := KS.Do(k, KS.Event.ForkFinish(y)), Next(cfg, s, KRYPTON);
      Coupled(cfg, t, s', pid[s.procs[KRYPTON].i := y], h) && ProgramStep(cfg, s, s')
  {
    hide Inv, KS.Do, KS.KernelOk, SameObjects, SameQueue, OthersElsewhere, Fits, Step;
    var e := KS.Event.ForkFinish(y);
    InvShape(cfg, s);
    ParentPcs(cfg, s);
    var t, s', c := KS.Do(k, e), Next(cfg, s, KRYPTON), s.procs[KRYPTON].i;
    var pid' := pid[c := y];
    CurrentIsAwake(cfg, k, s, pid, h, KRYPTON);
    StepKeepsInv(cfg, s, KRYPTON);
    KernelInvariant.DoOk(k, e);
    KernelLife.ChildLives(k, y);
    KernelObjects.CallStep(k, e);
    assert SameProcess(k, s, pid, h, c);
    forall q: nat | q <= KRYPTON ensures pid[q] != y { assert SameProcess(k, s, pid, h, q); }
    forall q: nat | q <= KRYPTON ensures SameProcess(t, s', pid', h, q) {
      assert SameProcess(k, s, pid, h, q);
      if q == c {
        assert Fits(KS.NoCall, s.procs[c].pc, c, h) by { FitsNoCall(s.procs[c].pc, c, h); }
      } else if q == KRYPTON {
        SpawnerFits(k, e, s, s', pid, h);
      } else {
        BystanderKept(k, e, s, s', pid, pid', h, q);
      }
    }
    UntouchedObjects(k, e, s, pid, h);
    ObjectsWithChild(t, s, s', pid, h, c, y);
    forall q: nat | q in pid ensures q in pid' {
      var i :| 0 <= i < 7 && pid[i] == q;
      assert pid'[i] == q;
    }
    OthersAfter(k, e, s, pid, pid', h);
  }

  lemma FitsNoCall(pc: Pc, p: nat, h: Handles)
    requires |h.conds| == 4
    ensures Fits(KS.NoCall, pc, p, h) <==> pc != Reacquire
  {
  }

  lemma SpawnerFits(k: KS.Kernel, e: KS.Event, s: State, s': State, pid: seq<int>, h: Handles)
    requires KS.KernelOk(k) && KS.Enabled(k, e) && e.ForkFinish? && |pid| == 7 && |h.conds| == 4 && Shape(s) && Shape(s')
    requires SameProcess(k, s, pid, h, KRYPTON) && s.procs[KRYPTON].pc == Spawn && pid[KRYPTON] >= 0
    requires s'.procs[KRYPTON].pc == Spawn || s'.procs[KRYPTON].pc == Await
    ensures forall pid' :: |pid'| == 7 && pid'[KRYPTON] == pid[KRYPTON] ==> SameProcess(KS.Do(k, e), s', pid', h, KRYPTON)
  {
    hide KS.Do, KS.KernelOk, KernelLife.Lives;
    KernelLife.LifeStep(k, e);
    KernelObjects.CallStep(k, e);
  }

  lemma ObjectsWithChild(k: KS.Kernel, s: State, s': State, pid: seq<int>, h: Handles, c: nat, y: nat)
    requires SameObjects(k, s, pid, h) && Shape(s') && |pid| == 7 && c < 7 && pid[c] < 0
    requires s'.lock == s.lock && s'.sem == s.sem && s'.conds == s.conds
    ensures SameObjects(k, s', pid[c := y], h)
  {
  }

  /** Forks by others, time slices, and steps of others. */
  lemma OthersKeep(cfg: Config, k: KS.Kernel, s: State, pid: seq<int>, h: Handles, e: KS.Event)
    requires Coupled(cfg, k, s, pid, h) && KS.Enabled(k, e) && !KS.Do(k, e).halted && !Touches(k, e, h)
    requires KS.IsFork(e) || e == KS.Timer || Who(pid, k.procs.current) == 7
    ensures Coupled(cfg, KS.Do(k, e), s, pid, h)
  {
    hide Inv, KS.Do, KS.KernelOk, SameObjects, SameProcesses, Elsewhere;
    KernelInvariant.DoOk(k, e);
    SevenPids(k, s, pid, h);
    if !KS.IsFork(e) { CurrentHasCall(k, e); }
    UntouchedObjects(k, e, s, pid, h);
    ProcessesUntouched(k, e, s, pid, h);
    OthersAfter(k, e, s, pid, pid, h);
  }

  lemma SevenPids(k: KS.Kernel, s: State, pid: seq<int>, h: Handles)
    requires SameProcesses(k, s, pid, h)
    ensures |pid| == 7
  {
  }

  lemma CurrentHasCall(k: KS.Kernel, e: KS.Event)
    requires KS.Enabled(k, e) && !KS.IsFork(e)
    ensures 0 <= k.procs.current < |k.calls|
  {
  }

  /** Every event of the kernel keeps the two sides together, and is one step of the programs or
      none. */
  lemma EventKeeps(cfg: Config, k: KS.Kernel, s: State, pid: seq<int>, h: Handles, e: KS.Event, s': State, pid': seq<int>)
    requires Coupled(cfg, k, s, pid, h) && KS.Enabled(k, e) && !KS.Do(k, e).halted
    requires EventStep(cfg, k, s, pid, h, e, s', pid')
    ensures Coupled(cfg, KS.Do(k, e), s', pid', h) && ProgramStep(cfg, s, s')
  {
    hide Coupled, KS.Do, KS.KernelOk, Next, Step;
    CoupledShape(cfg, k, s, pid, h);
    var p := Who(pid, k.procs.current);
    if e.ForkFinish? && p == KRYPTON && s.procs[KRYPTON].pc == Spawn {
      SpawnKeeps(cfg, k, s, pid, h, e.child);
    } else if KS.IsFork(e) || e == KS.Timer || p == 7 {
      OthersKeep(cfg, k, s, pid, h, e);
    } else if e == KS.Resume {
      CurrentHasCall(k, e);
      ResumeKeeps(cfg, k, s, pid, h, p);
    } else if e == KS.Exit {
      OnlyExitedExit(s, p, h);
      ExitKeeps(cfg, k, s, pid, h, p);
    } else {
      OnlyExitedExit(s, p, h);
      CallKeeps(cfg, k, s, pid, h, p, e);
    }
  }

  lemma CoupledShape(cfg: Config, k: KS.Kernel, s: State, pid: seq<int>, h: Handles)
    requires Coupled(cfg, k, s, pid, h)
    ensures KS.KernelOk(k) && !k.halted && Inv(cfg, s) && Shape(s) && |pid| == 7 && |h.conds| == 4
  {
  }

  lemma OnlyExitedExit(s: State, p: nat, h: Handles)
    requires Shape(s) && p <= KRYPTON && |h.conds| == 4
    ensures NextCall(s, p, h) == Some(KS.Exit) <==> s.procs[p].pc == Exited
  {
  }
}
