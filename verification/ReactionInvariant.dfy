/** The invariant of the reaction network, and its preservation by every step. */
module ReactionInvariant {
  import opened Sequences
  import opened Synch
  import opened ReactionBudget
  import opened Reactions

  /** Krypton hands out no more rounds than there will be molecules for, and none that the
      temperature breaks would cut off. */
  ghost predicate Feasible(cfg: Config) {
    && cfg.estNo2 <= cfg.nAtoms / 2
    && 2 * cfg.estNo2 + 3 * cfg.estO3 <= cfg.oAtoms / 2
    && (cfg.temperature > 120 ==> cfg.estNo2 == 0)
    && (cfg.temperature < 60 ==> cfg.estO3 == 0)
  }

  /** Positions at which a child owns the lock, or is queued for it inside a kernel call. */
  predicate Critical(pc: Pc) {
    pc == Check || pc == Update || pc == SignalA || pc == SignalB || pc == Release
  }

  /** Updates of the counters that a child has made. */
  function Fired(me: Local): nat {
    me.i + if me.pc == SignalA || me.pc == SignalB || me.pc == Release then 1 else 0
  }

  function Signalled(me: Local): nat {
    if me.pc == Exited then 1 else 0
  }

  function Completed(procs: seq<Local>): nat
    requires |procs| == 7
  {
    Signalled(procs[0]) + Signalled(procs[1]) + Signalled(procs[2])
    + Signalled(procs[3]) + Signalled(procs[4]) + Signalled(procs[5])
  }

  /** A process that owns the lock is about to signal reaction `r`. */
  predicate SignalPending(procs: seq<Local>, r: nat)
    requires |procs| == 7
  {
    if r == REACTION_1 then procs[PRODUCER_N].pc == SignalA
    else if r == REACTION_2 then procs[PRODUCER_O].pc == SignalA
    else if r == REACTION_3 then procs[REACTION_1].pc == SignalA || procs[REACTION_2].pc == SignalA
    else procs[REACTION_2].pc == SignalA || procs[REACTION_2].pc == SignalB
  }

  ghost predicate PcOk(cfg: Config, p: nat, me: Local) {
    && me.i <= Rounds(cfg, p)
    && (match me.pc
        case Acquire => me.i < Rounds(cfg, p)
        case Check => IsReaction(p) && me.i < Rounds(cfg, p)
        case Reacquire => IsReaction(p) && me.i < Rounds(cfg, p)
        case Update => me.i < Rounds(cfg, p)
        case SignalA => p <= REACTION_2 && me.i < Rounds(cfg, p)
        case SignalB => p == REACTION_2 && me.i < Rounds(cfg, p)
        case Release => me.i < Rounds(cfg, p)
        case Finish => me.i == Rounds(cfg, p)
        case Exited => me.i == Rounds(cfg, p)
        case _ => false)
  }

  /** The lock is held by, or promised to, exactly the children in a critical position; a
      child queued for it is at the point where the kernel call will return. */
  ghost predicate LockInv(lock: Lock, procs: seq<Local>)
    requires |procs| == 7
  {
    && lock.inuse
    && LockOk(lock)
    && lock.pid < CHILDREN
    && (forall q :: q in lock.waiting ==> q < CHILDREN)
    && (forall p :: 0 <= p < CHILDREN ==>
          (Critical(procs[p].pc) <==> (lock.pid == p || p in lock.waiting)))
    && (forall p :: 0 <= p < CHILDREN && p in lock.waiting ==>
          procs[p].pc == (if REACTION_3 <= p then Check else procs[p].pc)
          && (procs[p].pc == Check || procs[p].pc == Update))
  }

  /** Reaction `r` is the only possible sleeper on its condition variable `c`.  While it sleeps
      there, its guard fails or a signal is on its way; once it is past the guard, or woken by
      a signal after which it does not test again, it may fire. */
  ghost predicate ReactionInv(cnt: Counters, c: Cond, procs: seq<Local>, r: nat)
    requires |procs| == 7 && IsReaction(r)
  {
    && (c.waiting == [] || c.waiting == [r])
    && (c.waiting == [r] ==> procs[r].pc == Reacquire && (MustWait(cnt, r) || SignalPending(procs, r)))
    && (procs[r].pc == Update ==> !MustWait(cnt, r))
    && (r <= REACTION_2 && procs[r].pc == Reacquire && c.waiting == [] ==> !MustWait(cnt, r))
  }

  /** Every counter is what the updates made so far leave of it. */
  ghost predicate Balanced(c: Counters, f0: nat, f1: nat, f2: nat, f3: nat, f4: nat, f5: nat) {
    && c.n == f0 - 2 * f2 >= 0
    && c.o == f1 - 2 * f3 >= 0
    && c.n2 == f2 - f4 >= 0
    && c.o2 == f3 - 2 * f4 - 3 * f5 >= 0
    && c.no2 == 2 * f4
    && c.o3 == 2 * f5
  }

  ghost predicate CountInv(c: Counters, procs: seq<Local>)
    requires |procs| == 7
  {
    Balanced(c, Fired(procs[0]), Fired(procs[1]), Fired(procs[2]),
             Fired(procs[3]), Fired(procs[4]), Fired(procs[5]))
  }

  /** The completion semaphore lets krypton pass only after six signals. */
  ghost predicate ParentInv(sem: Sem, me: Local, completed: nat) {
    var granted := me.pc == Exited || (me.pc == Granted && sem.waiting == []);
    && (me.pc == Spawn || me.pc == Await || me.pc == Granted || me.pc == Exited)
    && (if me.pc == Spawn then me.i < CHILDREN else me.i == CHILDREN)
    && (sem.waiting == [] || sem.waiting == [KRYPTON])
    && (sem.waiting == [KRYPTON] ==> me.pc == Granted && sem.count <= 0)
    && sem.count == -5 + completed - (if granted then 1 else 0)
    && (granted ==> completed == 6)
  }

  ghost predicate Inv(cfg: Config, s: State) {
    && Shape(s)
    && !s.halted
    && Feasible(cfg)
    && (forall p :: 0 <= p < CHILDREN ==> PcOk(cfg, p, s.procs[p]))
    && LockInv(s.lock, s.procs)
    && ReactionInv(s.cnt, s.conds[0], s.procs, REACTION_1)
    && ReactionInv(s.cnt, s.conds[1], s.procs, REACTION_2)
    && ReactionInv(s.cnt, s.conds[2], s.procs, REACTION_3)
    && ReactionInv(s.cnt, s.conds[3], s.procs, REACTION_4)
    && CountInv(s.cnt, s.procs)
    && ParentInv(s.sem, s.procs[KRYPTON], Completed(s.procs))
  }

  lemma InitPcs(cfg: Config, procs: seq<Local>)
    requires Feasible(cfg) && |procs| == 7 && procs[KRYPTON] == Local(Spawn, 0)
    requires forall p :: 0 <= p < CHILDREN ==> procs[p] == Local(LoopTest(cfg, p, 0), 0)
    ensures forall p :: 0 <= p < CHILDREN ==> PcOk(cfg, p, procs[p]) && !Critical(procs[p].pc) && procs[p].pc != Reacquire
    ensures forall p :: 0 <= p < CHILDREN ==> Fired(procs[p]) == Signalled(procs[p]) == 0
  {
  }

  lemma InitLock(lock: Lock, procs: seq<Local>)
    requires |procs| == 7 && lock == Lock(true, NO_OWNER, [])
    requires forall p :: 0 <= p < CHILDREN ==> !Critical(procs[p].pc)
    ensures LockInv(lock, procs)
  {
  }

  lemma InitInv(cfg: Config)
    requires Feasible(cfg)
    ensures Inv(cfg, Init(cfg))
  {
    var procs := Init(cfg).procs;
    assert forall p :: 0 <= p < CHILDREN ==> procs[p] == Local(LoopTest(cfg, p, 0), 0);
    InitPcs(cfg, procs);
    InitLock(Init(cfg).lock, procs);
    assert Completed(procs) == 0;
  }

  /** A running child in a critical position is the owner of the lock. */
  predicate OwnsIfCritical(s: State, p: nat)
    requires Shape(s) && p < CHILDREN
  {
    Critical(s.procs[p].pc) ==> s.lock.pid == p
  }

  /** At most one process that can run is between lock_acquire and lock_release. */
  lemma MutualExclusion(cfg: Config, s: State, p: nat, q: nat)
    requires Inv(cfg, s) && p < CHILDREN && q < CHILDREN && p != q
    requires Enabled(s, p) && Enabled(s, q)
    ensures !(Critical(s.procs[p].pc) && Critical(s.procs[q].pc))
  {
  }

  // What one step of child `p` makes of each part of the state.

  function NextLocal(cfg: Config, s: State, p: nat): Local
    requires Shape(s) && p < CHILDREN
  {
    var me := s.procs[p];
    match me.pc
    case Acquire => me.(pc := if IsReaction(p) then Check else Update)
    case Check => me.(pc := if IsReaction(p) && MustWait(s.cnt, p) then Reacquire else Update)
    case Reacquire => me.(pc := if p <= REACTION_2 then Update else Check)
    case Update => me.(pc := if p <= REACTION_2 then SignalA else Release)
    case SignalA => me.(pc := if p == REACTION_2 then SignalB else Release)
    case SignalB => me.(pc := Release)
    case Release => Local(LoopTest(cfg, p, me.i + 1), me.i + 1)
    case Finish => me.(pc := Exited)
    case _ => me
  }

  function NextCounters(s: State, p: nat): Counters
    requires Shape(s) && p < CHILDREN
  {
    if s.procs[p].pc == Update then React(s.cnt, p) else s.cnt
  }

  function NextLock(s: State, p: nat): Lock
    requires Shape(s) && p < CHILDREN
  {
    match s.procs[p].pc
    case Acquire => LockAcquire(s.lock, p).obj
    case Reacquire => LockAcquire(s.lock, p).obj
    case Check => if IsReaction(p) && MustWait(s.cnt, p) then LockRelease(s.lock).obj else s.lock
    case Release => LockRelease(s.lock).obj
    case _ => s.lock
  }

  function NextConds(s: State, p: nat): (conds: seq<Cond>)
    requires Shape(s) && p < CHILDREN
    ensures |conds| == 4
  {
    match s.procs[p].pc
    case Check =>
      if IsReaction(p) && MustWait(s.cnt, p) then s.conds[p - 2 := CondEnqueue(s.conds[p - 2], p)] else s.conds
    case SignalA =>
      var r := TargetA(p);
      if SignalsA(s.cnt, p) then s.conds[r - 2 := CondSignal(s.conds[r - 2]).obj] else s.conds
    case SignalB =>
      if s.cnt.o2 > 2 then s.conds[3 := CondSignal(s.conds[3]).obj] else s.conds
    case _ => s.conds
  }

  function NextSem(s: State, p: nat): Sem
    requires Shape(s) && p < CHILDREN
  {
    if s.procs[p].pc == Finish then SemSignal(s.sem).obj else s.sem
  }

  function NextProcs(cfg: Config, s: State, p: nat): (procs: seq<Local>)
    requires Shape(s) && p < CHILDREN
    ensures |procs| == 7
  {
    s.procs[p := NextLocal(cfg, s, p)]
  }

  lemma StepByParts(cfg: Config, s: State, p: nat)
    requires Shape(s) && p < CHILDREN && OwnsIfCritical(s, p)
    ensures var t := StepChild(cfg, s, p);
      && t.halted == s.halted
      && t.procs == NextProcs(cfg, s, p)
      && t.cnt == NextCounters(s, p)
  {
    hide StepChild, NextProcs, NextCounters;
    StepOfProcs(cfg, s, p);
    StepOfCounters(cfg, s, p);
  }

  lemma StepOfProcs(cfg: Config, s: State, p: nat)
    requires Shape(s) && p < CHILDREN && OwnsIfCritical(s, p)
    ensures StepChild(cfg, s, p).procs == NextProcs(cfg, s, p)
  {
    hide LockAcquire, LockRelease, CondSignal, CondEnqueue, SemSignal, MustWait, React, SignalsA, LoopTest;
  }

  lemma StepOfCounters(cfg: Config, s: State, p: nat)
    requires Shape(s) && p < CHILDREN && OwnsIfCritical(s, p)
    ensures StepChild(cfg, s, p).cnt == NextCounters(s, p) && StepChild(cfg, s, p).halted == s.halted
  {
    hide LockAcquire, LockRelease, CondSignal, CondEnqueue, SemSignal, MustWait, React, SignalsA, LoopTest;
  }

  lemma StepByQueues(cfg: Config, s: State, p: nat)
    requires Shape(s) && p < CHILDREN && OwnsIfCritical(s, p)
    ensures var t := StepChild(cfg, s, p);
      && t.lock == NextLock(s, p)
      && t.conds == NextConds(s, p)
      && t.sem == NextSem(s, p)
  {
    hide StepChild, NextLock, NextConds, NextSem;
    StepOfLock(cfg, s, p);
    StepOfConds(cfg, s, p);
  }

  lemma StepOfLock(cfg: Config, s: State, p: nat)
    requires Shape(s) && p < CHILDREN && OwnsIfCritical(s, p)
    ensures StepChild(cfg, s, p).lock == NextLock(s, p) && StepChild(cfg, s, p).sem == NextSem(s, p)
  {
    hide LockAcquire, LockRelease, CondSignal, CondEnqueue, SemSignal, MustWait, React, SignalsA, LoopTest;
  }

  lemma StepOfConds(cfg: Config, s: State, p: nat)
    requires Shape(s) && p < CHILDREN && OwnsIfCritical(s, p)
    ensures StepChild(cfg, s, p).conds == NextConds(s, p)
  {
    hide LockAcquire, LockRelease, CondSignal, CondEnqueue, SemSignal, MustWait, React, SignalsA, LoopTest;
  }

  lemma KeepsPcs(cfg: Config, s: State, p: nat)
    requires Shape(s) && Feasible(cfg) && p < CHILDREN
    requires forall q :: 0 <= q < CHILDREN ==> PcOk(cfg, q, s.procs[q])
    ensures forall q :: 0 <= q < CHILDREN ==> PcOk(cfg, q, NextProcs(cfg, s, p)[q])
  {
  }

  lemma AcquireKeepsLock(cfg: Config, s: State, p: nat)
    requires Shape(s) && p < CHILDREN && PcOk(cfg, p, s.procs[p])
    requires s.procs[p].pc == Acquire || s.procs[p].pc == Reacquire
    requires LockInv(s.lock, s.procs)
    ensures LockInv(NextLock(s, p), NextProcs(cfg, s, p))
  {
  }

  lemma ReleaseKeepsLock(cfg: Config, s: State, p: nat)
    requires Shape(s) && p < CHILDREN && OwnsIfCritical(s, p) && PcOk(cfg, p, s.procs[p])
    requires s.procs[p].pc == Release || (s.procs[p].pc == Check && MustWait(s.cnt, p))
    requires LockInv(s.lock, s.procs)
    ensures LockInv(NextLock(s, p), NextProcs(cfg, s, p))
  {
    if s.lock.waiting != [] {
      HeadAndTail(s.lock.waiting);
    }
  }

  lemma KeepsLock(cfg: Config, s: State, p: nat)
    requires Shape(s) && p < CHILDREN && OwnsIfCritical(s, p) && PcOk(cfg, p, s.procs[p])
    requires LockInv(s.lock, s.procs)
    ensures LockInv(NextLock(s, p), NextProcs(cfg, s, p))
  {
    match s.procs[p].pc {
      case Acquire => AcquireKeepsLock(cfg, s, p);
      case Reacquire => AcquireKeepsLock(cfg, s, p);
      case Release => ReleaseKeepsLock(cfg, s, p);
      case Check => if MustWait(s.cnt, p) { ReleaseKeepsLock(cfg, s, p); }
      case _ =>
    }
  }

  lemma KeepsReaction(cfg: Config, s: State, p: nat, r: nat)
    requires Shape(s) && p < CHILDREN && IsReaction(r) && PcOk(cfg, p, s.procs[p])
    requires ReactionInv(s.cnt, s.conds[r - 2], s.procs, r)
    requires p == r && s.procs[p].pc == Reacquire ==> s.conds[r - 2].waiting == []
    requires p != r && Critical(s.procs[p].pc) && REACTION_3 <= r ==> s.procs[r].pc != Update
    ensures ReactionInv(NextCounters(s, p), NextConds(s, p)[r - 2], NextProcs(cfg, s, p), r)
  {
  }

  lemma FiredOnUpdate(cfg: Config, s: State, p: nat)
    requires Shape(s) && p < CHILDREN && PcOk(cfg, p, s.procs[p])
    ensures Fired(NextLocal(cfg, s, p)) == Fired(s.procs[p]) + if s.procs[p].pc == Update then 1 else 0
  {
  }

  lemma KeepsCounts(cfg: Config, s: State, p: nat)
    requires Shape(s) && p < CHILDREN && PcOk(cfg, p, s.procs[p])
    requires CountInv(s.cnt, s.procs)
    requires IsReaction(p) && s.procs[p].pc == Update ==> !MustWait(s.cnt, p)
    ensures CountInv(NextCounters(s, p), NextProcs(cfg, s, p))
  {
    var l := NextLocal(cfg, s, p);
    assert Fired(l) == Fired(s.procs[p]) + if s.procs[p].pc == Update then 1 else 0 by {
      FiredOnUpdate(cfg, s, p);
    }
    CountsAfter(s.cnt, s.procs, p, l, s.procs[p].pc == Update);
  }

  lemma CountsAfter(c: Counters, procs: seq<Local>, p: nat, l: Local, fires: bool)
    requires |procs| == 7 && p < CHILDREN && CountInv(c, procs)
    requires Fired(l) == Fired(procs[p]) + if fires then 1 else 0
    requires IsReaction(p) && fires ==> !MustWait(c, p)
    ensures CountInv(if fires then React(c, p) else c, procs[p := l])
  {
  }

  lemma KeepsParent(cfg: Config, s: State, p: nat)
    requires Shape(s) && p < CHILDREN && s.procs[p].pc != Exited
    requires ParentInv(s.sem, s.procs[KRYPTON], Completed(s.procs))
    ensures ParentInv(NextSem(s, p), s.procs[KRYPTON], Completed(NextProcs(cfg, s, p)))
  {
  }

  lemma LockInvOfChildren(lock: Lock, procs: seq<Local>, procs': seq<Local>)
    requires |procs| == 7 == |procs'| && LockInv(lock, procs)
    requires forall p :: 0 <= p < CHILDREN ==> procs'[p] == procs[p]
    ensures LockInv(lock, procs')
  {
  }

  lemma ParentKeepsParent(s: State)
    requires Shape(s) && !Asleep(s, KRYPTON)
    requires ParentInv(s.sem, s.procs[KRYPTON], Completed(s.procs))
    ensures var t := StepKrypton(s);
      ParentInv(t.sem, t.procs[KRYPTON], Completed(t.procs))
  {
  }

  lemma ParentKeepsInv(cfg: Config, s: State)
    requires Inv(cfg, s) && Enabled(s, KRYPTON)
    ensures Inv(cfg, StepKrypton(s))
  {
    var t := StepKrypton(s);
    assert forall p :: 0 <= p < CHILDREN ==> t.procs[p] == s.procs[p];
    LockInvOfChildren(s.lock, s.procs, t.procs);
    ParentKeepsParent(s);
  }

  lemma ChildKeepsInv(cfg: Config, s: State, p: nat)
    requires Inv(cfg, s) && p < CHILDREN && Enabled(s, p)
    ensures Inv(cfg, StepChild(cfg, s, p))
  {
    hide StepChild, NextLock, NextConds, NextCounters, NextSem, CountInv, ParentInv;
    StepByParts(cfg, s, p);
    StepByQueues(cfg, s, p);
    KeepsPcs(cfg, s, p);
    KeepsLock(cfg, s, p);
    KeepsReaction(cfg, s, p, REACTION_1);
    KeepsReaction(cfg, s, p, REACTION_2);
    KeepsReaction(cfg, s, p, REACTION_3);
    KeepsReaction(cfg, s, p, REACTION_4);
    KeepsCounts(cfg, s, p);
    KeepsParent(cfg, s, p);
  }
}
