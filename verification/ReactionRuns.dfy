/** Whole runs of the reaction network: every schedule is safe, finite, free of deadlock and
    ends with the same counters. */
module ReactionRuns {
  import opened Synch
  import opened ReactionBudget
  import opened Reactions
  import opened ReactionInvariant

  lemma StepKeepsInv(cfg: Config, s: State, p: nat)
    requires Inv(cfg, s) && Enabled(s, p)
    ensures Inv(cfg, Step(cfg, s, p))
  {
    if p == KRYPTON {
      ParentKeepsInv(cfg, s);
    } else {
      ChildKeepsInv(cfg, s, p);
    }
  }

  lemma {:induction false} RunKeepsInv(cfg: Config, run: seq<State>, who: seq<nat>, k: nat)
    requires Feasible(cfg) && IsRun(cfg, run, who) && k < |run|
    ensures Inv(cfg, run[k])
  {
    if k == 0 {
      InitInv(cfg);
    } else {
      RunKeepsInv(cfg, run, who, k - 1);
      StepKeepsInv(cfg, run[k - 1], who[k - 1]);
    }
  }

  // ----- no deadlock -----

  predicate AllExited(s: State)
    requires Shape(s)
  {
    forall p :: 0 <= p < 7 ==> s.procs[p].pc == Exited
  }

  /** No lost wake-up: while the lock is free, a reaction asleep on its condition variable has
      nothing to do. */
  lemma NoLostWakeup(cfg: Config, s: State, r: nat)
    requires Inv(cfg, s) && s.lock.pid == NO_OWNER && IsReaction(r)
    requires r in s.conds[r - 2].waiting
    ensures MustWait(s.cnt, r)
  {
    assert !Critical(s.procs[0].pc) && !Critical(s.procs[1].pc) && !Critical(s.procs[2].pc)
        && !Critical(s.procs[3].pc);
  }

  /** While the lock is free, a producer that has not exited can run. */
  lemma ProducerCanRun(cfg: Config, s: State, p: nat)
    requires Inv(cfg, s) && s.lock.pid == NO_OWNER && p < REACTION_1 && p < s.procs[KRYPTON].i
    ensures Enabled(s, p) || (s.procs[p].pc == Exited && Fired(s.procs[p]) == Rounds(cfg, p))
  {
    assert PcOk(cfg, p, s.procs[p]);
  }

  /** While the lock is free, a reaction can run, or has exited, or sleeps with a false guard. */
  lemma ReactionCanRun(cfg: Config, s: State, r: nat)
    requires Inv(cfg, s) && s.lock.pid == NO_OWNER && IsReaction(r) && r < s.procs[KRYPTON].i
    ensures || Enabled(s, r)
            || (s.procs[r].pc == Exited && Fired(s.procs[r]) == Rounds(cfg, r))
            || (MustWait(s.cnt, r) && Fired(s.procs[r]) < Rounds(cfg, r))
    ensures Fired(s.procs[r]) <= Rounds(cfg, r)
  {
    assert PcOk(cfg, r, s.procs[r]);
    if r in s.conds[r - 2].waiting {
      NoLostWakeup(cfg, s, r);
    }
  }

  /** The owner of the lock can always run. */
  lemma OwnerCanRun(cfg: Config, s: State)
    requires Inv(cfg, s) && s.lock.pid != NO_OWNER && s.procs[KRYPTON].i == CHILDREN
    ensures Enabled(s, s.lock.pid)
  {
    var p: nat := s.lock.pid;
    assert Critical(s.procs[p].pc) && s.procs[p].pc != Reacquire && p !in s.lock.waiting;
    assert p !in s.conds[0].waiting && p !in s.conds[1].waiting;
    assert p !in s.conds[2].waiting && p !in s.conds[3].waiting;
  }

  lemma KryptonCanRun(cfg: Config, s: State)
    requires Inv(cfg, s)
    ensures Enabled(s, KRYPTON) || (s.procs[KRYPTON].i == CHILDREN && (s.procs[KRYPTON].pc == Exited || Completed(s.procs) < 6))
  {
    assert KRYPTON !in s.lock.waiting;
  }

  /** No deadlock: when no process can take a step, all seven have exited. */
  lemma NoDeadlock(cfg: Config, s: State)
    requires Inv(cfg, s) && Stuck(s)
    ensures AllExited(s)
  {
    KryptonCanRun(cfg, s);
    if s.lock.pid != NO_OWNER {
      OwnerCanRun(cfg, s);
      assert false;
    }
    ProducerCanRun(cfg, s, PRODUCER_N);
    ProducerCanRun(cfg, s, PRODUCER_O);
    ReactionCanRun(cfg, s, REACTION_1);
    ReactionCanRun(cfg, s, REACTION_2);
    ReactionCanRun(cfg, s, REACTION_3);
    ReactionCanRun(cfg, s, REACTION_4);
  }

  // ----- every run is finite -----

  /** Work left to child `p`; `asleep` says that it sleeps on its condition variable.  Waking
      reaction 3 or 4 costs two, because it tests its guard again. */
  function Work(cfg: Config, p: nat, me: Local, asleep: bool): int {
    match me.pc
    case Finish => 1
    case Exited => 0
    case Acquire => 20 * (Rounds(cfg, p) - me.i)
    case Check => 20 * (Rounds(cfg, p) - me.i) - 8
    case Reacquire =>
      20 * (Rounds(cfg, p) - me.i) - (if asleep then 9 else if p <= REACTION_2 then 10 else 7)
    case Update => 20 * (Rounds(cfg, p) - me.i) - 11
    case SignalA => 20 * (Rounds(cfg, p) - me.i) - 12
    case SignalB => 20 * (Rounds(cfg, p) - me.i) - 15
    case _ => 20 * (Rounds(cfg, p) - me.i) - 18
  }

  function ParentWork(me: Local): int {
    match me.pc
    case Spawn => 10 - me.i
    case Await => 3
    case Granted => 2
    case _ => 0
  }

  function WorkOf(cfg: Config, procs: seq<Local>, conds: seq<Cond>, p: nat): int
    requires |procs| == 7 && |conds| == 4 && p < CHILDREN
  {
    Work(cfg, p, procs[p], IsReaction(p) && conds[p - 2].waiting != [])
  }

  function Sum6(w: seq<int>): int
    requires |w| == 6
  {
    w[0] + w[1] + w[2] + w[3] + w[4] + w[5]
  }

  lemma Sum6Drops(w: seq<int>, w': seq<int>, p: nat, drop: nat, target: nat)
    requires |w| == 6 == |w'| && p < 6
    requires w'[p] <= w[p] - drop
    requires forall q :: 0 <= q < 6 && q != p ==> w'[q] <= w[q] + if q == target then 2 else 0
    ensures Sum6(w') <= Sum6(w) - drop + 2
    ensures target >= 6 ==> Sum6(w') <= Sum6(w) - drop
  {
  }

  function Works(cfg: Config, procs: seq<Local>, conds: seq<Cond>): (w: seq<int>)
    requires |procs| == 7 && |conds| == 4
    ensures |w| == 6
  {
    seq(6, p requires 0 <= p < 6 => WorkOf(cfg, procs, conds, p))
  }

  /** The variant of the whole system. */
  function Measure(cfg: Config, s: State): int
    requires Shape(s)
  {
    Sum6(Works(cfg, s.procs, s.conds)) + ParentWork(s.procs[KRYPTON])
  }

  lemma WorkIsNatural(cfg: Config, p: nat, me: Local, asleep: bool)
    requires PcOk(cfg, p, me)
    ensures Work(cfg, p, me, asleep) >= 0
  {
  }

  lemma MeasureIsNatural(cfg: Config, s: State)
    requires Inv(cfg, s)
    ensures Measure(cfg, s) >= 0
  {
    forall p | 0 <= p < CHILDREN
      ensures WorkOf(cfg, s.procs, s.conds, p) >= 0
    {
      WorkIsNatural(cfg, p, s.procs[p], IsReaction(p) && s.conds[p - 2].waiting != []);
    }
  }

  /** The step of `p` lowers its own work, by three or more if it signals. */
  lemma OwnWork(cfg: Config, s: State, p: nat)
    requires Shape(s) && p < CHILDREN && PcOk(cfg, p, s.procs[p]) && s.procs[p].pc != Exited && Feasible(cfg)
    requires IsReaction(p) ==> s.conds[p - 2].waiting == []
    ensures WorkOf(cfg, NextProcs(cfg, s, p), NextConds(s, p), p)
         <= WorkOf(cfg, s.procs, s.conds, p)
            - (if s.procs[p].pc == SignalA || s.procs[p].pc == SignalB then 3 else 1)
  {
  }

  /** The child that a signal of `p` may wake; `CHILDREN` stands for none. */
  function Target(s: State, p: nat): nat
    requires Shape(s) && p < CHILDREN
  {
    if s.procs[p].pc == SignalA then TargetA(p)
    else if s.procs[p].pc == SignalB then REACTION_4
    else CHILDREN
  }

  /** The step of `p` raises the work of another child `q` by at most two, and only by a signal. */
  lemma OtherWork(cfg: Config, s: State, p: nat, q: nat)
    requires Shape(s) && p < CHILDREN && q < CHILDREN && p != q
    ensures WorkOf(cfg, NextProcs(cfg, s, p), NextConds(s, p), q)
         <= WorkOf(cfg, s.procs, s.conds, q) + (if q == Target(s, p) then 2 else 0)
  {
  }

  lemma ChildDecreases(cfg: Config, s: State, p: nat)
    requires Shape(s) && p < CHILDREN && PcOk(cfg, p, s.procs[p]) && s.procs[p].pc != Exited && Feasible(cfg)
    requires IsReaction(p) ==> s.conds[p - 2].waiting == []
    ensures Sum6(Works(cfg, NextProcs(cfg, s, p), NextConds(s, p))) < Sum6(Works(cfg, s.procs, s.conds))
  {
    var w, w' := Works(cfg, s.procs, s.conds), Works(cfg, NextProcs(cfg, s, p), NextConds(s, p));
    OwnWork(cfg, s, p);
    forall q | 0 <= q < 6 && q != p
      ensures w'[q] <= w[q] + if q == Target(s, p) then 2 else 0
    {
      OtherWork(cfg, s, p, q);
    }
    Sum6Drops(w, w', p, if Target(s, p) < 6 then 3 else 1, Target(s, p));
  }

  lemma NobodyAsleepRuns(cfg: Config, s: State, p: nat)
    requires Inv(cfg, s) && Enabled(s, p) && p < CHILDREN
    ensures PcOk(cfg, p, s.procs[p]) && s.procs[p].pc != Exited && OwnsIfCritical(s, p)
    ensures IsReaction(p) ==> s.conds[p - 2].waiting == []
  {
  }

  lemma KryptonDecreases(cfg: Config, s: State)
    requires Inv(cfg, s) && Enabled(s, KRYPTON)
    ensures Measure(cfg, StepKrypton(s)) < Measure(cfg, s)
  {
    var t := StepKrypton(s);
    assert Works(cfg, t.procs, t.conds) == Works(cfg, s.procs, s.conds);
  }

  /** Every step lowers the variant. */
  lemma StepDecreases(cfg: Config, s: State, p: nat)
    requires Inv(cfg, s) && Enabled(s, p)
    ensures Measure(cfg, Step(cfg, s, p)) < Measure(cfg, s)
  {
    hide StepChild, StepKrypton, NextConds, NextLock, NextCounters, NextSem, Works, LockInv, ReactionInv,
         CountInv, ParentInv, PcOk;
    if p == KRYPTON {
      KryptonDecreases(cfg, s);
    } else {
      NobodyAsleepRuns(cfg, s, p);
      StepByParts(cfg, s, p);
      StepByQueues(cfg, s, p);
      ChildDecreases(cfg, s, p);
    }
  }

  /** Every run, under every schedule, is at most as long as the initial work. */
  lemma {:induction false} RunIsBounded(cfg: Config, run: seq<State>, who: seq<nat>, k: nat)
    requires Feasible(cfg) && IsRun(cfg, run, who) && k < |run|
    ensures 0 <= Measure(cfg, run[k]) <= Measure(cfg, run[0]) - k
  {
    hide Measure, Inv, Step, Feasible, Init;
    RunKeepsInv(cfg, run, who, k);
    MeasureIsNatural(cfg, run[k]);
    if k > 0 {
      RunIsBounded(cfg, run, who, k - 1);
      RunKeepsInv(cfg, run, who, k - 1);
      StepDecreases(cfg, run[k - 1], who[k - 1]);
    }
  }

  // ----- what the runs compute -----

  /** The counters that krypton's plan leads to. */
  function FinalCounters(cfg: Config): Counters {
    Counters(
      cfg.nAtoms % 2,
      cfg.oAtoms % 2,
      cfg.nAtoms / 2 - cfg.estNo2,
      cfg.oAtoms / 2 - 2 * cfg.estNo2 - 3 * cfg.estO3,
      2 * cfg.estNo2,
      2 * cfg.estO3)
  }

  /** From the moment when krypton's sem_wait has been granted, the counters are final. */
  lemma GrantedMeansFinal(cfg: Config, s: State)
    requires Inv(cfg, s)
    requires (s.procs[KRYPTON].pc == Granted && !Asleep(s, KRYPTON)) || s.procs[KRYPTON].pc == Exited
    ensures s.cnt == FinalCounters(cfg)
  {
    assert Completed(s.procs) == 6;
    assert forall p :: 0 <= p < CHILDREN ==> PcOk(cfg, p, s.procs[p]) && s.procs[p].pc == Exited;
  }

  /** Every run that cannot be continued ends with all seven processes gone and those counters. */
  lemma EndedRun(cfg: Config, run: seq<State>, who: seq<nat>)
    requires Feasible(cfg) && IsRun(cfg, run, who) && Stuck(run[|run| - 1])
    ensures AllExited(run[|run| - 1]) && run[|run| - 1].cnt == FinalCounters(cfg)
  {
    hide Inv, FinalCounters, Feasible, Step, Init, Stuck;
    var s := run[|run| - 1];
    RunKeepsInv(cfg, run, who, |run| - 1);
    NoDeadlock(cfg, s);
    GrantedMeansFinal(cfg, s);
  }

  lemma RunExtends(cfg: Config, run: seq<State>, who: seq<nat>, p: nat)
    requires IsRun(cfg, run, who) && Enabled(run[|run| - 1], p)
    ensures IsRun(cfg, run + [Step(cfg, run[|run| - 1], p)], who + [p])
  {
  }

  /** A bound on the length of all runs. */
  function Limit(cfg: Config): nat {
    20 * (Rounds(cfg, 0) + Rounds(cfg, 1) + Rounds(cfg, 2) + Rounds(cfg, 3) + Rounds(cfg, 4) + Rounds(cfg, 5)) + 16
  }

  lemma InitialWork(cfg: Config, w: seq<int>)
    requires w == Works(cfg, Init(cfg).procs, Init(cfg).conds)
    ensures forall p :: 0 <= p < CHILDREN ==> w[p] <= 20 * Rounds(cfg, p) + 1
  {
    forall p | 0 <= p < CHILDREN
      ensures w[p] <= 20 * Rounds(cfg, p) + 1
    {
      assert Init(cfg).procs[p] == Local(LoopTest(cfg, p, 0), 0);
    }
  }

  lemma InitialMeasure(cfg: Config)
    ensures Measure(cfg, Init(cfg)) <= Limit(cfg)
  {
    var w := Works(cfg, Init(cfg).procs, Init(cfg).conds);
    InitialWork(cfg, w);
    assert Measure(cfg, Init(cfg)) == Sum6(w) + 10;
  }

  /** No run takes more steps than this, whatever the schedule. */
  lemma EveryRunIsShort(cfg: Config, run: seq<State>, who: seq<nat>)
    requires Feasible(cfg) && IsRun(cfg, run, who)
    ensures |who| <= Limit(cfg)
  {
    RunIsBounded(cfg, run, who, |who|);
    InitialMeasure(cfg);
  }

  /** Every run can be continued to one that ends. */
  lemma {:induction false} EveryRunCanComplete(cfg: Config, run: seq<State>, who: seq<nat>)
      returns (run': seq<State>, who': seq<nat>)
    requires Feasible(cfg) && IsRun(cfg, run, who)
    ensures IsRun(cfg, run', who') && run <= run' && Stuck(run'[|run'| - 1])
    decreases Limit(cfg) - |who|
  {
    var s := run[|run| - 1];
    EveryRunIsShort(cfg, run, who);
    if p :| Enabled(s, p) {
      RunExtends(cfg, run, who, p);
      EveryRunIsShort(cfg, run + [Step(cfg, s, p)], who + [p]);
      run', who' := EveryRunCanComplete(cfg, run + [Step(cfg, s, p)], who + [p]);
    } else {
      run', who' := run, who;
    }
  }
}
