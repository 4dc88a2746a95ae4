/** The parent of the reaction network (apps/q5/krypton/krypton.c): what its plan, handed to the
    children as text, leads to in every run. */
module Krypton {
  import Numbers
  import opened Synch
  import opened ReactionBudget
  import opened Reactions
  import opened ReactionInvariant
  import opened ReactionRuns

  // ----- numbers on command lines -----

  /** What a child reads with dstrtol when krypton has written `n` with ditoa. */
  function Passed(n: int): int
    requires n < Numbers.GREATEST
  {
    Numbers.ReturnsExactly(n);
    Numbers.Parse(Numbers.Printed(n).value + ['\0'], 0, 10).0
  }

  lemma PassedIs(n: int)
    requires n < Numbers.GREATEST
    ensures n < 0 ==> Passed(n) == 0
    ensures 0 <= n < Numbers.LIMIT ==> Passed(n) == n
    ensures Numbers.LIMIT <= n ==> Passed(n) < Numbers.LIMIT && (Passed(n) < 60 <==> Numbers.IsCut(n))
  {
    hide Numbers.Printed, Numbers.Parse;
    if n < 0 {
      Numbers.NegativesAreLost(n);
    } else if n < Numbers.LIMIT {
      Numbers.RoundTrip(n, ['\0']);
    } else {
      Numbers.ReadsFew(n);
      Numbers.PrintsNineCharacters(n);
      Numbers.ShortTextsAreSmall(Numbers.Printed(n).value + ['\0']);
    }
  }

  /** The rounds of a loop that counts up to that number. */
  function Times(n: int): nat
    requires n < Numbers.GREATEST
  {
    if Passed(n) > 0 then Passed(n) else 0
  }

  /** ditoa returns for all the numbers. */
  predicate Returns(nAtoms: int, oAtoms: int, temperature: int) {
    nAtoms < Numbers.GREATEST && oAtoms < Numbers.GREATEST && temperature < Numbers.GREATEST
  }

  /** What the planning loop starts with: num_n_i / 2, where a negative result counts as none. */
  function Pairs(atoms: int): nat { Positive(atoms) / 2 }

  lemma PlanReturns(nAtoms: int, oAtoms: int, temperature: int)
    requires Returns(nAtoms, oAtoms, temperature)
    ensures var (a, b) := Budget(Pairs(nAtoms), Pairs(oAtoms), temperature);
      a < Numbers.LIMIT && b < Numbers.LIMIT
  {
    hide Budget;
    BudgetIsFeasibleAndExhaustive(Pairs(nAtoms), Pairs(oAtoms), temperature);
    var (a, b) := Budget(Pairs(nAtoms), Pairs(oAtoms), temperature);
    assert a <= Pairs(nAtoms) && 3 * b <= Pairs(oAtoms);
  }

  function Plan(nAtoms: int, oAtoms: int, temperature: int): Config
    requires Returns(nAtoms, oAtoms, temperature)
  {
    PlanReturns(nAtoms, oAtoms, temperature);
    var (a, b) := Budget(Pairs(nAtoms), Pairs(oAtoms), temperature);
    Config(Times(nAtoms), Times(oAtoms), Passed(temperature), Times(a), Times(b))
  }

  /** The children do what krypton planned: the numbers of atoms have at most nine digits, and so
      has the temperature, or enough of it is read for reaction 4 to go on. */
  predicate Arrives(nAtoms: int, oAtoms: int, temperature: int)
    requires Returns(nAtoms, oAtoms, temperature)
  {
    && nAtoms < Numbers.LIMIT && oAtoms < Numbers.LIMIT
    && (temperature < Numbers.LIMIT || !Numbers.IsCut(temperature) || oAtoms < 6)
  }

  /** The plan as the children see it; numbers below zero are read as 0, which makes no difference. */
  lemma PlanIs(nAtoms: int, oAtoms: int, temperature: int)
    requires Returns(nAtoms, oAtoms, temperature)
    ensures var (a, b) := Budget(Pairs(nAtoms), Pairs(oAtoms), temperature);
      && Plan(nAtoms, oAtoms, temperature) == Config(Times(nAtoms), Times(oAtoms), Passed(temperature), a, b)
      && (nAtoms < Numbers.LIMIT ==> Times(nAtoms) == Positive(nAtoms))
      && (oAtoms < Numbers.LIMIT ==> Times(oAtoms) == Positive(oAtoms))
  {
    hide Passed, Budget;
    PlanReturns(nAtoms, oAtoms, temperature);
    var (a, b) := Budget(Pairs(nAtoms), Pairs(oAtoms), temperature);
    PassedIs(a);
    PassedIs(b);
    PassedIs(nAtoms);
    PassedIs(oAtoms);
  }

  lemma PlanIsFeasible(nAtoms: int, oAtoms: int, temperature: int)
    requires Returns(nAtoms, oAtoms, temperature) && Arrives(nAtoms, oAtoms, temperature)
    ensures Feasible(Plan(nAtoms, oAtoms, temperature))
  {
    hide Passed, Budget, Times;
    PlanIs(nAtoms, oAtoms, temperature);
    PassedIs(temperature);
    BudgetIsFeasibleAndExhaustive(Pairs(nAtoms), Pairs(oAtoms), temperature);
  }

  // ----- every state of every run -----

  /** In every state of every run no counter is negative, and atoms are neither lost nor made:
      the molecules account for every atom that the producers have released. */
  lemma AtomsAreConserved(nAtoms: int, oAtoms: int, temperature: int, run: seq<State>, who: seq<nat>, k: nat)
    requires Returns(nAtoms, oAtoms, temperature) && Arrives(nAtoms, oAtoms, temperature)
    requires IsRun(Plan(nAtoms, oAtoms, temperature), run, who) && k < |run|
    ensures var c := run[k].cnt;
      && c.n >= 0 && c.o >= 0 && c.n2 >= 0 && c.o2 >= 0 && c.no2 >= 0 && c.o3 >= 0
      && c.n + 2 * c.n2 + c.no2 == Fired(run[k].procs[PRODUCER_N]) <= Positive(nAtoms)
      && c.o + 2 * c.o2 + 2 * c.no2 + 3 * c.o3 == Fired(run[k].procs[PRODUCER_O]) <= Positive(oAtoms)
    ensures !run[k].halted
  {
    hide Plan, Arrives, Times, Budget;
    var cfg := Plan(nAtoms, oAtoms, temperature);
    PlanIsFeasible(nAtoms, oAtoms, temperature);
    ReadInFull(nAtoms, oAtoms, temperature);
    RunKeepsInv(cfg, run, who, k);
    assert PcOk(cfg, PRODUCER_N, run[k].procs[PRODUCER_N]) && PcOk(cfg, PRODUCER_O, run[k].procs[PRODUCER_O]);
  }

  lemma ReadInFull(nAtoms: int, oAtoms: int, temperature: int)
    requires Returns(nAtoms, oAtoms, temperature) && Arrives(nAtoms, oAtoms, temperature)
    ensures var cfg := Plan(nAtoms, oAtoms, temperature);
      var (a, b) := Budget(Pairs(nAtoms), Pairs(oAtoms), temperature);
      cfg.nAtoms == Positive(nAtoms) && cfg.oAtoms == Positive(oAtoms) && cfg.estNo2 == a && cfg.estO3 == b
  {
    hide Plan, Times, Passed, Budget;
    PlanIs(nAtoms, oAtoms, temperature);
  }

  /** In every state of every run: no wake-up has been lost, since a reaction that sleeps while the
      lock is free has a false condition; and the guards by `if` are safe, since a reaction that has
      been woken, or is past its guard, has its atoms. */
  lemma NoWakeupIsLost(nAtoms: int, oAtoms: int, temperature: int, run: seq<State>, who: seq<nat>, k: nat, r: nat)
    requires Returns(nAtoms, oAtoms, temperature) && Arrives(nAtoms, oAtoms, temperature)
    requires IsRun(Plan(nAtoms, oAtoms, temperature), run, who) && k < |run| && IsReaction(r)
    ensures var s := run[k];
      && (s.lock.pid == NO_OWNER && r in s.conds[r - 2].waiting ==> MustWait(s.cnt, r))
      && (r <= REACTION_2 && s.procs[r].pc == Reacquire && r !in s.conds[r - 2].waiting ==> !MustWait(s.cnt, r))
      && (s.procs[r].pc == Update ==> !MustWait(s.cnt, r))
  {
    hide MustWait, Step, Init, CountInv, ParentInv, Plan, Arrives;
    var cfg := Plan(nAtoms, oAtoms, temperature);
    PlanIsFeasible(nAtoms, oAtoms, temperature);
    RunKeepsInv(cfg, run, who, k);
    if run[k].lock.pid == NO_OWNER && r in run[k].conds[r - 2].waiting { NoLostWakeup(cfg, run[k], r); }
  }

  /** In every state of every run at most one process that can run is inside the critical section. */
  lemma RunsExcludeMutually(nAtoms: int, oAtoms: int, temperature: int, run: seq<State>, who: seq<nat>, k: nat,
          p: nat, q: nat)
    requires Returns(nAtoms, oAtoms, temperature) && Arrives(nAtoms, oAtoms, temperature)
    requires IsRun(Plan(nAtoms, oAtoms, temperature), run, who) && k < |run| && p < q < CHILDREN
    requires Enabled(run[k], p) && Enabled(run[k], q)
    ensures !(Critical(run[k].procs[p].pc) && Critical(run[k].procs[q].pc))
  {
    hide Plan, Arrives;
    PlanIsFeasible(nAtoms, oAtoms, temperature);
    RunKeepsInv(Plan(nAtoms, oAtoms, temperature), run, who, k);
    MutualExclusion(Plan(nAtoms, oAtoms, temperature), run[k], p, q);
  }

  // ----- the outcome -----

  /** The counters that krypton plans for. */
  function Outcome(nAtoms: int, oAtoms: int, temperature: int): Counters {
    var (a, b) := Budget(Pairs(nAtoms), Pairs(oAtoms), temperature);
    Counters(Positive(nAtoms) % 2, Positive(oAtoms) % 2, Pairs(nAtoms) - a, Pairs(oAtoms) - 2 * a - 3 * b, 2 * a, 2 * b)
  }

  /** The planned counters in terms of the atoms: at most one atom of each kind is left, all others are
      in molecules, and the reactions have gone as far as they can, taking turns. */
  lemma OutcomeIs(nAtoms: int, oAtoms: int, temperature: int)
    ensures var c := Outcome(nAtoms, oAtoms, temperature);
      && 0 <= c.n <= 1 && 0 <= c.o <= 1 && c.n2 >= 0 && c.o2 >= 0
      && c.n + 2 * c.n2 + c.no2 == (if nAtoms < 0 then 0 else nAtoms)
      && c.o + 2 * c.o2 + 2 * c.no2 + 3 * c.o3 == (if oAtoms < 0 then 0 else oAtoms)
      && c.no2 % 2 == 0 && c.o3 % 2 == 0 && c.no2 >= 0 && c.o3 >= 0
      && IsPlan(c.n2 + c.no2 / 2, c.o2 + c.no2 + 3 * (c.o3 / 2), temperature, c.no2 / 2, c.o3 / 2)
  {
    hide Budget, IsPlan;
    BudgetIsFeasibleAndExhaustive(Pairs(nAtoms), Pairs(oAtoms), temperature);
    var (a, b) := Budget(Pairs(nAtoms), Pairs(oAtoms), temperature);
    PlanIsBudget(Pairs(nAtoms), Pairs(oAtoms), temperature, a, b);
  }

  /** The main theorem on outcomes.  Every run that cannot be continued ends with all seven
      processes gone, with counters that depend on the arguments only, and with neither
      reaction 3 nor reaction 4 possible any more. */
  lemma EveryScheduleEndsAlike(nAtoms: int, oAtoms: int, temperature: int, run: seq<State>, who: seq<nat>)
    requires Returns(nAtoms, oAtoms, temperature) && Arrives(nAtoms, oAtoms, temperature)
    requires IsRun(Plan(nAtoms, oAtoms, temperature), run, who) && Stuck(run[|run| - 1])
    ensures AllExited(run[|run| - 1])
    ensures var c := run[|run| - 1].cnt;
      && c == Outcome(nAtoms, oAtoms, temperature)
      && !CanReact3(c.n2, c.o2, temperature)
      && !CanReact4(c.o2, temperature)
  {
    hide Plan, Arrives, Budget, AllExited, CanReact3, CanReact4, Feasible, Stuck;
    var cfg := Plan(nAtoms, oAtoms, temperature);
    PlanIsFeasible(nAtoms, oAtoms, temperature);
    ReadInFull(nAtoms, oAtoms, temperature);
    EndedRun(cfg, run, who);
    BudgetIsFeasibleAndExhaustive(Pairs(nAtoms), Pairs(oAtoms), temperature);
  }

  // ----- when the plan does not arrive -----

  /** The atoms in the molecules are those that the producers have released, even if the plan asks
      for more. */
  ghost predicate NitrogenTally(cfg: Config, s: State) {
    && Shape(s) && PcOk(cfg, PRODUCER_N, s.procs[PRODUCER_N])
    && s.cnt.n + 2 * s.cnt.n2 + s.cnt.no2 == Fired(s.procs[PRODUCER_N])
  }

  ghost predicate OxygenTally(cfg: Config, s: State) {
    && Shape(s) && PcOk(cfg, PRODUCER_O, s.procs[PRODUCER_O])
    && s.cnt.o + 2 * s.cnt.o2 + 2 * s.cnt.no2 + 3 * s.cnt.o3 == Fired(s.procs[PRODUCER_O])
  }

  lemma NitrogenStep(cfg: Config, s: State, p: nat)
    requires NitrogenTally(cfg, s) && Enabled(s, p)
    ensures NitrogenTally(cfg, Step(cfg, s, p))
  {
    hide LockAcquire, LockRelease, CondSignal, CondEnqueue, SemSignal, SemWait, MustWait, SignalsA;
  }

  lemma OxygenStep(cfg: Config, s: State, p: nat)
    requires OxygenTally(cfg, s) && Enabled(s, p)
    ensures OxygenTally(cfg, Step(cfg, s, p))
  {
    hide LockAcquire, LockRelease, CondSignal, CondEnqueue, SemSignal, SemWait, MustWait, SignalsA;
  }

  /** Reaction 4 does not even begin if it reads a temperature below 60. */
  ghost predicate Cold(s: State) {
    && Shape(s) && s.cnt.o3 == 0
    && (s.procs[REACTION_4].pc == Finish || s.procs[REACTION_4].pc == Exited)
  }

  lemma ColdStep(cfg: Config, s: State, p: nat)
    requires Cold(s) && Enabled(s, p)
    ensures Cold(Step(cfg, s, p))
  {
    hide LockAcquire, LockRelease, CondSignal, CondEnqueue, SemSignal, SemWait, MustWait, SignalsA, LoopTest;
  }

  lemma {:induction false} RunTally(cfg: Config, run: seq<State>, who: seq<nat>, k: nat)
    requires IsRun(cfg, run, who) && k < |run|
    ensures NitrogenTally(cfg, run[k]) && OxygenTally(cfg, run[k]) && (cfg.temperature < 60 ==> Cold(run[k]))
  {
    hide Step, Enabled;
    if k > 0 {
      RunTally(cfg, run, who, k - 1);
      NitrogenStep(cfg, run[k - 1], who[k - 1]);
      OxygenStep(cfg, run[k - 1], who[k - 1]);
      if cfg.temperature < 60 { ColdStep(cfg, run[k - 1], who[k - 1]); }
    }
  }

  /** Otherwise no run at all reaches the planned counters. */
  lemma NeverAsPlanned(nAtoms: int, oAtoms: int, temperature: int, run: seq<State>, who: seq<nat>, k: nat)
    requires Returns(nAtoms, oAtoms, temperature) && !Arrives(nAtoms, oAtoms, temperature)
    requires IsRun(Plan(nAtoms, oAtoms, temperature), run, who) && k < |run|
    ensures run[k].cnt != Outcome(nAtoms, oAtoms, temperature)
  {
    hide Plan, Passed, IsRun;
    PlanIs(nAtoms, oAtoms, temperature);
    PassedIs(nAtoms);
    PassedIs(oAtoms);
    PassedIs(temperature);
    RunTally(Plan(nAtoms, oAtoms, temperature), run, who, k);
  }

  /** So the counters are the planned ones, at the end of every run that cannot be continued, exactly
      if the numbers arrive. */
  lemma EndsAsPlannedExactly(nAtoms: int, oAtoms: int, temperature: int, run: seq<State>, who: seq<nat>)
    requires Returns(nAtoms, oAtoms, temperature)
    requires IsRun(Plan(nAtoms, oAtoms, temperature), run, who) && Stuck(run[|run| - 1])
    ensures run[|run| - 1].cnt == Outcome(nAtoms, oAtoms, temperature) <==> Arrives(nAtoms, oAtoms, temperature)
  {
    hide Plan, Arrives, Outcome, IsRun, Stuck;
    if Arrives(nAtoms, oAtoms, temperature) {
      EveryScheduleEndsAlike(nAtoms, oAtoms, temperature, run, who);
    } else {
      assert |run| > 0 by { RunLength(Plan(nAtoms, oAtoms, temperature), run, who); }
      NeverAsPlanned(nAtoms, oAtoms, temperature, run, who, |run| - 1);
    }
  }

  lemma RunLength(cfg: Config, run: seq<State>, who: seq<nat>)
    requires IsRun(cfg, run, who)
    ensures |run| == |who| + 1
  {
  }

  /** For 10^9 atoms of nitrogen, and no oxygen, the children make 354593486 molecules. */
  lemma BillionAtoms(temperature: int, run: seq<State>, who: seq<nat>)
    requires temperature < Numbers.GREATEST
    requires IsRun(Plan(Numbers.LIMIT, 0, temperature), run, who) && Stuck(run[|run| - 1])
    ensures run[|run| - 1].cnt == Counters(0, 0, 354_593_486, 0, 0, 0)
  {
    hide Plan, Stuck;
    var cfg := Plan(Numbers.LIMIT, 0, temperature);
    BillionPlan(temperature);
    EndedRun(cfg, run, who);
  }

  lemma BillionPlan(temperature: int)
    requires temperature < Numbers.GREATEST
    ensures Plan(Numbers.LIMIT, 0, temperature) == Config(709_186_972, 0, Passed(temperature), 0, 0)
    ensures Feasible(Plan(Numbers.LIMIT, 0, temperature))
  {
    hide Passed, Plan;
    PlanIs(Numbers.LIMIT, 0, temperature);
    PassedBillion();
  }

  lemma PassedBillion()
    ensures Passed(Numbers.LIMIT) == 709_186_972
  {
    hide Numbers.Printed, Numbers.Parse;
    Numbers.Billion();
  }

  /** A temperature that is read as 0: no state of any run has the ozone that krypton plans for. */
  lemma ReadAsFrost(run: seq<State>, who: seq<nat>, k: nat)
    requires IsRun(Plan(0, 6, 1_410_065_400), run, who) && k < |run|
    ensures Outcome(0, 6, 1_410_065_400).o3 == 2 && run[k].cnt.o3 == 0
  {
    hide IsRun, Passed;
    PlanIs(0, 6, 1_410_065_400);
    PassedIs(1_410_065_400);
    RunTally(Plan(0, 6, 1_410_065_400), run, who, k);
  }
}
