/** The reaction network of apps/q5: six processes that share one lock, four condition
    variables and six counters, and the parent that waits for all of them.

    A step is one process running from one kernel call (or one guard, or one update of the
    counters) to the next.  Any process that exists and is not asleep may take the next step,
    so every schedule of the kernel is covered. */
module Reactions {
  import opened Synch

  // Children in the order in which the parent creates them, then the parent.
  const PRODUCER_N: nat := 0
  const PRODUCER_O: nat := 1
  const REACTION_1: nat := 2
  const REACTION_2: nat := 3
  const REACTION_3: nat := 4
  const REACTION_4: nat := 5
  const KRYPTON: nat := 6
  const CHILDREN: nat := 6

  /** What a process does in its next step. */
  datatype Pc =
    | Acquire    // lock_acquire(stat_lock)
    | Check      // test the guard, and cond_wait if it fails
    | Reacquire  // inside cond_wait, after the wake-up: take the lock again
    | Update     // change the counters
    | SignalA    // first conditional cond_signal
    | SignalB    // second conditional cond_signal (reaction 2 only)
    | Release    // lock_release(stat_lock), then the loop test
    | Finish     // sem_signal(s_procs_completed)
    | Spawn      // parent: create the next child
    | Await      // parent: sem_wait(s_procs_completed)
    | Granted    // parent: inside that sem_wait, or just returned from it
    | Exited

  datatype Local = Local(pc: Pc, i: nat)

  datatype Counters = Counters(n: int, o: int, n2: int, o2: int, no2: int, o3: int)

  /** What the children read on their command lines: the three arguments of krypton, and the two
      numbers that its planning loop hands to reactions 3 and 4. */
  datatype Config = Config(nAtoms: nat, oAtoms: nat, temperature: int, estNo2: nat, estO3: nat)

  datatype State = State(
    cnt: Counters,
    lock: Lock,
    conds: seq<Cond>,     // conds[p - 2] is the one that reaction p waits on
    sem: Sem,
    procs: seq<Local>,    // indexed by process; procs[KRYPTON].i counts the children created
    halted: bool          // the kernel stopped on a fatal error
  )

  ghost predicate Shape(s: State) {
    |s.conds| == 4 && |s.procs| == 7
  }

  predicate IsReaction(p: nat) { REACTION_1 <= p <= REACTION_4 }

  /** Iterations of the loop of child `p`. */
  function Rounds(cfg: Config, p: nat): nat {
    if p == PRODUCER_N then cfg.nAtoms
    else if p == PRODUCER_O then cfg.oAtoms
    else if p == REACTION_1 then cfg.nAtoms / 2
    else if p == REACTION_2 then cfg.oAtoms / 2
    else if p == REACTION_3 then cfg.estNo2
    else cfg.estO3
  }

  /** The loop test of child `p` before iteration `i`, with the temperature breaks of
      reactions 3 and 4. */
  function LoopTest(cfg: Config, p: nat, i: nat): Pc {
    if i >= Rounds(cfg, p) then Finish
    else if p == REACTION_3 && cfg.temperature > 120 then Finish
    else if p == REACTION_4 && cfg.temperature < 60 then Finish
    else Acquire
  }

  /** The state in which krypton is about to create its first child. */
  function Init(cfg: Config): (s: State)
    ensures Shape(s)
  {
    State(
      Counters(0, 0, 0, 0, 0, 0),
      Lock(true, NO_OWNER, []),
      [Cond(true, 0, []), Cond(true, 0, []), Cond(true, 0, []), Cond(true, 0, [])],
      Sem(true, -5, []),
      seq(7, p requires 0 <= p < 7 => if p == KRYPTON then Local(Spawn, 0) else Local(LoopTest(cfg, p, 0), 0)),
      false)
  }

  /** The guard on which reaction `p` calls cond_wait. */
  predicate MustWait(c: Counters, p: nat) {
    if p == REACTION_1 then c.n < 2
    else if p == REACTION_2 then c.o < 2
    else if p == REACTION_3 then c.n2 < 1 || c.o2 < 2
    else c.o2 < 3
  }

  function React(c: Counters, p: nat): Counters {
    if p == PRODUCER_N then c.(n := c.n + 1)
    else if p == PRODUCER_O then c.(o := c.o + 1)
    else if p == REACTION_1 then c.(n := c.n - 2, n2 := c.n2 + 1)
    else if p == REACTION_2 then c.(o := c.o - 2, o2 := c.o2 + 1)
    else if p == REACTION_3 then c.(n2 := c.n2 - 1, o2 := c.o2 - 2, no2 := c.no2 + 2)
    else c.(o2 := c.o2 - 3, o3 := c.o3 + 2)
  }

  /** The first signal that `p` sends: to which reaction, and under which condition. */
  function TargetA(p: nat): nat {
    if p == PRODUCER_N then REACTION_1 else if p == PRODUCER_O then REACTION_2 else REACTION_3
  }

  predicate SignalsA(c: Counters, p: nat) {
    if p == PRODUCER_N then c.n > 1
    else if p == PRODUCER_O then c.o > 1
    else c.n2 > 0 && c.o2 > 1
  }

  predicate Asleep(s: State, p: nat)
    requires Shape(s)
  {
    || p in s.lock.waiting
    || p in s.sem.waiting
    || p in s.conds[0].waiting
    || p in s.conds[1].waiting
    || p in s.conds[2].waiting
    || p in s.conds[3].waiting
  }

  predicate Enabled(s: State, p: nat)
    requires Shape(s)
  {
    && !s.halted
    && p <= KRYPTON
    && (p < KRYPTON ==> p < s.procs[KRYPTON].i)
    && s.procs[p].pc != Exited
    && !Asleep(s, p)
  }

  function Goto(s: State, p: nat, pc: Pc): (t: State)
    requires Shape(s) && p <= KRYPTON
    ensures Shape(t)
  {
    s.(procs := s.procs[p := s.procs[p].(pc := pc)])
  }

  /** cond_signal by `p` on the condition variable of reaction `target`; it fails, and wakes
      nobody, if `p` does not own the lock. */
  function SignalTo(s: State, p: nat, target: nat): (t: State)
    requires Shape(s) && IsReaction(target)
    ensures Shape(t)
  {
    if s.lock.pid != p then s
    else s.(conds := s.conds[target - 2 := CondSignal(s.conds[target - 2]).obj])
  }

  /** cond_wait by reaction `p` up to its sleep: queued on the condition variable first, then
      the lock is released.  The kernel stops if `p` does not own the lock. */
  function SleepOnCond(s: State, p: nat): (t: State)
    requires Shape(s) && IsReaction(p)
    ensures Shape(t)
  {
    if s.lock.pid != p then s.(halted := true)
    else
      Goto(s.(conds := s.conds[p - 2 := CondEnqueue(s.conds[p - 2], p)],
              lock := LockRelease(s.lock).obj), p, Reacquire)
  }

  /** lock_release by `p`, which fails if `p` is not the owner, and then the loop test. */
  function ReleaseAndLoop(cfg: Config, s: State, p: nat): (t: State)
    requires Shape(s) && p < CHILDREN
    ensures Shape(t)
  {
    var i := s.procs[p].i + 1;
    var t := s.(procs := s.procs[p := Local(LoopTest(cfg, p, i), i)]);
    if s.lock.pid != p then t else t.(lock := LockRelease(s.lock).obj)
  }

  function StepChild(cfg: Config, s: State, p: nat): (t: State)
    requires Shape(s) && p < CHILDREN
    ensures Shape(t)
  {
    match s.procs[p].pc
    case Acquire =>
      Goto(s.(lock := LockAcquire(s.lock, p).obj), p, if IsReaction(p) then Check else Update)
    case Check =>
      if IsReaction(p) && MustWait(s.cnt, p) then SleepOnCond(s, p) else Goto(s, p, Update)
    case Reacquire =>
      // reactions 1 and 2 test with `if`, reactions 3 and 4 with `while`
      Goto(s.(lock := LockAcquire(s.lock, p).obj), p, if p <= REACTION_2 then Update else Check)
    case Update =>
      Goto(s.(cnt := React(s.cnt, p)), p, if p <= REACTION_2 then SignalA else Release)
    case SignalA =>
      var t := if SignalsA(s.cnt, p) then SignalTo(s, p, TargetA(p)) else s;
      Goto(t, p, if p == REACTION_2 then SignalB else Release)
    case SignalB =>
      var t := if s.cnt.o2 > 2 then SignalTo(s, p, REACTION_4) else s;
      Goto(t, p, Release)
    case Release => ReleaseAndLoop(cfg, s, p)
    case Finish => Goto(s.(sem := SemSignal(s.sem).obj), p, Exited)
    case _ => s
  }

  function StepKrypton(s: State): (t: State)
    requires Shape(s)
    ensures Shape(t)
  {
    var me := s.procs[KRYPTON];
    match me.pc
    case Spawn => s.(procs := s.procs[KRYPTON := Local(if me.i + 1 < CHILDREN then Spawn else Await, me.i + 1)])
    case Await => Goto(s.(sem := SemWait(s.sem, KRYPTON).obj), KRYPTON, Granted)
    case Granted => Goto(s, KRYPTON, Exited)
    case _ => s
  }

  function Step(cfg: Config, s: State, p: nat): (t: State)
    requires Shape(s) && Enabled(s, p)
    ensures Shape(t)
  {
    if p == KRYPTON then StepKrypton(s) else StepChild(cfg, s, p)
  }

  /** A run from the initial state, and the processes that took its steps. */
  ghost predicate IsRun(cfg: Config, run: seq<State>, who: seq<nat>) {
    && |run| == |who| + 1
    && run[0] == Init(cfg)
    && (forall k :: 0 <= k < |run| ==> Shape(run[k]))
    && (forall k :: 0 <= k < |who| ==> Enabled(run[k], who[k]) && run[k + 1] == Step(cfg, run[k], who[k]))
  }

  ghost predicate Stuck(s: State)
    requires Shape(s)
  {
    forall p :: !Enabled(s, p)
  }
}
