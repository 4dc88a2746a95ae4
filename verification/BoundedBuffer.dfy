/** The bounded buffer of apps/q3: any number of producer and consumer pairs over one lock and two
    counting semaphores, and the parent that waits for all of them.

    Process `p` is a producer if `p` is even, and a consumer if it is odd, in the order in which
    the parent creates them.  A step is one process running from one kernel call, or one access to
    the buffer, to the next.  A wake-up is part of the step of the process that causes it. */
module BoundedBuffer {
  import opened Synch

  const BUFFER_SIZE: nat := 64

  /** Pairs of processes, what each producer inserts, and the number of slots. */
  datatype Config = Config(pairs: nat, item: string, size: nat)

  /** What makeprocs sets up for `pairs` pairs. */
  function Q3(pairs: nat): Config { Config(pairs, "0123456789", BUFFER_SIZE) }

  datatype Pc =
    | WaitSlot     // sem_wait on s_emptyslots (producer) or s_fullslots (consumer)
    | SlotSleep    // asleep in that call
    | Acquire      // lock_acquire(buf_lock)
    | LockSleep    // asleep in that call
    | Access       // char_buf[head++] = item, or item = char_buf[tail++]
    | Release      // lock_release(buf_lock)
    | Signal       // sem_signal on s_fullslots (producer) or s_emptyslots (consumer)
    | Finish       // sem_signal(s_procs_completed)
    | Done

  datatype ParentPc = Spawn | Await | ParentSleep | Gone

  datatype Entry = Entry(who: nat, c: char)

  datatype Local = Local(pc: Pc, i: nat)

  datatype State = State(
    head: nat,
    tail: nat,
    buf: map<nat, char>,    // the shared page from char_buf on, as far as it has been written
    empty: Sem,
    full: Sem,
    lock: Lock,
    completed: Sem,
    procs: seq<Local>,
    parent: ParentPc,
    created: nat,
    inserted: seq<Entry>,   // history of the characters inserted, and by whom
    removed: string         // history of the characters removed
  )

  function Children(cfg: Config): nat { 2 * cfg.pairs }

  predicate IsProducer(p: nat) { p % 2 == 0 }

  function LoopTest(cfg: Config, i: nat): Pc {
    if i < |cfg.item| then WaitSlot else Finish
  }

  function ParentLoop(cfg: Config, created: nat): ParentPc {
    if created < Children(cfg) then Spawn else Await
  }

  function Init(cfg: Config): State {
    State(0, 0, map[], Sem(true, cfg.size, []), Sem(true, 0, []), Lock(true, NO_OWNER, []),
          Sem(true, -(Children(cfg) - 1), []), seq(Children(cfg), _ => Local(LoopTest(cfg, 0), 0)),
          ParentLoop(cfg, 0), 0, [], "")
  }

  predicate Shape(cfg: Config, s: State) { |s.procs| == Children(cfg) }

  predicate Enabled(cfg: Config, s: State, p: nat)
    requires Shape(cfg, s)
  {
    if p < Children(cfg) then p < s.created && s.procs[p].pc !in {SlotSleep, LockSleep, Done}
    else p == Children(cfg) && s.parent !in {ParentSleep, Gone}
  }

  function Goto(procs: seq<Local>, p: nat, pc: Pc): (procs': seq<Local>)
    ensures |procs'| == |procs|
  {
    if p < |procs| then procs[p := procs[p].(pc := pc)] else procs
  }

  /** The woken process goes on to `pc`. */
  function Awaken(procs: seq<Local>, woken: Option<nat>, pc: Pc): (procs': seq<Local>)
    ensures |procs'| == |procs|
  {
    match woken case None => procs case Some(q) => Goto(procs, q, pc)
  }

  /** The semaphore that `p` waits on, and the one that it signals. */
  function WaitsOn(s: State, p: nat): Sem { if IsProducer(p) then s.empty else s.full }

  function Signals(s: State, p: nat): Sem { if IsProducer(p) then s.full else s.empty }

  function WithWaitsOn(s: State, p: nat, x: Sem): State {
    if IsProducer(p) then s.(empty := x) else s.(full := x)
  }

  function WithSignals(s: State, p: nat, x: Sem): State {
    if IsProducer(p) then s.(full := x) else s.(empty := x)
  }

  function Insert(s: State, p: nat, c: char): State {
    s.(buf := s.buf[s.head := c], head := s.head + 1, inserted := s.inserted + [Entry(p, c)])
  }

  /** What is read from a slot that was never written does not matter here. */
  function Remove(s: State): State {
    s.(tail := s.tail + 1, removed := s.removed + [if s.tail in s.buf then s.buf[s.tail] else '?'])
  }

  function StepChild(cfg: Config, s: State, p: nat): (t: State)
    requires Shape(cfg, s) && p < Children(cfg)
    ensures Shape(cfg, t)
  {
    var me := s.procs[p];
    match me.pc
    case WaitSlot =>
      var w := SemWait(WaitsOn(s, p), p);
      WithWaitsOn(s, p, w.obj).(procs := Goto(s.procs, p, if w.sleeps then SlotSleep else Acquire))
    case Acquire =>
      var w := LockAcquire(s.lock, p);
      s.(lock := w.obj, procs := Goto(s.procs, p, if w.sleeps then LockSleep else Access))
    case Access =>
      var t := if IsProducer(p) then Insert(s, p, if me.i < |cfg.item| then cfg.item[me.i] else '?') else Remove(s);
      t.(procs := s.procs[p := Local(Release, me.i + 1)])
    case Release =>
      if s.lock.pid != p then s.(procs := Goto(s.procs, p, Signal))
      else
        var w := LockRelease(s.lock);
        s.(lock := w.obj, procs := Awaken(Goto(s.procs, p, Signal), w.woken, Access))
    case Signal =>
      var w := SemSignal(Signals(s, p));
      WithSignals(s, p, w.obj).(procs := Awaken(Goto(s.procs, p, LoopTest(cfg, me.i)), w.woken, Acquire))
    case Finish =>
      var w := SemSignal(s.completed);
      s.(completed := w.obj, procs := Goto(s.procs, p, Done), parent := if w.woken.Some? then Gone else s.parent)
    case _ => s
  }

  function StepParent(cfg: Config, s: State): (t: State)
    ensures t.procs == s.procs
  {
    match s.parent
    case Spawn => s.(created := s.created + 1, parent := ParentLoop(cfg, s.created + 1))
    case Await =>
      var w := SemWait(s.completed, Children(cfg));
      s.(completed := w.obj, parent := if w.sleeps then ParentSleep else Gone)
    case _ => s
  }

  function Step(cfg: Config, s: State, p: nat): (t: State)
    requires Shape(cfg, s) && Enabled(cfg, s, p)
    ensures Shape(cfg, t)
  {
    if p < Children(cfg) then StepChild(cfg, s, p) else StepParent(cfg, s)
  }

  ghost predicate IsRun(cfg: Config, run: seq<State>, who: seq<nat>) {
    && |run| == |who| + 1
    && run[0] == Init(cfg)
    && (forall k :: 0 <= k < |run| ==> Shape(cfg, run[k]))
    && (forall k :: 0 <= k < |who| ==> Enabled(cfg, run[k], who[k]) && run[k + 1] == Step(cfg, run[k], who[k]))
  }

  ghost predicate Stuck(cfg: Config, s: State)
    requires Shape(cfg, s)
  {
    forall p :: !Enabled(cfg, s, p)
  }

  // ----- sums over all processes -----

  function Sum(w: seq<int>): int {
    if w == [] then 0 else Sum(w[..|w| - 1]) + w[|w| - 1]
  }

  lemma {:induction false} SumUpdate(w: seq<int>, p: nat, x: int)
    requires p < |w|
    ensures Sum(w[p := x]) == Sum(w) - w[p] + x
  {
    var n := |w| - 1;
    if p == n {
      assert w[p := x][..n] == w[..n];
    } else {
      SumUpdate(w[..n], p, x);
      assert w[p := x][..n] == w[..n][p := x];
    }
  }

  lemma {:induction false} SumIsMonotone(w: seq<int>, w': seq<int>)
    requires |w| == |w'| && forall p :: 0 <= p < |w| ==> w[p] <= w'[p]
    ensures Sum(w) <= Sum(w')
    ensures forall p :: 0 <= p < |w| && w[p] < w'[p] ==> Sum(w) < Sum(w')
  {
    if w != [] { SumIsMonotone(w[..|w| - 1], w'[..|w| - 1]); }
  }

  lemma {:induction false} SumOfConstant(w: seq<int>, x: int)
    requires forall p :: 0 <= p < |w| ==> w[p] == x
    ensures Sum(w) == |w| * x
  {
    if w != [] {
      SumOfConstant(w[..|w| - 1], x);
      assert |w| * x == (|w| - 1) * x + x;
    }
  }

  /** Process `p` has been granted a slot that it has not used yet. */
  predicate Holds(pc: Pc) { pc == Acquire || pc == LockSleep || pc == Access }

  /** Process `p` has used a slot that it has not passed on yet. */
  predicate Owes(pc: Pc) { pc == Release || pc == Signal }

  function One(b: bool): int { if b then 1 else 0 }

  /** Full slots in the hands of process `p`. */
  function FullToken(p: nat, me: Local): int { One(if IsProducer(p) then Owes(me.pc) else Holds(me.pc)) }

  function EmptyToken(p: nat, me: Local): int { One(if IsProducer(p) then Holds(me.pc) else Owes(me.pc)) }

  function Produced(p: nat, me: Local): int { if IsProducer(p) then me.i else 0 }

  function Consumed(p: nat, me: Local): int { if IsProducer(p) then 0 else me.i }

  function Completed(p: nat, me: Local): int { One(me.pc == Done) }

  /** The sum of `f` over all processes. */
  function Total(f: (nat, Local) -> int, procs: seq<Local>): int {
    Sum(seq(|procs|, p requires 0 <= p < |procs| => f(p, procs[p])))
  }

  lemma TotalUpdate(f: (nat, Local) -> int, procs: seq<Local>, p: nat, me: Local)
    requires p < |procs|
    ensures Total(f, procs[p := me]) == Total(f, procs) - f(p, procs[p]) + f(p, me)
  {
    var w := seq(|procs|, q requires 0 <= q < |procs| => f(q, procs[q]));
    var procs' := procs[p := me];
    var w' := seq(|procs'|, q requires 0 <= q < |procs'| => f(q, procs'[q]));
    SumUpdate(w, p, f(p, me));
    assert w' == w[p := f(p, me)];
  }

  // ----- the invariant, by components -----

  /** The loop counter fits the place in the loop. */
  predicate LocalOk(cfg: Config, me: Local) {
    if me.pc == Finish || me.pc == Done then me.i == |cfg.item|
    else if Owes(me.pc) then 0 < me.i <= |cfg.item|
    else me.i < |cfg.item|
  }

  /** The owner of the lock is the process at the buffer; the sleepers on it are its waiters. */
  ghost predicate LockInv(lock: Lock, procs: seq<Local>) {
    && LockOk(lock)
    && (forall p: nat :: p < |procs| ==> ((procs[p].pc == Access || procs[p].pc == Release) <==> lock.pid == p))
    && (forall p: nat :: p in lock.waiting <==> p < |procs| && procs[p].pc == LockSleep)
    && lock.pid < |procs|
  }

  /** The sleepers on a slot semaphore are the producers, or the consumers, that wait for a slot. */
  ghost predicate SlotInv(sem: Sem, procs: seq<Local>, producers: bool) {
    && SemOk(sem) && sem.count >= 0
    && (forall p: nat :: p in sem.waiting <==> p < |procs| && IsProducer(p) == producers && procs[p].pc == SlotSleep)
  }

  /** Every slot is counted once: in a semaphore, or with a process on its way. */
  ghost predicate TokenInv(cfg: Config, head: int, tail: int, empty: int, full: int, procs: seq<Local>) {
    && full + Total(FullToken, procs) == head - tail
    && empty + Total(EmptyToken, procs) == cfg.size - (head - tail)
    && head == Total(Produced, procs)
    && tail == Total(Consumed, procs)
  }

  ghost predicate ParentInv(cfg: Config, s: State) {
    var done := Total(Completed, s.procs);
    && done <= Children(cfg)
    && s.created <= Children(cfg)
    && (s.parent == Spawn <==> s.created < Children(cfg))
    && s.completed.count == done + 1 - Children(cfg) - (if s.parent == Gone then 1 else 0)
    && s.completed.waiting == (if s.parent == ParentSleep then [Children(cfg)] else [])
    && (s.parent == ParentSleep ==> s.completed.count <= 0)
    && (s.parent == Gone ==> done == Children(cfg))
    && (forall p: nat :: p < |s.procs| && s.created <= p ==> s.procs[p] == Local(LoopTest(cfg, 0), 0))
  }

  /** The characters that process `p` has inserted, in order. */
  function InsertedBy(h: seq<Entry>, p: nat): string {
    if h == [] then ""
    else
      var n := |h| - 1;
      InsertedBy(h[..n], p) + if h[n].who == p then [h[n].c] else ""
  }

  /** Every producer has inserted the beginning of its item. */
  ghost predicate HistoryInv(cfg: Config, h: seq<Entry>, procs: seq<Local>) {
    forall p: nat :: p < |procs| && IsProducer(p) ==>
      procs[p].i <= |cfg.item| && InsertedBy(h, p) == cfg.item[..procs[p].i]
  }

  /** What has been removed is what was inserted first, and the rest is in the buffer. */
  ghost predicate BufferInv(head: nat, tail: nat, buf: map<nat, char>, inserted: seq<Entry>, removed: string) {
    && |inserted| == head
    && |removed| == tail <= head
    && (forall k: nat :: k < head ==> k in buf && buf[k] == inserted[k].c)
    && (forall k: nat :: k < tail ==> removed[k] == inserted[k].c)
  }

  ghost predicate Inv(cfg: Config, s: State) {
    && Shape(cfg, s)
    && (forall p: nat :: p < |s.procs| ==> LocalOk(cfg, s.procs[p]))
    && LockInv(s.lock, s.procs)
    && SlotInv(s.empty, s.procs, true)
    && SlotInv(s.full, s.procs, false)
    && TokenInv(cfg, s.head, s.tail, s.empty.count, s.full.count, s.procs)
    && ParentInv(cfg, s)
    && HistoryInv(cfg, s.inserted, s.procs)
    && BufferInv(s.head, s.tail, s.buf, s.inserted, s.removed)
  }
}
