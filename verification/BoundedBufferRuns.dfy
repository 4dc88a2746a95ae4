/** Every run of the bounded buffer is safe, ordered, finite and free of deadlock. */
module BoundedBufferRuns {
  import opened Sequences
  import opened Synch
  import opened BoundedBuffer

  // ----- sums -----

  lemma TotalOfNaturals(f: (nat, Local) -> int, procs: seq<Local>)
    requires forall p: nat :: p < |procs| ==> f(p, procs[p]) >= 0
    ensures Total(f, procs) >= 0
    ensures forall p: nat :: p < |procs| && f(p, procs[p]) > 0 ==> Total(f, procs) > 0
  {
    var w := seq(|procs|, p requires 0 <= p < |procs| => f(p, procs[p]));
    var zero := seq(|procs|, _ => 0);
    SumIsMonotone(zero, w);
    SumOfConstant(zero, 0);
    forall p: nat | p < |procs| && f(p, procs[p]) > 0 ensures Total(f, procs) > 0 {
      assert zero[p] < w[p];
    }
  }

  lemma Update(procs: seq<Local>, p: nat, me: Local)
    requires p < |procs|
    ensures var procs' := procs[p := me];
      && Total(FullToken, procs') == Total(FullToken, procs) - FullToken(p, procs[p]) + FullToken(p, me)
      && Total(EmptyToken, procs') == Total(EmptyToken, procs) - EmptyToken(p, procs[p]) + EmptyToken(p, me)
      && Total(Produced, procs') == Total(Produced, procs) - Produced(p, procs[p]) + Produced(p, me)
      && Total(Consumed, procs') == Total(Consumed, procs) - Consumed(p, procs[p]) + Consumed(p, me)
      && Total(Completed, procs') == Total(Completed, procs) - Completed(p, procs[p]) + Completed(p, me)
  {
    TotalUpdate(FullToken, procs, p, me);
    TotalUpdate(EmptyToken, procs, p, me);
    TotalUpdate(Produced, procs, p, me);
    TotalUpdate(Consumed, procs, p, me);
    TotalUpdate(Completed, procs, p, me);
  }

  // ----- the invariant holds at the start -----

  lemma TotalOfZero(f: (nat, Local) -> int, procs: seq<Local>)
    requires forall p: nat :: p < |procs| ==> f(p, procs[p]) == 0
    ensures Total(f, procs) == 0
  {
    SumOfConstant(seq(|procs|, p requires 0 <= p < |procs| => f(p, procs[p])), 0);
  }

  lemma InitTotals(cfg: Config)
    ensures var procs := Init(cfg).procs;
      && Total(FullToken, procs) == Total(EmptyToken, procs) == 0
      && Total(Produced, procs) == Total(Consumed, procs) == Total(Completed, procs) == 0
  {
    var procs := Init(cfg).procs;
    TotalOfZero(FullToken, procs);
    TotalOfZero(EmptyToken, procs);
    TotalOfZero(Produced, procs);
    TotalOfZero(Consumed, procs);
    TotalOfZero(Completed, procs);
  }

  lemma InitInv(cfg: Config)
    ensures Inv(cfg, Init(cfg))
  {
    hide Total;
    InitTotals(cfg);
    HeadAndTail([Children(cfg)]);
  }

  // ----- the components, over one change of a process -----

  predicate OfLock(pc: Pc) { pc == Access || pc == Release || pc == LockSleep }

  lemma LockSame(lock: Lock, procs: seq<Local>, p: nat, me: Local)
    requires LockInv(lock, procs) && p < |procs| && !OfLock(procs[p].pc) && !OfLock(me.pc)
    ensures LockInv(lock, procs[p := me])
  {
  }

  lemma LockAtBuffer(lock: Lock, procs: seq<Local>, p: nat, i: nat)
    requires LockInv(lock, procs) && p < |procs| && procs[p].pc == Access
    ensures LockInv(lock, procs[p := Local(Release, i)])
  {
  }

  lemma LockTaken(lock: Lock, procs: seq<Local>, p: nat)
    requires LockInv(lock, procs) && p < |procs| && procs[p].pc == Acquire
    ensures var w := LockAcquire(lock, p);
      LockInv(w.obj, Goto(procs, p, if w.sleeps then LockSleep else Access))
  {
    AppendDistinct(lock.waiting, p);
  }

  lemma LockReleased(lock: Lock, procs: seq<Local>, p: nat)
    requires LockInv(lock, procs) && p < |procs| && procs[p].pc == Release
    ensures lock.pid == p
    ensures var w := LockRelease(lock);
      && (w.woken.Some? ==> w.woken.value < |procs| && w.woken.value != p && procs[w.woken.value].pc == LockSleep)
      && LockInv(w.obj, Awaken(Goto(procs, p, Signal), w.woken, Access))
  {
    if lock.waiting != [] {
      assert lock.waiting[0] in lock.waiting;
      HeadAndTail(lock.waiting);
    }
  }

  lemma SlotSame(sem: Sem, procs: seq<Local>, producers: bool, p: nat, me: Local)
    requires SlotInv(sem, procs, producers) && p < |procs|
    requires IsProducer(p) != producers || (procs[p].pc != SlotSleep && me.pc != SlotSleep)
    ensures SlotInv(sem, procs[p := me], producers)
  {
  }

  lemma SlotTaken(sem: Sem, procs: seq<Local>, p: nat)
    requires SlotInv(sem, procs, IsProducer(p)) && p < |procs| && procs[p].pc == WaitSlot
    ensures var w := SemWait(sem, p);
      SlotInv(w.obj, Goto(procs, p, if w.sleeps then SlotSleep else Acquire), IsProducer(p))
  {
    AppendDistinct(sem.waiting, p);
  }

  lemma SlotGiven(sem: Sem, procs: seq<Local>, producers: bool)
    requires SlotInv(sem, procs, producers)
    ensures var w := SemSignal(sem);
      && (w.woken.Some? ==>
            w.woken.value < |procs| && IsProducer(w.woken.value) == producers && procs[w.woken.value].pc == SlotSleep)
      && SlotInv(w.obj, Awaken(procs, w.woken, Acquire), producers)
      && w.obj.count == sem.count + 1 - One(w.woken.Some?)
  {
    if sem.waiting != [] {
      assert sem.waiting[0] in sem.waiting;
      HeadAndTail(sem.waiting);
    }
  }

  ghost predicate Locals(cfg: Config, procs: seq<Local>) {
    |procs| == Children(cfg) && forall p: nat :: p < |procs| ==> LocalOk(cfg, procs[p])
  }

  lemma HistorySame(cfg: Config, h: seq<Entry>, procs: seq<Local>, p: nat, me: Local)
    requires HistoryInv(cfg, h, procs) && p < |procs| && me.i == procs[p].i
    ensures HistoryInv(cfg, h, procs[p := me])
  {
  }

  lemma ParentSame(cfg: Config, s: State, t: State, p: nat, me: Local)
    requires ParentInv(cfg, s) && p < |s.procs| && p < s.created && t.procs == s.procs[p := me]
    requires t.completed == s.completed && t.parent == s.parent && t.created == s.created
    requires s.procs[p].pc != Done && me.pc != Done
    ensures ParentInv(cfg, t)
  {
    Update(s.procs, p, me);
  }

  /** A process that is asleep has been created. */
  lemma SleeperExists(cfg: Config, s: State, q: nat)
    requires ParentInv(cfg, s) && q < |s.procs| && (s.procs[q].pc == LockSleep || s.procs[q].pc == SlotSleep)
    ensures q < s.created
  {
  }

  // ----- the steps of a child keep the invariant -----

  lemma WaitSlotKeepsInv(cfg: Config, s: State, p: nat)
    requires Inv(cfg, s) && p < |s.procs| && p < s.created && s.procs[p].pc == WaitSlot
    ensures Inv(cfg, StepChild(cfg, s, p))
  {
    hide LockInv, HistoryInv, ParentInv, BufferInv;
    var w := SemWait(WaitsOn(s, p), p);
    var me := s.procs[p].(pc := if w.sleeps then SlotSleep else Acquire);
    Update(s.procs, p, me);
    SlotTaken(WaitsOn(s, p), s.procs, p);
    SlotSame(Signals(s, p), s.procs, !IsProducer(p), p, me);
    LockSame(s.lock, s.procs, p, me);
    HistorySame(cfg, s.inserted, s.procs, p, me);
    ParentSame(cfg, s, StepChild(cfg, s, p), p, me);
  }

  lemma AcquireKeepsInv(cfg: Config, s: State, p: nat)
    requires Inv(cfg, s) && p < |s.procs| && p < s.created && s.procs[p].pc == Acquire
    ensures Inv(cfg, StepChild(cfg, s, p))
  {
    hide LockInv, HistoryInv, ParentInv, BufferInv, SlotInv;
    var w := LockAcquire(s.lock, p);
    var me := s.procs[p].(pc := if w.sleeps then LockSleep else Access);
    Update(s.procs, p, me);
    LockTaken(s.lock, s.procs, p);
    SlotSame(s.empty, s.procs, true, p, me);
    SlotSame(s.full, s.procs, false, p, me);
    HistorySame(cfg, s.inserted, s.procs, p, me);
    ParentSame(cfg, s, StepChild(cfg, s, p), p, me);
  }

  /** While a consumer is at the buffer, there is something in it; while a producer is, there is room. */
  lemma AtBuffer(cfg: Config, s: State, p: nat)
    requires Inv(cfg, s) && p < |s.procs| && s.procs[p].pc == Access
    ensures IsProducer(p) ==> s.head - s.tail < cfg.size
    ensures !IsProducer(p) ==> s.tail < s.head
  {
    TotalOfNaturals(FullToken, s.procs);
    TotalOfNaturals(EmptyToken, s.procs);
    assert (if IsProducer(p) then EmptyToken(p, s.procs[p]) else FullToken(p, s.procs[p])) == 1;
  }

  lemma AccessKeepsInv(cfg: Config, s: State, p: nat)
    requires Inv(cfg, s) && p < |s.procs| && p < s.created && s.procs[p].pc == Access
    ensures Inv(cfg, StepChild(cfg, s, p))
  {
    hide LockInv, HistoryInv, ParentInv, BufferInv, SlotInv;
    var me := s.procs[p];
    var me' := Local(Release, me.i + 1);
    var t := StepChild(cfg, s, p);
    Update(s.procs, p, me');
    AtBuffer(cfg, s, p);
    LockAtBuffer(s.lock, s.procs, p, me.i + 1);
    SlotSame(s.empty, s.procs, true, p, me');
    SlotSame(s.full, s.procs, false, p, me');
    ParentSame(cfg, s, t, p, me');
    HistoryStep(cfg, s, p);
    BufferStep(cfg, s, p);
  }

  lemma HistoryStep(cfg: Config, s: State, p: nat)
    requires HistoryInv(cfg, s.inserted, s.procs) && p < |s.procs| && s.procs[p].pc == Access
    requires s.procs[p].i < |cfg.item|
    requires |s.procs| == Children(cfg)
    ensures var t := StepChild(cfg, s, p); HistoryInv(cfg, t.inserted, t.procs)
  {
    var me, t := s.procs[p], StepChild(cfg, s, p);
    if IsProducer(p) {
      var h := s.inserted + [Entry(p, cfg.item[me.i])];
      assert t.inserted == h && h[..|h| - 1] == s.inserted;
      assert cfg.item[..me.i + 1] == cfg.item[..me.i] + [cfg.item[me.i]];
    }
  }

  lemma BufferStep(cfg: Config, s: State, p: nat)
    requires BufferInv(s.head, s.tail, s.buf, s.inserted, s.removed) && p < |s.procs| == Children(cfg)
    requires s.procs[p].pc == Access
    requires !IsProducer(p) ==> s.tail < s.head
    ensures var t := StepChild(cfg, s, p); BufferInv(t.head, t.tail, t.buf, t.inserted, t.removed)
  {
  }

  lemma ReleaseKeepsInv(cfg: Config, s: State, p: nat)
    requires Inv(cfg, s) && p < |s.procs| && p < s.created && s.procs[p].pc == Release
    ensures Inv(cfg, StepChild(cfg, s, p))
  {
    hide LockInv, HistoryInv, ParentInv, BufferInv, SlotInv, Total;
    LockReleased(s.lock, s.procs, p);
    var w := LockRelease(s.lock);
    var me := s.procs[p].(pc := Signal);
    var s1 := s.(procs := s.procs[p := me]);
    Update(s.procs, p, me);
    SlotSame(s.empty, s.procs, true, p, me);
    SlotSame(s.full, s.procs, false, p, me);
    HistorySame(cfg, s.inserted, s.procs, p, me);
    ParentSame(cfg, s, s1, p, me);
    if w.woken.Some? {
      var q := w.woken.value;
      var other := s.procs[q].(pc := Access);
      SleeperExists(cfg, s, q);
      Update(s1.procs, q, other);
      SlotSame(s.empty, s1.procs, true, q, other);
      SlotSame(s.full, s1.procs, false, q, other);
      HistorySame(cfg, s.inserted, s1.procs, q, other);
      ParentSame(cfg, s1, s1.(procs := s1.procs[q := other]), q, other);
    }
    ParentOfParts(cfg, s1.(procs := Awaken(s1.procs, w.woken, Access)), StepChild(cfg, s, p));
  }

  lemma ParentOfParts(cfg: Config, s: State, t: State)
    requires ParentInv(cfg, s)
    requires t.procs == s.procs && t.completed == s.completed && t.parent == s.parent && t.created == s.created
    ensures ParentInv(cfg, t)
  {
  }

  lemma SignalKeepsInv(cfg: Config, s: State, p: nat)
    requires Inv(cfg, s) && p < |s.procs| && p < s.created && s.procs[p].pc == Signal
    ensures Inv(cfg, StepChild(cfg, s, p))
  {
    hide LockInv, HistoryInv, ParentInv, BufferInv, SlotInv, Total, SemSignal;
    var me := s.procs[p].(pc := LoopTest(cfg, s.procs[p].i));
    var s1 := s.(procs := s.procs[p := me]);
    Update(s.procs, p, me);
    LockSame(s.lock, s.procs, p, me);
    SlotSame(s.empty, s.procs, true, p, me);
    SlotSame(s.full, s.procs, false, p, me);
    HistorySame(cfg, s.inserted, s.procs, p, me);
    ParentSame(cfg, s, s1, p, me);
    SlotGiven(Signals(s, p), s1.procs, !IsProducer(p));
    var w := SemSignal(Signals(s, p));
    if w.woken.Some? {
      var q := w.woken.value;
      var other := s1.procs[q].(pc := Acquire);
      SleeperExists(cfg, s1, q);
      Update(s1.procs, q, other);
      LockSame(s.lock, s1.procs, q, other);
      SlotSame(WaitsOn(s, p), s1.procs, IsProducer(p), q, other);
      HistorySame(cfg, s.inserted, s1.procs, q, other);
      ParentSame(cfg, s1, s1.(procs := s1.procs[q := other]), q, other);
    }
    ParentOfParts(cfg, s1.(procs := Awaken(s1.procs, w.woken, Acquire)), StepChild(cfg, s, p));
  }

  lemma FinishKeepsInv(cfg: Config, s: State, p: nat)
    requires Inv(cfg, s) && p < |s.procs| && p < s.created && s.procs[p].pc == Finish
    ensures Inv(cfg, StepChild(cfg, s, p))
  {
    hide LockInv, HistoryInv, BufferInv, SlotInv;
    var me := s.procs[p].(pc := Done);
    Update(s.procs, p, me);
    LockSame(s.lock, s.procs, p, me);
    SlotSame(s.empty, s.procs, true, p, me);
    SlotSame(s.full, s.procs, false, p, me);
    HistorySame(cfg, s.inserted, s.procs, p, me);
    AllDoneIsMost(s.procs[p := me]);
    AllDoneIsMost(s.procs);
  }

  lemma TotalAtMostOneEach(f: (nat, Local) -> int, procs: seq<Local>)
    requires forall p: nat :: p < |procs| ==> f(p, procs[p]) <= 1
    ensures Total(f, procs) <= |procs|
    ensures forall p: nat :: p < |procs| && f(p, procs[p]) < 1 ==> Total(f, procs) < |procs|
  {
    var w := seq(|procs|, p requires 0 <= p < |procs| => f(p, procs[p]));
    var one := seq(|procs|, _ => 1);
    SumIsMonotone(w, one);
    SumOfConstant(one, 1);
    forall p: nat | p < |procs| && f(p, procs[p]) < 1 ensures Total(f, procs) < |procs| {
      assert w[p] < one[p];
    }
  }

  /** No more processes are done than there are. */
  lemma AllDoneIsMost(procs: seq<Local>)
    ensures Total(Completed, procs) <= |procs|
    ensures forall p: nat :: p < |procs| && procs[p].pc != Done ==> Total(Completed, procs) < |procs|
  {
    TotalAtMostOneEach(Completed, procs);
    forall p: nat | p < |procs| && procs[p].pc != Done ensures Total(Completed, procs) < |procs| {
      assert Completed(p, procs[p]) < 1;
    }
  }

  lemma StepKeepsInv(cfg: Config, s: State, p: nat)
    requires Inv(cfg, s) && Enabled(cfg, s, p)
    ensures Inv(cfg, Step(cfg, s, p))
  {
    hide LockInv, SlotInv, TokenInv, HistoryInv, BufferInv, StepChild, StepParent;
    if p < Children(cfg) {
      match s.procs[p].pc {
        case WaitSlot => WaitSlotKeepsInv(cfg, s, p);
        case Acquire => AcquireKeepsInv(cfg, s, p);
        case Access => AccessKeepsInv(cfg, s, p);
        case Release => ReleaseKeepsInv(cfg, s, p);
        case Signal => SignalKeepsInv(cfg, s, p);
        case _ => FinishKeepsInv(cfg, s, p);
      }
    } else {
      ParentKeepsInv(cfg, s);
    }
  }

  lemma ParentKeepsInv(cfg: Config, s: State)
    requires Inv(cfg, s) && (s.parent == Spawn || s.parent == Await)
    ensures Inv(cfg, StepParent(cfg, s))
  {
    hide LockInv, SlotInv, HistoryInv, BufferInv;
    AllDoneIsMost(s.procs);
  }

  lemma {:induction false} RunKeepsInv(cfg: Config, run: seq<State>, who: seq<nat>, k: nat)
    requires IsRun(cfg, run, who) && k < |run|
    ensures Inv(cfg, run[k])
  {
    hide Inv, Step, Init;
    if k == 0 {
      InitInv(cfg);
    } else {
      RunKeepsInv(cfg, run, who, k - 1);
      StepKeepsInv(cfg, run[k - 1], who[k - 1]);
    }
  }

  // ----- safety and order -----

  /** In every state of every run, for any number of pairs, the buffer holds between zero and
      `size` characters, and at most one process is at the buffer. */
  lemma BufferIsBounded(cfg: Config, run: seq<State>, who: seq<nat>, k: nat, p: nat, q: nat)
    requires IsRun(cfg, run, who) && k < |run|
    ensures run[k].tail <= run[k].head <= run[k].tail + cfg.size
    ensures p < |run[k].procs| && q < |run[k].procs| && run[k].procs[p].pc == Access && run[k].procs[q].pc == Access ==> p == q
  {
    RunKeepsInv(cfg, run, who, k);
    TotalOfNaturals(FullToken, run[k].procs);
    TotalOfNaturals(EmptyToken, run[k].procs);
  }

  /** The k-th character removed is the k-th character inserted, and what each producer has
      inserted is the beginning of its item, in order. */
  lemma FirstInFirstOut(cfg: Config, run: seq<State>, who: seq<nat>, k: nat, j: nat, p: nat)
    requires IsRun(cfg, run, who) && k < |run| && j < |run[k].removed| && p < Children(cfg) && IsProducer(p)
    ensures j < |run[k].inserted| && run[k].removed[j] == run[k].inserted[j].c
    ensures run[k].procs[p].i <= |cfg.item| && InsertedBy(run[k].inserted, p) == cfg.item[..run[k].procs[p].i]
  {
    RunKeepsInv(cfg, run, who, k);
  }

  /** A process is about to access a slot outside of the array of BUFFER_SIZE characters. */
  predicate OutOfBounds(cfg: Config, s: State, p: nat) {
    p < |s.procs| && s.procs[p].pc == Access && (if IsProducer(p) then s.head else s.tail) >= cfg.size
  }

  /** All that the producers, or the consumers, will ever move. */
  function Moved(cfg: Config, producers: bool): (nat, Local) -> int {
    (p: nat, me: Local) => if IsProducer(p) == producers then |cfg.item| else 0
  }

  function Items(cfg: Config): nat { cfg.pairs * |cfg.item| }

  lemma {:induction false} SumOfAlternating(w: seq<int>, n: nat, x: int, producers: bool)
    requires |w| == 2 * n && forall p: nat :: p < |w| ==> w[p] == if IsProducer(p) == producers then x else 0
    ensures Sum(w) == n * x
    decreases n
  {
    if n > 0 {
      var v := w[..|w| - 2];
      assert w[..|w| - 1][..|w| - 2] == v;
      assert Sum(w) == Sum(v) + w[|w| - 2] + w[|w| - 1];
      SumOfAlternating(v, n - 1, x, producers);
      assert n * x == (n - 1) * x + x;
    }
  }

  lemma TotalMoved(cfg: Config, procs: seq<Local>, producers: bool)
    requires |procs| == Children(cfg)
    ensures Total(Moved(cfg, producers), procs) == Items(cfg)
  {
    var f := Moved(cfg, producers);
    SumOfAlternating(seq(|procs|, p requires 0 <= p < |procs| => f(p, procs[p])), cfg.pairs, |cfg.item|, producers);
  }

  lemma TotalIsMonotone(f: (nat, Local) -> int, g: (nat, Local) -> int, procs: seq<Local>)
    requires forall p: nat :: p < |procs| ==> f(p, procs[p]) <= g(p, procs[p])
    ensures Total(f, procs) <= Total(g, procs)
    ensures forall p: nat :: p < |procs| && f(p, procs[p]) < g(p, procs[p]) ==> Total(f, procs) < Total(g, procs)
    ensures (forall p: nat :: p < |procs| ==> f(p, procs[p]) == g(p, procs[p])) ==> Total(f, procs) == Total(g, procs)
  {
    var w := seq(|procs|, p requires 0 <= p < |procs| => f(p, procs[p]));
    var w' := seq(|procs|, p requires 0 <= p < |procs| => g(p, procs[p]));
    SumIsMonotone(w, w');
    forall p: nat | p < |procs| && f(p, procs[p]) < g(p, procs[p]) ensures Total(f, procs) < Total(g, procs) {
      assert w[p] < w'[p];
    }
    if forall p: nat :: p < |procs| ==> f(p, procs[p]) == g(p, procs[p]) { SumIsMonotone(w', w); }
  }

  /** No more is moved than there is; less while a process is still in its loop. */
  lemma MovedSoFar(cfg: Config, procs: seq<Local>)
    requires Locals(cfg, procs)
    ensures Total(Produced, procs) <= Items(cfg) && Total(Consumed, procs) <= Items(cfg)
    ensures forall p: nat :: p < |procs| && procs[p].i < |cfg.item| ==>
              if IsProducer(p) then Total(Produced, procs) < Items(cfg) else Total(Consumed, procs) < Items(cfg)
    ensures (forall p: nat :: p < |procs| && IsProducer(p) ==> procs[p].i == |cfg.item|) ==>
              Total(Produced, procs) == Items(cfg)
    ensures (forall p: nat :: p < |procs| && !IsProducer(p) ==> procs[p].i == |cfg.item|) ==>
              Total(Consumed, procs) == Items(cfg)
  {
    assert forall p: nat :: p < |procs| ==> LocalOk(cfg, procs[p]) && procs[p].i <= |cfg.item|;
    TotalMoved(cfg, procs, true);
    TotalMoved(cfg, procs, false);
    TotalIsMonotone(Produced, Moved(cfg, true), procs);
    TotalIsMonotone(Consumed, Moved(cfg, false), procs);
    forall p: nat | p < |procs| && procs[p].i < |cfg.item|
      ensures if IsProducer(p) then Total(Produced, procs) < Items(cfg) else Total(Consumed, procs) < Items(cfg)
    {
      if IsProducer(p) {
        assert Produced(p, procs[p]) < Moved(cfg, true)(p, procs[p]);
      } else {
        assert Consumed(p, procs[p]) < Moved(cfg, false)(p, procs[p]);
      }
    }
  }

  // ----- no deadlock -----

  predicate AllGone(s: State) {
    s.parent == Gone && forall p :: 0 <= p < |s.procs| ==> s.procs[p].pc == Done
  }

  /** When nobody can run, nobody is at the lock, and everybody is done or waits for a slot. */
  lemma StuckChildren(cfg: Config, s: State)
    requires Inv(cfg, s) && Stuck(cfg, s)
    ensures s.created == Children(cfg)
    ensures forall p: nat :: p < |s.procs| ==> s.procs[p].pc == Done || s.procs[p].pc == SlotSleep
  {
    assert s.created == Children(cfg) by { assert !Enabled(cfg, s, Children(cfg)); }
    OwnerCanRun(cfg, s);
    forall p: nat | p < |s.procs| ensures s.procs[p].pc == Done || s.procs[p].pc == SlotSleep {
      assert !Enabled(cfg, s, p);
      assert s.procs[p].pc == LockSleep ==> p in s.lock.waiting;
    }
  }

  lemma OwnerCanRun(cfg: Config, s: State)
    requires Inv(cfg, s) && s.created == Children(cfg)
    ensures s.lock.pid >= 0 ==> Enabled(cfg, s, s.lock.pid)
  {
  }

  /** Nobody of a kind waits for a slot, so all of that kind are done. */
  lemma KindIsDone(cfg: Config, sem: Sem, procs: seq<Local>, producers: bool)
    requires Locals(cfg, procs) && SlotInv(sem, procs, producers) && sem.count > 0
    requires forall p: nat :: p < |procs| ==> procs[p].pc == Done || procs[p].pc == SlotSleep
    ensures forall p: nat :: p < |procs| && IsProducer(p) == producers ==>
              procs[p].pc == Done && procs[p].i == |cfg.item|
  {
    forall p: nat | p < |procs| && IsProducer(p) == producers
      ensures procs[p].pc == Done && procs[p].i == |cfg.item|
    {
      assert LocalOk(cfg, procs[p]) && p !in sem.waiting;
    }
  }

  lemma NobodyWaitsForASlot(cfg: Config, s: State)
    requires Inv(cfg, s) && Stuck(cfg, s) && cfg.size > 0
    ensures forall p: nat :: p < |s.procs| ==> s.procs[p].pc == Done
  {
    hide LockInv, ParentInv, HistoryInv, BufferInv;
    var procs := s.procs;
    StuckChildren(cfg, s);
    TotalOfZero(FullToken, procs);
    TotalOfZero(EmptyToken, procs);
    MovedSoFar(cfg, procs);
    assert s.full.count == s.head - s.tail && s.empty.count == cfg.size - (s.head - s.tail);
    if s.empty.count > 0 { KindIsDone(cfg, s.empty, procs, true); }
    if s.full.count > 0 { KindIsDone(cfg, s.full, procs, false); }
    forall p: nat | p < |procs| ensures procs[p].pc == Done {
      assert LocalOk(cfg, procs[p]);
      assert procs[p].pc == SlotSleep && IsProducer(p) ==> p in s.empty.waiting;
      assert procs[p].pc == SlotSleep && !IsProducer(p) ==> p in s.full.waiting;
    }
  }

  /** No deadlock: when no process can take a step, all of them have finished, and every
      character that was inserted has been removed. */
  lemma NoDeadlock(cfg: Config, s: State)
    requires Inv(cfg, s) && Stuck(cfg, s) && cfg.size > 0
    ensures AllGone(s)
    ensures s.head == s.tail == Items(cfg)
  {
    hide LockInv, SlotInv, HistoryInv, BufferInv;
    NobodyWaitsForASlot(cfg, s);
    MovedSoFar(cfg, s.procs);
    assert forall p: nat :: p < |s.procs| ==> LocalOk(cfg, s.procs[p]);
    AllDone(s.procs);
    assert !Enabled(cfg, s, Children(cfg));
  }

  lemma AllDone(procs: seq<Local>)
    requires forall p: nat :: p < |procs| ==> procs[p].pc == Done
    ensures Total(Completed, procs) == |procs|
  {
    var one: (nat, Local) -> int := (p: nat, me: Local) => 1;
    TotalIsMonotone(Completed, one, procs);
    SumOfConstant(seq(|procs|, p requires 0 <= p < |procs| => one(p, procs[p])), 1);
  }

  // ----- every run is finite -----

  /** Work left to a child. */
  function WorkOf(cfg: Config, me: Local): int {
    var rounds := 8 * (|cfg.item| - me.i);
    match me.pc
    case WaitSlot => rounds
    case SlotSleep => rounds - 1
    case Acquire => rounds - 2
    case LockSleep => rounds - 3
    case Access => rounds - 4
    case Release => rounds + 3
    case Signal => rounds + 2
    case Finish => 1
    case Done => 0
  }

  function Work(cfg: Config): (nat, Local) -> int { (p: nat, me: Local) => WorkOf(cfg, me) }

  function ParentWork(cfg: Config, s: State): int {
    match s.parent
    case Spawn => Children(cfg) - s.created + 2
    case Await => 2
    case ParentSleep => 1
    case Gone => 0
  }

  function Measure(cfg: Config, s: State): int {
    Total(Work(cfg), s.procs) + ParentWork(cfg, s)
  }

  /** The step of `p` lowers its own work, and that of a process that it wakes. */
  lemma ChildDecreases(cfg: Config, s: State, p: nat)
    requires |s.procs| == Children(cfg) && p < |s.procs| && LocalOk(cfg, s.procs[p])
    requires s.procs[p].pc !in {SlotSleep, LockSleep, Done}
    requires forall q :: q in s.lock.waiting ==> q < |s.procs| && q != p && s.procs[q].pc == LockSleep
    requires forall q :: q in s.empty.waiting || q in s.full.waiting ==>
              q < |s.procs| && q != p && s.procs[q].pc == SlotSleep
    ensures Total(Work(cfg), StepChild(cfg, s, p).procs) < Total(Work(cfg), s.procs)
  {
    var t := StepChild(cfg, s, p);
    var procs1 := s.procs[p := t.procs[p]];
    TotalUpdate(Work(cfg), s.procs, p, t.procs[p]);
    var q := if s.procs[p].pc == Release && s.lock.pid == p then LockRelease(s.lock).woken
             else if s.procs[p].pc == Signal then SemSignal(Signals(s, p)).woken
             else None;
    if q.Some? {
      assert q.value in (if s.procs[p].pc == Release then s.lock.waiting else Signals(s, p).waiting);
      TotalUpdate(Work(cfg), procs1, q.value, t.procs[q.value]);
      assert t.procs == procs1[q.value := t.procs[q.value]];
    } else {
      assert t.procs == procs1;
    }
  }

  lemma StepDecreases(cfg: Config, s: State, p: nat)
    requires Inv(cfg, s) && Enabled(cfg, s, p)
    ensures Measure(cfg, Step(cfg, s, p)) < Measure(cfg, s)
  {
    hide TokenInv, HistoryInv, BufferInv, StepChild, Work, LocalOk, Total;
    if p < Children(cfg) {
      ChildDecreases(cfg, s, p);
      ParentDecreases(cfg, s, p);
    }
  }

  lemma ParentDecreases(cfg: Config, s: State, p: nat)
    requires Shape(cfg, s) && p < Children(cfg) && ParentInv(cfg, s)
    ensures ParentWork(cfg, StepChild(cfg, s, p)) <= ParentWork(cfg, s)
  {
  }

  lemma MeasureIsNatural(cfg: Config, s: State)
    requires Inv(cfg, s)
    ensures Measure(cfg, s) >= 0
  {
    assert forall p: nat :: p < |s.procs| ==> LocalOk(cfg, s.procs[p]);
    TotalOfNaturals(Work(cfg), s.procs);
  }

  /** A bound on the length of all runs. */
  function Limit(cfg: Config): int { Measure(cfg, Init(cfg)) }

  lemma {:induction false} RunIsBounded(cfg: Config, run: seq<State>, who: seq<nat>, k: nat)
    requires IsRun(cfg, run, who) && k < |run|
    ensures 0 <= Measure(cfg, run[k]) <= Limit(cfg) - k
  {
    hide Inv, Step, Init, Measure;
    RunKeepsInv(cfg, run, who, k);
    MeasureIsNatural(cfg, run[k]);
    if k > 0 {
      RunIsBounded(cfg, run, who, k - 1);
      RunKeepsInv(cfg, run, who, k - 1);
      StepDecreases(cfg, run[k - 1], who[k - 1]);
    }
  }

  lemma {:induction false} InitialWork(cfg: Config)
    ensures Limit(cfg) <= Children(cfg) * (8 * |cfg.item| + 2) + 2
  {
    var procs := Init(cfg).procs;
    var x := WorkOf(cfg, Local(LoopTest(cfg, 0), 0));
    var f := Work(cfg);
    SumOfConstant(seq(|procs|, p requires 0 <= p < |procs| => f(p, procs[p])), x);
    assert x <= 8 * |cfg.item| + 1;
    Scale(Children(cfg), x, 8 * |cfg.item| + 1);
  }

  lemma Scale(n: nat, x: int, y: int)
    requires x <= y
    ensures n * x <= n * y && n * (y + 1) == n * y + n
  {
  }

  /** Every run, under every schedule, ends. */
  lemma EveryRunIsShort(cfg: Config, run: seq<State>, who: seq<nat>)
    requires IsRun(cfg, run, who)
    ensures |who| <= Children(cfg) * (8 * |cfg.item| + 2) + 2
  {
    RunIsBounded(cfg, run, who, |who|);
    InitialWork(cfg);
  }

  /** The main theorem.  Every run that cannot be continued ends with all processes gone, and the
      consumers have received, in the order of insertion, exactly the item of every producer. */
  lemma EveryScheduleDelivers(cfg: Config, run: seq<State>, who: seq<nat>, p: nat)
    requires IsRun(cfg, run, who) && Stuck(cfg, run[|run| - 1]) && cfg.size > 0
    requires p < Children(cfg) && IsProducer(p)
    ensures var s := run[|run| - 1];
      && AllGone(s)
      && |s.removed| == |s.inserted| == Items(cfg)
      && (forall k :: 0 <= k < Items(cfg) ==> s.removed[k] == s.inserted[k].c)
      && InsertedBy(s.inserted, p) == cfg.item
  {
    var s := run[|run| - 1];
    RunKeepsInv(cfg, run, who, |run| - 1);
    NoDeadlock(cfg, s);
    assert LocalOk(cfg, s.procs[p]) && cfg.item[..|cfg.item|] == cfg.item;
  }

  /** Every run can be continued to one that ends. */
  lemma {:induction false} EveryRunCanComplete(cfg: Config, run: seq<State>, who: seq<nat>)
      returns (run': seq<State>, who': seq<nat>)
    requires IsRun(cfg, run, who)
    ensures IsRun(cfg, run', who') && run <= run' && Stuck(cfg, run'[|run'| - 1])
    decreases Limit(cfg) - |who|
  {
    hide Init, Step, Measure;
    var s := run[|run| - 1];
    RunIsBounded(cfg, run, who, |who|);
    if p :| Enabled(cfg, s, p) {
      var run1, who1 := run + [Step(cfg, s, p)], who + [p];
      assert IsRun(cfg, run1, who1);
      RunIsBounded(cfg, run1, who1, |who1|);
      run', who' := EveryRunCanComplete(cfg, run1, who1);
    } else {
      run', who' := run, who;
    }
  }

  // ----- the array bounds -----

  ghost predicate RunGoesOutOfBounds(cfg: Config, run: seq<State>, who: seq<nat>) {
    IsRun(cfg, run, who) && exists k: nat, p: nat :: k < |run| && OutOfBounds(cfg, run[k], p)
  }

  lemma InBounds(cfg: Config, run: seq<State>, who: seq<nat>, k: nat, p: nat)
    requires IsRun(cfg, run, who) && k < |run| && Items(cfg) <= cfg.size
    ensures !OutOfBounds(cfg, run[k], p)
  {
    var s := run[k];
    RunKeepsInv(cfg, run, who, k);
    if p < |s.procs| && s.procs[p].pc == Access {
      AtBuffer(cfg, s, p);
      MovedSoFar(cfg, s.procs);
      assert LocalOk(cfg, s.procs[p]);
    }
  }

  /** If the head has passed the last slot, some producer has written past it. */
  lemma {:induction false} Overrun(cfg: Config, run: seq<State>, who: seq<nat>, k: nat)
    requires IsRun(cfg, run, who) && k < |run| && run[k].head > cfg.size
    ensures RunGoesOutOfBounds(cfg, run, who)
  {
    if k > 0 {
      if run[k - 1].head > cfg.size {
        Overrun(cfg, run, who, k - 1);
      } else {
        assert OutOfBounds(cfg, run[k - 1], who[k - 1]);
      }
    }
  }

  /** Head and tail never wrap around.  So the accesses stay inside the array in every run exactly
      when all items together fit into it; with items of 10 characters and 64 slots, up to six
      pairs are safe, and seven are not. */
  lemma OverrunsExactlyWhenTheItemsDoNotFit(cfg: Config)
    requires cfg.size > 0
    ensures (exists run, who :: RunGoesOutOfBounds(cfg, run, who)) <==> Items(cfg) > cfg.size
  {
    if Items(cfg) > cfg.size {
      assert IsRun(cfg, [Init(cfg)], []);
      var run, who := EveryRunCanComplete(cfg, [Init(cfg)], []);
      RunKeepsInv(cfg, run, who, |run| - 1);
      NoDeadlock(cfg, run[|run| - 1]);
      Overrun(cfg, run, who, |run| - 1);
    } else {
      forall run, who | IsRun(cfg, run, who) ensures !RunGoesOutOfBounds(cfg, run, who) {
        forall k: nat, p: nat | k < |run| ensures !OutOfBounds(cfg, run[k], p) { InBounds(cfg, run, who, k, p); }
      }
    }
  }

  lemma SevenPairsOverrun(pairs: nat)
    ensures (exists run, who :: RunGoesOutOfBounds(Q3(pairs), run, who)) <==> pairs >= 7
  {
    OverrunsExactlyWhenTheItemsDoNotFit(Q3(pairs));
  }
}
