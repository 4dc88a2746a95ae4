/** The kernel as the C code has it: PCBs, semaphores, locks and condition variables whose queues
    are linked lists over one pool of links (os/process.c, os/synch.c).  Every method is proved to
    make the transition of the state machine in `KernelState`. */
module Kernels {
  import opened Sequences
  import opened Queues
  import opened KernelQueues
  import Synch
  import Processes
  import KS = KernelState
  import KernelInvariant
  import KernelObjects

  lemma {:induction false} QueuedUpdate(c: seq<seq<int>>, q: nat, s: seq<int>, n: nat)
    requires q < |c| && n <= |c|
    ensures Queued(c[q := s], n) == Queued(c, n) + if q < n then |s| - |c[q]| else 0
  {
    if n > 0 { QueuedUpdate(c, q, s, n - 1); }
  }

  /** Without its first occurrence, which is at place `k`. */
  lemma {:induction false} WithoutAt(w: seq<nat>, p: nat, k: nat)
    requires k < |w| && w[k] == p && Distinct(w)
    ensures Processes.Without(w, p) == RemoveAt(w, k)
  {
    if k == 0 {
      assert RemoveAt(w, 0) == w[1..];
    } else {
      HeadAndTail(w);
      assert w[1..][k - 1] == p && w[0] != p;
      WithoutAt(w[1..], p, k - 1);
      RemoveFromTail(w, k);
    }
  }

  lemma RemoveFromTail(w: seq<nat>, k: nat)
    requires 0 < k < |w|
    ensures RemoveAt(w, k) == [w[0]] + RemoveAt(w[1..], k - 1)
  {
  }

  lemma NothingLinked(m: seq<Link>, l: seq<int>, c: seq<seq<int>>, who: seq<seq<nat>>)
    requires |who| == |c| > 0 && forall q :: 0 < q < |c| ==> c[q] == [] && who[q] == []
    ensures AllCarry(m, l, c, who) && Queued(c, |c|) == |c[FREE]|
  {
    OnlyFree(c, |c|);
  }

  lemma {:induction false} OnlyFree(c: seq<seq<int>>, n: nat)
    requires 0 < n <= |c| && forall q :: 0 < q < |c| ==> c[q] == []
    ensures Queued(c, n) == |c[FREE]|
  {
    if n > 1 { OnlyFree(c, n - 1); } else { assert Queued(c, 0) == 0; }
  }

  /** No link is lost when one is moved from one queue to another. */
  lemma MovedBetween(c: seq<seq<int>>, a: nat, s: seq<int>, b: nat, t: seq<int>)
    requires a < |c| && b < |c| && a != b && |s| + |t| == |c[a]| + |c[b]|
    ensures Queued(c[a := s][b := t], |c|) == Queued(c, |c|)
  {
    QueuedUpdate(c, a, s, |c|);
    QueuedUpdate(c[a := s], b, t, |c|);
  }

  // The fields of the C structures, without their queues.
  datatype SemFields = SemFields(inuse: bool, count: int)
  datatype LockFields = LockFields(inuse: bool, pid: int)
  datatype CondFields = CondFields(inuse: bool, lock: int)

  ghost predicate SemsMatch(fields: seq<SemFields>, sems: seq<Synch.Sem>, who: seq<seq<nat>>, base: nat) {
    && |sems| == |fields| && base + |fields| <= |who|
    && forall s: nat :: s < |fields| ==> sems[s] == Synch.Sem(fields[s].inuse, fields[s].count, who[base + s])
  }

  ghost predicate LocksMatch(fields: seq<LockFields>, locks: seq<Synch.Lock>, who: seq<seq<nat>>, base: nat) {
    && |locks| == |fields| && base + |fields| <= |who|
    && forall k: nat :: k < |fields| ==> locks[k] == Synch.Lock(fields[k].inuse, fields[k].pid, who[base + k])
  }

  ghost predicate CondsMatch(fields: seq<CondFields>, conds: seq<Synch.Cond>, who: seq<seq<nat>>, base: nat) {
    && |conds| == |fields| && base + |fields| <= |who|
    && forall c: nat :: c < |fields| ==> conds[c] == Synch.Cond(fields[c].inuse, fields[c].lock, who[base + c])
  }

  /** The process queues hold what the state machine says. */
  ghost predicate ProcsMatch(ps: Processes.Procs, flags: seq<Processes.Status>, who: seq<seq<nat>>, current: int) {
    && |who| >= OBJECTS && flags == ps.status && current == ps.current
    && who[FREEPCBS] == ps.free && who[RUNQUEUE] == ps.run && who[WAITQUEUE] == ps.wait && who[ZOMBIEQUEUE] == ps.zombie
  }

  /** The PIDs below `n`, the last one first. */
  ghost function CountDown(n: nat): (s: seq<nat>)
    ensures |s| == n && forall j :: 0 <= j < n ==> s[j] == n - 1 - j
  {
    if n == 0 then [] else [n - 1] + CountDown(n - 1)
  }

  lemma BootMatches(nProcs: nat, nSems: nat, nLocks: nat, nConds: nat, who: seq<seq<nat>>)
    requires |who| == OBJECTS + nSems + nLocks + nConds && forall q :: 0 < q < |who| && q != FREEPCBS ==> who[q] == []
    requires who[FREEPCBS] == CountDown(nProcs)
    ensures var st := KS.Boot(nProcs, nSems, nLocks, nConds);
      && ProcsMatch(st.procs, seq(nProcs, _ => Processes.Free), who, Processes.NOBODY)
      && SemsMatch(seq(nSems, _ => SemFields(false, 0)), st.sems, who, OBJECTS)
      && LocksMatch(seq(nLocks, _ => LockFields(false, 0)), st.locks, who, OBJECTS + nSems)
      && CondsMatch(seq(nConds, _ => CondFields(false, 0)), st.conds, who, OBJECTS + nSems + nLocks)
  {
  }

  class Kernel {
    const pool: LinkPool
    var flags: seq<Processes.Status>    // pcbs[].flags
    var l: seq<int>                     // pcbs[].l
    var currentPCB: int
    var sems: seq<SemFields>
    var locks: seq<LockFields>
    var conds: seq<CondFields>
    var calls: seq<KS.Call>             // what the saved kernel stack of each process is inside of
    var halted: bool                    // exitsim() was called
    ghost var who: seq<seq<nat>>        // the processes on every queue
    ghost var st: KS.Kernel             // the state of the state machine

    function SemQueue(s: nat): nat { OBJECTS + s }

    function LockQueue(k: nat): nat
      reads this`sems
    {
      OBJECTS + |sems| + k
    }

    function CondQueue(c: nat): nat
      reads this`sems, this`locks
    {
      OBJECTS + |sems| + |locks| + c
    }

    /** The fields and the linked lists are those of the state `st`. */
    ghost predicate Coupled()
      reads this, pool, pool.linkpool, pool.queues
    {
      && Linked() && |l| == |flags| == |calls| && calls == st.calls && halted == st.halted
      && |who| == CondQueue(|conds|)
      && ProcsMatch(st.procs, flags, who, currentPCB)
      && SemsMatch(sems, st.sems, who, SemQueue(0))
      && LocksMatch(locks, st.locks, who, LockQueue(0))
      && CondsMatch(conds, st.conds, who, CondQueue(0))
    }

    /** The kernel between two traps: still coupled, with links for everybody, and well-formed. */
    ghost predicate Valid()
      reads this, pool, pool.linkpool, pool.queues
    {
      Coupled() && pool.linkpool.Length >= 2 * |flags| && KS.KernelOk(st)
    }

    ghost predicate Linked()
      reads this`l, this`who, pool, pool.linkpool, pool.queues
    {
      && pool.Valid()
      && AllCarry(pool.linkpool[..], l, pool.contents, who)
      && Queued(pool.contents, |pool.contents|) == pool.linkpool.Length
      && |who| == |pool.contents| == pool.queues.Length >= OBJECTS
    }

    /** The static data as the kernel starts, AQueueModuleInit, ProcessModuleInit, and
        SynchModuleInit. */
    constructor (nProcs: nat, nLinks: nat, nSems: nat, nLocks: nat, nConds: nat)
      requires nLinks >= 2 * nProcs
      ensures Valid() && st == KS.Boot(nProcs, nSems, nLocks, nConds)
      ensures fresh(pool) && fresh(pool.linkpool) && fresh(pool.queues)
    {
      hide RefinesBut, Linked, SemsMatch, LocksMatch, CondsMatch, ProcsMatch, KS.KernelOk;
      flags := seq(nProcs, _ => Processes.Free);
      l := seq(nProcs, _ => NULL);
      currentPCB := Processes.NOBODY;
      sems := seq(nSems, _ => SemFields(false, 0));
      locks := seq(nLocks, _ => LockFields(false, 0));
      conds := seq(nConds, _ => CondFields(false, 0));
      calls := seq(nProcs, _ => KS.NoCall);
      halted := false;
      who := seq(OBJECTS + nSems + nLocks + nConds, _ => []);
      st := KS.Boot(nProcs, nSems, nLocks, nConds);
      pool := new LinkPool(nLinks, OBJECTS + nSems + nLocks + nConds);
      new;
      ProcessModuleInit();
      BootMatches(nProcs, nSems, nLocks, nConds, who);
      KernelInvariant.BootOk(nProcs, nSems, nLocks, nConds);
    }

    /** The loop of ProcessModuleInit: every PCB gets a link, and goes to the front of freepcbs. */
    method ProcessModuleInit()
      requires pool.Valid() && |who| == |pool.contents| == pool.queues.Length >= OBJECTS
      requires |pool.contents[FREE]| == pool.linkpool.Length >= |l|
      requires forall q :: 0 < q < |who| ==> pool.contents[q] == [] && who[q] == []
      modifies this`l, this`who, pool`contents, pool.linkpool, pool.queues
      ensures Linked() && |l| == old(|l|)
      ensures who == old(who)[FREEPCBS := CountDown(|l|)]
    {
      hide RefinesBut, AllCarry, Queued;
      NothingLinked(pool.linkpool[..], l, pool.contents, who);
      assert who[FREEPCBS] == CountDown(0);
      ghost var n, free := |l|, |pool.contents[FREE]|;
      for i := 0 to |l|
        invariant Linked() && |l| == n && |pool.contents[FREE]| == free - i
        invariant |who| == |old(who)| && who[FREEPCBS] == CountDown(i)
        invariant forall q :: 0 <= q < |who| && q != FREEPCBS ==> who[q] == old(who)[q]
      {
        PutProcess(FREEPCBS, i, true);
      }
    }

    // ----- moving links -----

    /** AQueueRemove(&pcb->l) on a PCB that is on process queue `q`. */
    method TakeProcess(ghost q: nat, p: nat)
      requires Linked() && IsProcessQueue(q) && p in who[q] && Distinct(who[q])
      modifies this`l, this`who, pool`contents, pool.linkpool, pool.queues
      ensures Linked() && who == old(who)[q := Processes.Without(old(who[q]), p)]
      ensures |l| == old(|l|) && pool.contents[FREE] != []
    {
      hide RefinesBut, AllCarry, Queued, Index;
      ghost var m, qs, c := pool.linkpool[..], pool.queues[..], pool.contents;
      ghost var k := PlaceOf(m, qs, l, c, who, q, p);
      WithoutAt(who[q], p, k);
      var ok, pl := pool.Remove(l[p]);
      AfterTake(m, qs, l, c, who, pool.linkpool[..], pool.contents, q, k, p);
      MovedBetween(c, q, RemoveAt(c[q], k), FREE, c[FREE] + [l[p]]);
      l := l[p := pl];
      who := who[q := Processes.Without(who[q], p)];
    }

    /** AQueueAllocLink and AQueueInsertLast, or AQueueInsertFirst, of a PCB that is on no process
        queue.  Neither fails while a link is free. */
    method PutProcess(q: int, p: nat, front: bool)
      requires Linked() && IsProcessQueue(q) && pool.contents[FREE] != [] && p < |l|
      requires forall x :: IsProcessQueue(x) ==> p !in who[x]
      modifies this`l, this`who, pool`contents, pool.linkpool, pool.queues
      ensures Linked() && |l| == old(|l|) && |pool.contents[FREE]| == old(|pool.contents[FREE]|) - 1
      ensures who == old(who)[q := if front then [p] + old(who[q]) else old(who[q]) + [p]]
    {
      hide RefinesBut, AllCarry, Queued;
      ghost var m, l0, c := pool.linkpool[..], l, pool.contents;
      var x := pool.AllocLink(p);
      NotElsewhere(pool.linkpool[..], pool.queues[..], pool.contents, x);
      assert forall j :: 0 < j < |c| ==> c[j] == pool.contents[j];
      l := l[p := x];
      var ok;
      if front {
        ok := pool.InsertFirst(q, x);
      } else {
        ok := pool.InsertLast(q, x);
      }
      AfterPut(m, l0, c, who, pool.linkpool[..], l, pool.contents, q, x, p, front);
      MovedBetween(c, FREE, c[FREE][1..], q, pool.contents[q]);
      who := who[q := if front then [p] + who[q] else who[q] + [p]];
    }

    /** AQueueAllocLink and AQueueInsertLast on the queue of a synchronisation object. */
    method Enqueue(q: int, p: nat)
      requires Linked() && OBJECTS <= q < |who| && pool.contents[FREE] != [] && p < |l|
      modifies this`who, pool`contents, pool.linkpool, pool.queues
      ensures Linked()
      ensures who == old(who)[q := old(who[q]) + [p]]
    {
      hide RefinesBut, AllCarry, Queued;
      ghost var m, c := pool.linkpool[..], pool.contents;
      var x := pool.AllocLink(p);
      NotElsewhere(pool.linkpool[..], pool.queues[..], pool.contents, x);
      assert forall j :: 0 < j < |c| ==> c[j] == pool.contents[j];
      var ok := pool.InsertLast(q, x);
      AfterPut(m, l, c, who, pool.linkpool[..], l, pool.contents, q, x, p, false);
      MovedBetween(c, FREE, c[FREE][1..], q, pool.contents[q]);
      who := who[q := who[q] + [p]];
    }

    /** AQueueFirst, AQueueObject and AQueueRemove on the queue of a synchronisation object. */
    method Dequeue(q: int) returns (p: nat)
      requires Linked() && OBJECTS <= q < |who| && who[q] != []
      modifies this`who, pool`contents, pool.linkpool, pool.queues
      ensures Linked() && pool.contents[FREE] != []
      ensures p == old(who[q])[0] && who == old(who)[q := old(who[q])[1..]]
    {
      hide RefinesBut, AllCarry, Queued, Index;
      ghost var m, qs, c := pool.linkpool[..], pool.queues[..], pool.contents;
      FirstOf(m, qs, l, c, who, q);
      var first := pool.queues[q].first;
      p := pool.linkpool[first].obj;
      var ok, pl := pool.Remove(first);
      AfterDequeue(m, qs, l, c, who, pool.linkpool[..], pool.contents, q);
      MovedBetween(c, q, RemoveAt(c[q], 0), FREE, c[FREE] + [first]);
      who := who[q := who[q][1..]];
    }

    // ----- process.c -----

    /** ProcessSuspend */
    method ProcessSuspend(p: nat)
      requires Coupled() && Processes.ProcsOk(st.procs) && p in st.procs.run
      modifies this`flags, this`l, this`who, this`st, pool`contents, pool.linkpool, pool.queues
      ensures Coupled()
      ensures p < |old(st).procs.status| && st == old(st).(procs := Processes.Suspend(old(st).procs, p))
    {
      hide Linked, Processes.ProcsOk, SemsMatch, LocksMatch, CondsMatch;
      InOneQueue(st.procs, p);
      MatchesKept(RUNQUEUE, Processes.Without(who[RUNQUEUE], p), WAITQUEUE, who[WAITQUEUE] + [p]);
      assert flags[p] == Processes.Runnable;
      flags := flags[p := Processes.Waiting];
      TakeProcess(RUNQUEUE, p);
      PutProcess(WAITQUEUE, p, false);
      st := st.(procs := Processes.Suspend(st.procs, p));
    }

    /** ProcessWakeup */
    method ProcessWakeup(p: nat)
      requires Coupled() && Processes.ProcsOk(st.procs) && p in st.procs.wait
      modifies this`flags, this`l, this`who, this`st, pool`contents, pool.linkpool, pool.queues
      ensures Coupled()
      ensures p < |old(st).procs.status| && st == old(st).(procs := Processes.Wakeup(old(st).procs, p))
    {
      hide Linked, Processes.ProcsOk, SemsMatch, LocksMatch, CondsMatch;
      InOneQueue(st.procs, p);
      MatchesKept(WAITQUEUE, Processes.Without(who[WAITQUEUE], p), RUNQUEUE, who[RUNQUEUE] + [p]);
      assert flags[p] == Processes.Waiting;
      flags := flags[p := Processes.Runnable];
      TakeProcess(WAITQUEUE, p);
      PutProcess(RUNQUEUE, p, false);
      st := st.(procs := Processes.Wakeup(st.procs, p));
    }

    /** ProcessDestroy */
    method ProcessDestroy(p: nat)
      requires Coupled() && Processes.ProcsOk(st.procs) && p in st.procs.run
      modifies this`flags, this`l, this`who, this`st, pool`contents, pool.linkpool, pool.queues
      ensures Coupled()
      ensures p < |old(st).procs.status| && st == old(st).(procs := Processes.Destroy(old(st).procs, p))
    {
      hide Linked, Processes.ProcsOk, SemsMatch, LocksMatch, CondsMatch;
      InOneQueue(st.procs, p);
      MatchesKept(RUNQUEUE, Processes.Without(who[RUNQUEUE], p), ZOMBIEQUEUE, [p] + who[ZOMBIEQUEUE]);
      flags := flags[p := Processes.Zombie];
      TakeProcess(RUNQUEUE, p);
      PutProcess(ZOMBIEQUEUE, p, true);
      st := st.(procs := Processes.Destroy(st.procs, p));
    }

    /** One turn of the loop in ProcessSchedule that frees zombies: AQueueRemove, and the part of
        ProcessFreeResources that gives the PCB back. */
    method FreeZombie()
      requires Coupled() && Processes.ProcsOk(st.procs) && st.procs.zombie != []
      modifies this`flags, this`l, this`who, this`st, pool`contents, pool.linkpool, pool.queues
      ensures Coupled()
      ensures var ps := old(st).procs;
        var p := ps.zombie[0];
        && p < |ps.status|
        && st == old(st).(procs := ps.(status := ps.status[p := Processes.Free], zombie := ps.zombie[1..], free := ps.free + [p]))
    {
      hide RefinesBut, AllCarry, Queued, Processes.ProcsOk, SemsMatch, LocksMatch, CondsMatch;
      FirstOf(pool.linkpool[..], pool.queues[..], l, pool.contents, who, ZOMBIEQUEUE);
      var p := pool.linkpool[pool.queues[ZOMBIEQUEUE].first].obj;
      assert p == st.procs.zombie[0];
      FirstOfZombies(st.procs, p);
      MatchesKept(ZOMBIEQUEUE, Processes.Without(who[ZOMBIEQUEUE], p), FREEPCBS, who[FREEPCBS] + [p]);
      TakeProcess(ZOMBIEQUEUE, p);
      FreePcb(p);
      st := st.(procs := st.procs.(status := st.procs.status[p := Processes.Free],
                                   zombie := st.procs.zombie[1..], free := st.procs.free + [p]));
    }

    /** The part of ProcessFreeResources that puts a PCB on freepcbs again. */
    method FreePcb(p: nat)
      requires Linked() && pool.contents[FREE] != [] && p < |l| == |flags|
      requires forall x :: IsProcessQueue(x) ==> p !in who[x]
      modifies this`flags, this`l, this`who, pool`contents, pool.linkpool, pool.queues
      ensures Linked() && |l| == old(|l|) && flags == old(flags)[p := Processes.Free]
      ensures who == old(who)[FREEPCBS := old(who[FREEPCBS]) + [p]]
    {
      PutProcess(FREEPCBS, p, false);
      flags := flags[p := Processes.Free];
    }

    /** AQueueEmpty */
    method IsEmpty(q: nat) returns (empty: bool)
      requires Linked() && 0 < q < |who|
      ensures empty <==> who[q] == []
    {
      hide RefinesBut, Spells;
      QueueFacts(pool.linkpool[..], pool.queues[..], pool.contents, NULL, q);
      assert Carries(pool.linkpool[..], l, q, pool.contents[q], who[q]);
      return pool.queues[q].nitems == 0;
    }

    /** AQueueObject(AQueueFirst(q)) */
    method FirstObject(q: nat) returns (p: nat)
      requires Linked() && 0 < q < |who| && who[q] != []
      ensures p == who[q][0]
    {
      hide RefinesBut, AllCarry, Queued;
      FirstOf(pool.linkpool[..], pool.queues[..], l, pool.contents, who, q);
      return pool.linkpool[pool.queues[q].first].obj;
    }

    /** AQueueMoveAfter(&runQueue, AQueueLast(&runQueue), AQueueFirst(&runQueue)) */
    method RotateRunQueue()
      requires Linked() && who[RUNQUEUE] != []
      modifies this`who, pool`contents, pool.linkpool, pool.queues
      ensures Linked() && who == old(who)[RUNQUEUE := Processes.Rotate(old(who[RUNQUEUE]))]
    {
      hide RefinesBut, AllCarry, Queued, Relocated;
      ghost var m, qs, c := pool.linkpool[..], pool.queues[..], pool.contents;
      FirstOf(m, qs, l, c, who, RUNQUEUE);
      QueueFacts(m, qs, c, NULL, RUNQUEUE);
      var ok := pool.MoveAfter(RUNQUEUE, pool.queues[RUNQUEUE].last, pool.queues[RUNQUEUE].first);
      if |who[RUNQUEUE]| == 1 {
        assert Processes.Rotate(who[RUNQUEUE]) == who[RUNQUEUE] && who[RUNQUEUE := who[RUNQUEUE]] == who;
      } else {
        AfterRotate(m, l, c, who, pool.linkpool[..], RUNQUEUE);
        QueuedUpdate(c, RUNQUEUE, c[RUNQUEUE][1..] + [c[RUNQUEUE][0]], |c|);
      }
      who := who[RUNQUEUE := Processes.Rotate(who[RUNQUEUE])];
    }

    /** The middle of ProcessSchedule: rotate the run queue, unless the process in front of it has
        just been suspended, and run the one in front. */
    method Dispatch(suspended: bool)
      requires Coupled() && st.procs.run != []
      modifies this`who, this`st, this`currentPCB, pool`contents, pool.linkpool, pool.queues
      ensures Coupled()
      ensures var ps := old(st).procs;
        var run := if suspended then ps.run else Processes.Rotate(ps.run);
        st == old(st).(procs := ps.(run := run, current := run[0]))
    {
      hide Linked, SemsMatch, LocksMatch, CondsMatch;
      RunMatchesKept(Processes.Rotate(who[RUNQUEUE]));
      if !suspended {
        RotateRunQueue();
      }
      currentPCB := FirstObject(RUNQUEUE);
      ghost var ps, run := st.procs, if suspended then st.procs.run else Processes.Rotate(st.procs.run);
      st := st.(procs := ps.(run := run, current := run[0]));
    }

    /** ProcessSchedule; the kernel stops if nobody can run. */
    method ProcessSchedule(suspended: bool)
      requires Coupled() && Processes.ProcsOk(st.procs)
      modifies this`flags, this`l, this`who, this`st, this`currentPCB, this`halted, pool`contents, pool.linkpool,
               pool.queues
      ensures Coupled()
      ensures ZombiesExist(old(st).procs) && st == KS.Reschedule(old(st), suspended)
    {
      hide Linked, SemsMatch, LocksMatch, CondsMatch, Processes.Reap, Processes.ProcsOk;
      ZombiesAreProcesses(st.procs);
      var empty := IsEmpty(RUNQUEUE);
      if empty {
        halted := true;
        st := KS.Halt(st);
      } else {
        FrontOk(st.procs, suspended);
        Dispatch(suspended);
        FreeZombies();
      }
    }

    /** The loop of ProcessSchedule that frees all zombies. */
    method FreeZombies()
      requires Coupled() && Processes.ProcsOk(st.procs)
      modifies this`flags, this`l, this`who, this`st, pool`contents, pool.linkpool, pool.queues
      ensures Coupled() && ZombiesExist(old(st).procs) && st == old(st).(procs := Processes.Reap(old(st).procs))
    {
      hide Linked, SemsMatch, LocksMatch, CondsMatch, Processes.ProcsOk;
      ZombiesAreProcesses(st.procs);
      var done := IsEmpty(ZOMBIEQUEUE);
      while !done
        invariant Coupled() && Processes.ProcsOk(st.procs) && (done <==> st.procs.zombie == [])
        invariant ZombiesExist(st.procs) && Processes.Reap(st.procs) == Processes.Reap(old(st).procs)
        invariant st == old(st).(procs := st.procs)
        decreases |st.procs.zombie|
      {
        ReapStepOk(st.procs);
        FreeZombie();
        ZombiesAreProcesses(st.procs);
        done := IsEmpty(ZOMBIEQUEUE);
      }
    }

    // ----- synch.c -----

    /** What changes when semaphore `s`, or its queue, does. */
    lemma SemChanged(s: nat, f: SemFields, w: seq<nat>)
      requires Coupled() && s < |sems|
      ensures var who' := who[SemQueue(s) := w];
        && ProcsMatch(st.procs, flags, who', currentPCB)
        && SemsMatch(sems[s := f], st.sems[s := Synch.Sem(f.inuse, f.count, w)], who', SemQueue(0))
        && LocksMatch(locks, st.locks, who', LockQueue(0))
        && CondsMatch(conds, st.conds, who', CondQueue(0))
    {
      hide Linked;
    }

    lemma LockChanged(k: nat, f: LockFields, w: seq<nat>)
      requires Coupled() && k < |locks|
      ensures var who' := who[LockQueue(k) := w];
        && ProcsMatch(st.procs, flags, who', currentPCB)
        && SemsMatch(sems, st.sems, who', SemQueue(0))
        && LocksMatch(locks[k := f], st.locks[k := Synch.Lock(f.inuse, f.pid, w)], who', LockQueue(0))
        && CondsMatch(conds, st.conds, who', CondQueue(0))
    {
      hide Linked;
    }

    lemma CondChanged(c: nat, f: CondFields, w: seq<nat>)
      requires Coupled() && c < |conds|
      ensures var who' := who[CondQueue(c) := w];
        && ProcsMatch(st.procs, flags, who', currentPCB)
        && SemsMatch(sems, st.sems, who', SemQueue(0))
        && LocksMatch(locks, st.locks, who', LockQueue(0))
        && CondsMatch(conds[c := f], st.conds[c := Synch.Cond(f.inuse, f.lock, w)], who', CondQueue(0))
    {
      hide Linked;
    }

    /** ProcessSleep, inside a call: the trap suspends the current process and schedules. */
    method ProcessSleep(call: KS.Call)
      requires Coupled() && Processes.ProcsOk(st.procs) && currentPCB >= 0 && currentPCB in st.procs.run
      modifies this`flags, this`l, this`who, this`st, this`currentPCB, this`halted, this`calls, pool`contents,
               pool.linkpool, pool.queues
      ensures Coupled()
      ensures var k, p := old(st), old(currentPCB);
        ZombiesExist(k.procs) && p < |k.procs.status| == |k.calls| && st == KS.Sleep(k, p, call)
    {
      hide Linked, SemsMatch, LocksMatch, CondsMatch, Processes.ProcsOk, KS.Reschedule;
      InOneQueue(st.procs, currentPCB);
      ZombiesAreProcesses(st.procs);
      Processes.SuspendOk(st.procs, currentPCB);
      calls := calls[currentPCB := call];
      st := st.(calls := calls);
      ProcessSuspend(currentPCB);
      ProcessSchedule(true);
    }

    /** The current process of a kernel that runs. */
    lemma CurrentFacts()
      requires Valid() && !halted && currentPCB >= 0
      ensures KernelInvariant.Running(st, currentPCB) && Processes.ProcsOk(st.procs) && ZombiesExist(st.procs)
      ensures currentPCB in st.procs.run && currentPCB < |flags| == |st.calls| == |st.procs.status|
    {
      hide Linked, SemsMatch, LocksMatch, CondsMatch;
      KS.CurrentIsRunnable(st);
      KernelInvariant.RunningFacts(st, currentPCB);
    }

    /** SemWait, up to its sleep */
    method SemWait(s: nat) returns (done: bool)
      requires Valid() && !halted && currentPCB >= 0 && s < |sems|
      modifies this`flags, this`l, this`who, this`st, this`currentPCB, this`halted, this`calls, this`sems,
               pool`contents, pool.linkpool, pool.queues
      ensures Coupled() && (done <==> old(sems)[s].count > 0)
      ensures var k, p := old(st), old(currentPCB);
        ZombiesExist(k.procs) && p < |k.procs.status| == |k.calls| && s < |k.sems| && st == KS.DoSemWait(k, p, s)
    {
      hide Linked, SemsMatch, LocksMatch, CondsMatch, ProcsMatch, KS.KernelOk, Processes.ProcsOk, KS.Sleep;
      CurrentFacts();
      SemOf(s);
      done := sems[s].count > 0;
      if sems[s].count <= 0 {
        LinkToSpare(currentPCB);
        SemChanged(s, sems[s], who[SemQueue(s)] + [currentPCB]);
        assert sems[s := sems[s]] == sems;
        Enqueue(SemQueue(s), currentPCB);
        st := st.(sems := st.sems[s := Synch.SemWait(st.sems[s], currentPCB).obj]);
        ProcessSleep(KS.InSem(s));
      } else {
        SemChanged(s, sems[s].(count := sems[s].count - 1), who[SemQueue(s)]);
        assert who[SemQueue(s) := who[SemQueue(s)]] == who;
        sems := sems[s := sems[s].(count := sems[s].count - 1)];
        st := st.(sems := st.sems[s := Synch.SemWait(st.sems[s], currentPCB).obj]);
      }
    }

    lemma SemOf(s: nat)
      requires Coupled() && s < |sems|
      ensures SemQueue(s) < |who| && |sems| == |st.sems|
      ensures st.sems[s] == Synch.Sem(sems[s].inuse, sems[s].count, who[SemQueue(s)])
    {
    }

    lemma LockOf(k: nat)
      requires Coupled() && k < |locks|
      ensures LockQueue(k) < |who| && |locks| == |st.locks|
      ensures st.locks[k] == Synch.Lock(locks[k].inuse, locks[k].pid, who[LockQueue(k)])
    {
    }

    lemma CondOf(c: nat)
      requires Coupled() && c < |conds|
      ensures CondQueue(c) < |who| && |conds| == |st.conds|
      ensures st.conds[c] == Synch.Cond(conds[c].inuse, conds[c].lock, who[CondQueue(c)])
    {
    }

    /** A sleeper on the queue of an object is on the wait queue. */
    lemma SleeperWaits(q: nat, x: nat)
      requires Coupled() && KS.ObjectsOk(st) && Processes.ProcsOk(st.procs) && OBJECTS <= q < |who| && x in who[q]
      ensures x in st.procs.wait
    {
      hide Linked;
      QueueHoldsSleepers(q);
    }

    /** The first sleeper on the queue of an object can be woken. */
    lemma FirstSleeperWaits(q: nat)
      requires Valid() && !halted && OBJECTS <= q < |who|
      ensures who[q] != [] ==> who[q][0] in st.procs.wait
    {
      hide Linked, SemsMatch, LocksMatch, CondsMatch, ProcsMatch, KS.ObjectsOk, KS.CallsOk, Processes.ProcsOk;
      if who[q] != [] { SleeperWaits(q, who[q][0]); }
    }

    /** SemSignal */
    method SemSignal(s: nat)
      requires Valid() && !halted && currentPCB >= 0 && s < |sems|
      modifies this`flags, this`l, this`who, this`st, this`sems, pool`contents, pool.linkpool, pool.queues
      ensures Coupled()
      ensures s < |old(st).sems| && st == KS.DoSemSignal(old(st), s)
    {
      hide Linked, SemsMatch, LocksMatch, CondsMatch, ProcsMatch, KS.KernelOk, Processes.ProcsOk;
      CurrentFacts();
      SemOf(s);
      FirstSleeperWaits(SemQueue(s));
      ghost var k, w: seq<nat> := st, who[SemQueue(s)];
      var f := sems[s].(count := sems[s].count + 1);
      SemChanged(s, f, w);
      assert who[SemQueue(s) := w] == who;
      sems := sems[s := f];
      st := st.(sems := st.sems[s := Synch.Sem(f.inuse, f.count, w)]);
      if f.count > 0 {
        var empty := IsEmpty(SemQueue(s));
        if !empty {
          SemWakeFirst(s);
          assert k.sems[s := Synch.Sem(f.inuse, f.count, w)][s := Synch.SemSignal(k.sems[s]).obj]
              == k.sems[s := Synch.SemSignal(k.sems[s]).obj];
        }
      }
    }

    /** The lines of SemSignal that wake the first sleeper, and take back the count for it. */
    method SemWakeFirst(s: nat)
      requires Coupled() && Processes.ProcsOk(st.procs) && s < |sems| == |st.sems|
      requires st.sems[s].waiting != [] && st.sems[s].waiting[0] in st.procs.wait
      modifies this`flags, this`l, this`who, this`st, this`sems, pool`contents, pool.linkpool, pool.queues
      ensures Coupled()
      ensures var x := old(st).sems[s];
        st == KS.WakeIfAny(old(st).(sems := old(st).sems[s := x.(count := x.count - 1, waiting := x.waiting[1..])]),
                           Synch.Some(x.waiting[0]))
    {
      hide Linked, SemsMatch, LocksMatch, CondsMatch, ProcsMatch, Processes.ProcsOk;
      SemOf(s);
      ghost var w: seq<nat> := who[SemQueue(s)];
      var f := sems[s].(count := sems[s].count - 1);
      SemChanged(s, f, w[1..]);
      var x := Dequeue(SemQueue(s));
      sems := sems[s := f];
      st := st.(sems := st.sems[s := Synch.Sem(f.inuse, f.count, w[1..])]);
      ProcessWakeup(x);
    }

    /** LockAcquire, up to its sleep */
    method LockAcquire(k: nat) returns (done: bool)
      requires Valid() && !halted && currentPCB >= 0 && k < |locks|
      modifies this`flags, this`l, this`who, this`st, this`currentPCB, this`halted, this`calls, this`locks,
               pool`contents, pool.linkpool, pool.queues
      ensures Coupled() && (done <==> old(locks)[k].pid < 0 || old(locks)[k].pid == old(currentPCB))
      ensures var t, p := old(st), old(currentPCB);
        ZombiesExist(t.procs) && p < |t.procs.status| == |t.calls| && k < |t.locks| && st == KS.DoLockAcquire(t, p, k)
    {
      hide Linked, SemsMatch, LocksMatch, CondsMatch, ProcsMatch, KS.KernelOk, Processes.ProcsOk, KS.Sleep;
      CurrentFacts();
      LockOf(k);
      ghost var q: nat, w: seq<nat> := LockQueue(k), who[LockQueue(k)];
      assert locks[k := locks[k]] == locks && who[q := w] == who && st.locks[k := st.locks[k]] == st.locks;
      done := locks[k].pid < 0 || locks[k].pid == currentPCB;
      if locks[k].pid == currentPCB {
        calls := calls[currentPCB := KS.NoCall];
        st := st.(calls := calls);
      } else if locks[k].pid >= 0 {
        LinkToSpare(currentPCB);
        LockChanged(k, locks[k], w + [currentPCB]);
        Enqueue(LockQueue(k), currentPCB);
        st := st.(locks := st.locks[k := Synch.LockAcquire(st.locks[k], currentPCB).obj]);
        ProcessSleep(KS.InLock(k));
      } else {
        LockChanged(k, locks[k].(pid := currentPCB), w);
        locks := locks[k := locks[k].(pid := currentPCB)];
        calls := calls[currentPCB := KS.NoCall];
        st := st.(locks := st.locks[k := Synch.LockAcquire(st.locks[k], currentPCB).obj], calls := calls);
      }
    }

    /** LockRelease: by the owner, it gives the lock to the first waiter, and wakes it. */
    method LockRelease(k: nat) returns (ok: bool)
      requires Coupled() && Processes.ProcsOk(st.procs) && currentPCB >= 0 && k < |locks| == |st.locks|
      requires st.locks[k].waiting != [] ==> st.locks[k].waiting[0] in st.procs.wait
      modifies this`flags, this`l, this`who, this`st, this`locks, pool`contents, pool.linkpool, pool.queues
      ensures Coupled()
      ensures ok <==> old(locks[k].pid) == currentPCB
      ensures st == KS.DoLockRelease(old(st), currentPCB, k)
    {
      hide Linked, SemsMatch, LocksMatch, CondsMatch, ProcsMatch, Processes.ProcsOk;
      if locks[k].pid != currentPCB {
        LockOf(k);
        return false;
      }
      LockOf(k);
      ghost var q: nat, w: seq<nat> := LockQueue(k), who[LockQueue(k)];
      var empty := IsEmpty(LockQueue(k));
      if empty {
        LockChanged(k, locks[k].(pid := -1), w);
        assert who[q := w] == who;
        locks := locks[k := locks[k].(pid := -1)];
        st := st.(locks := st.locks[k := Synch.LockRelease(st.locks[k]).obj]);
      } else {
        LockChanged(k, locks[k].(pid := w[0]), w[1..]);
        var x := Dequeue(LockQueue(k));
        locks := locks[k := locks[k].(pid := x)];
        st := st.(locks := st.locks[k := Synch.LockRelease(st.locks[k]).obj]);
        ProcessWakeup(x);
      }
      return true;
    }

    /** The lock of a condition variable that is in use. */
    lemma LockOfCond(c: nat)
      requires Valid() && !halted && c < |conds| && conds[c].inuse
      ensures 0 <= conds[c].lock < |locks|
      ensures var q := LockQueue(conds[c].lock); q < |who| && (who[q] != [] ==> who[q][0] in st.procs.wait)
    {
      hide Linked;
      CondOf(c);
      var q := LockQueue(conds[c].lock);
      if who[q] != [] { SleeperWaits(q, who[q][0]); }
    }

    /** CondWait, up to its sleep: the caller is queued before the lock is released.  The kernel
        stops if the caller does not own the lock. */
    method CondWait(c: nat)
      requires Valid() && !halted && currentPCB >= 0 && c < |conds| && conds[c].inuse
      modifies this`flags, this`l, this`who, this`st, this`currentPCB, this`halted, this`calls, this`locks,
               pool`contents, pool.linkpool, pool.queues
      ensures Coupled()
      ensures var t, p := old(st), old(currentPCB);
        && ZombiesExist(t.procs) && p < |t.procs.status| == |t.calls| && c < |t.conds| && 0 <= t.conds[c].lock < |t.locks|
        && st == KS.DoCondWait(t, p, c)
    {
      hide Linked, SemsMatch, LocksMatch, CondsMatch, ProcsMatch, KS.KernelOk, Processes.ProcsOk, KS.Sleep,
           KS.DoLockRelease;
      CurrentFacts();
      CondOf(c);
      LockOfCond(c);
      var lock := conds[c].lock;
      LockOf(lock);
      if locks[lock].pid != currentPCB {
        halted := true;
        st := KS.Halt(st);
        return;
      }
      LinkToSpare(currentPCB);
      ghost var t, q: nat, w: seq<nat> := st, CondQueue(c), who[CondQueue(c)];
      CondChanged(c, conds[c], w + [currentPCB]);
      assert conds[c := conds[c]] == conds;
      Enqueue(CondQueue(c), currentPCB);
      st := st.(conds := st.conds[c := Synch.CondEnqueue(st.conds[c], currentPCB)]);
      if locks[lock].inuse {
        RunningOn(st, currentPCB, lock);
        var ok := LockRelease(lock);
      }
      ProcessSleep(KS.InCond(c));
    }

    /** CondSignal: by the owner of the lock, it wakes the first sleeper. */
    method CondSignal(c: nat) returns (ok: bool)
      requires Valid() && !halted && currentPCB >= 0 && c < |conds| && conds[c].inuse
      modifies this`flags, this`l, this`who, this`st, pool`contents, pool.linkpool, pool.queues
      ensures Coupled()
      ensures 0 <= old(conds[c].lock) < |locks| && (ok <==> locks[old(conds[c].lock)].pid == currentPCB)
      ensures var t := old(st);
        && c < |t.conds| && 0 <= t.conds[c].lock < |t.locks|
        && st == KS.DoCondSignal(t, currentPCB, c)
    {
      hide Linked, SemsMatch, LocksMatch, CondsMatch, ProcsMatch, KS.ObjectsOk, KS.CallsOk, Processes.ProcsOk,
           KS.WakeIfAny;
      CurrentFacts();
      CondOf(c);
      LockOfCond(c);
      LockOf(conds[c].lock);
      if locks[conds[c].lock].pid != currentPCB {
        return false;
      }
      var empty := IsEmpty(CondQueue(c));
      KernelInvariant.NobodyToWake(st);
      assert st.conds[c := st.conds[c]] == st.conds;
      if !empty {
        SleeperWaits(CondQueue(c), who[CondQueue(c)][0]);
        WakeFirst(c);
      }
      return true;
    }

    /** The lines that CondSignal and CondBroadcast share: take the first sleeper, and wake it. */
    method WakeFirst(c: nat)
      requires Coupled() && Processes.ProcsOk(st.procs) && c < |conds| == |st.conds|
      requires st.conds[c].waiting != [] && st.conds[c].waiting[0] in st.procs.wait
      modifies this`flags, this`l, this`who, this`st, pool`contents, pool.linkpool, pool.queues
      ensures Coupled()
      ensures var w := Synch.CondSignal(old(st).conds[c]);
        st == KS.WakeIfAny(old(st).(conds := old(st).conds[c := w.obj]), w.woken)
    {
      hide Linked, SemsMatch, LocksMatch, CondsMatch, ProcsMatch, Processes.ProcsOk;
      CondOf(c);
      ghost var q: nat, w: seq<nat> := CondQueue(c), who[CondQueue(c)];
      CondChanged(c, conds[c], w[1..]);
      assert conds[c := conds[c]] == conds;
      var x := Dequeue(CondQueue(c));
      st := st.(conds := st.conds[c := Synch.CondSignal(st.conds[c]).obj]);
      ProcessWakeup(x);
    }

    /** CondBroadcast: by the owner of the lock, it wakes all sleepers. */
    method CondBroadcast(c: nat) returns (ok: bool)
      requires Valid() && !halted && currentPCB >= 0 && c < |conds| && conds[c].inuse
      modifies this`flags, this`l, this`who, this`st, pool`contents, pool.linkpool, pool.queues
      ensures Coupled()
      ensures 0 <= old(conds[c].lock) < |locks| && (ok <==> locks[old(conds[c].lock)].pid == currentPCB)
      ensures var t := old(st);
        && c < |t.conds| && 0 <= t.conds[c].lock < |t.locks|
        && st == KS.DoCondBroadcast(t, currentPCB, c)
    {
      hide Linked, SemsMatch, LocksMatch, CondsMatch, ProcsMatch, KS.ObjectsOk, KS.CallsOk, Processes.ProcsOk,
           KS.WakeIfAny;
      CurrentFacts();
      CondOf(c);
      LockOfCond(c);
      LockOf(conds[c].lock);
      if locks[conds[c].lock].pid != currentPCB {
        return false;
      }
      SleepersMayWake(c);
      var empty := IsEmpty(CondQueue(c));
      while !empty
        invariant Coupled() && Processes.ProcsOk(st.procs) && c < |conds| == |st.conds|
        invariant empty <==> st.conds[c].waiting == []
        invariant MayWake(st.conds[c].waiting, st.procs.wait)
        invariant KS.WakeAll(st, c) == KS.WakeAll(old(st), c)
        decreases |st.conds[c].waiting|
      {
        WakeOneOfAll(st, c);
        WakeFirst(c);
        CondOf(c);
        empty := IsEmpty(CondQueue(c));
      }
      return true;
    }

    lemma SleepersMayWake(c: nat)
      requires Coupled() && KS.ObjectsOk(st) && Processes.ProcsOk(st.procs) && c < |conds|
      ensures c < |st.conds| && MayWake(st.conds[c].waiting, st.procs.wait)
    {
      hide Linked, SemsMatch, LocksMatch, CondsMatch, ProcsMatch, KS.ObjectsOk, Processes.ProcsOk;
      CondOf(c);
      QueueHoldsSleepers(CondQueue(c));
      forall x | x in who[CondQueue(c)] ensures x in st.procs.wait { SleeperWaits(CondQueue(c), x); }
    }

    /** The rest of a call that slept: the second half of CondWait takes the lock again. */
    method Resume() returns (done: bool)
      requires Valid() && !halted && currentPCB >= 0 && currentPCB < |calls| && calls[currentPCB] != KS.NoCall
      modifies this`flags, this`l, this`who, this`st, this`currentPCB, this`halted, this`calls, this`locks,
               pool`contents, pool.linkpool, pool.queues
      ensures Coupled()
      ensures done <==> KS.Result(old(st), KS.Resume) == Synch.Some(Synch.SYNC_SUCCESS)
      ensures var t, p := old(st), old(currentPCB);
        && ZombiesExist(t.procs) && p < |t.procs.status| == |t.calls| && KS.CallOk(t, p)
        && (t.calls[p].InCond? ==> 0 <= t.conds[t.calls[p].cond].lock < |t.locks|)
        && st == KS.DoResume(t, p)
    {
      hide Linked, SemsMatch, LocksMatch, CondsMatch, KS.SemsOk, KS.LocksOk, Processes.ProcsOk, KS.DoLockAcquire;
      CurrentFacts();
      assert KS.CallOk(st, currentPCB);
      if calls[currentPCB].InCond? {
        var c := calls[currentPCB].cond;
        CondInUse(c);
        CondOf(c);
        LockOfCond(c);
        LockOf(conds[c].lock);
        if locks[conds[c].lock].inuse {
          done := LockAcquire(conds[c].lock);
          return;
        }
      }
      done := true;
      calls := calls[currentPCB := KS.NoCall];
      st := st.(calls := calls);
    }

    lemma CondInUse(c: nat)
      requires Coupled() && c < |st.conds|
      ensures c < |conds| && conds[c].inuse == st.conds[c].inuse
    {
    }

    /** SemCreate: the first semaphore that is not in use, or -1. */
    method SemCreate(count: int) returns (sem: int)
      requires Valid() && !halted
      modifies this`st, this`sems, pool.queues
      ensures Coupled() && st == KS.DoSemCreate(old(st), count)
      ensures sem == KS.Handle(KS.FreeSem(old(st)), |sems|) && |sems| == |old(st).sems|
      ensures sem == -1 <==> forall s :: 0 <= s < |sems| ==> old(sems)[s].inuse
      ensures sem != -1 ==> 0 <= sem < |sems| && !old(sems)[sem].inuse && st.sems[sem] == Synch.Sem(true, count, [])
    {
      hide Linked, SemsMatch, LocksMatch, CondsMatch, ProcsMatch, KS.KernelOk;
      var s := 0;
      while s < |sems| && sems[s].inuse
        invariant s <= |sems| && forall j :: 0 <= j < s ==> sems[j].inuse
      {
        s := s + 1;
      }
      SemsInUse();
      SemCreateIs(st, s, count);
      if s == |sems| {
        return -1;
      }
      SemOf(s);
      InitEmpty(SemQueue(s));
      SemChanged(s, SemFields(true, count), []);
      assert who[SemQueue(s) := []] == who;
      sems := sems[s := SemFields(true, count)];
      st := st.(sems := st.sems[s := Synch.Sem(true, count, [])]);
      return s;
    }

    lemma SemsInUse()
      requires Valid() && !halted
      ensures |sems| == |st.sems| && forall s: nat :: s < |sems| ==> sems[s].inuse == st.sems[s].inuse
      ensures forall s: nat :: s < |sems| && !sems[s].inuse ==> st.sems[s].waiting == []
    {
      hide Linked;
    }

    /** LockCreate: the first lock that is not in use, or -1. */
    method LockCreate() returns (lock: int)
      requires Valid() && !halted
      modifies this`st, this`locks, pool.queues
      ensures Coupled() && st == KS.DoLockCreate(old(st))
      ensures lock == KS.Handle(KS.FreeLock(old(st)), |locks|) && |locks| == |old(st).locks|
      ensures lock == -1 <==> forall k :: 0 <= k < |locks| ==> old(locks)[k].inuse
      ensures lock != -1 ==> 0 <= lock < |locks| && !old(locks)[lock].inuse && st.locks[lock] == Synch.Lock(true, -1, [])
    {
      hide Linked, SemsMatch, LocksMatch, CondsMatch, ProcsMatch, KS.KernelOk;
      var k := 0;
      while k < |locks| && locks[k].inuse
        invariant k <= |locks| && forall j :: 0 <= j < k ==> locks[j].inuse
      {
        k := k + 1;
      }
      LocksInUse();
      LockCreateIs(st, k);
      if k == |locks| {
        return -1;
      }
      LockOf(k);
      InitEmpty(LockQueue(k));
      LockChanged(k, LockFields(true, -1), []);
      assert who[LockQueue(k) := []] == who;
      locks := locks[k := LockFields(true, -1)];
      st := st.(locks := st.locks[k := Synch.Lock(true, -1, [])]);
      return k;
    }

    lemma LocksInUse()
      requires Valid() && !halted
      ensures |locks| == |st.locks| && forall k: nat :: k < |locks| ==> locks[k].inuse == st.locks[k].inuse
      ensures forall k: nat :: k < |locks| && !locks[k].inuse ==> st.locks[k].waiting == []
    {
      hide Linked;
    }

    /** CondCreate: the first condition variable that is not in use, or -1; also -1 if there is no
        such lock.  The lock need not be in use. */
    method CondCreate(lock: int) returns (cond: int)
      requires Valid() && !halted
      modifies this`st, this`conds, pool.queues
      ensures Coupled() && st == KS.DoCondCreate(old(st), lock)
      ensures |locks| == |old(st).locks| && |conds| == |old(st).conds|
      ensures cond == if 0 <= lock < |locks| then KS.Handle(KS.FreeCond(old(st)), |conds|) else Synch.SYNC_FAIL
      ensures cond == -1 <==> !(0 <= lock < |locks|) || forall c :: 0 <= c < |conds| ==> old(conds)[c].inuse
      ensures cond != -1 ==> 0 <= cond < |conds| && !old(conds)[cond].inuse && st.conds[cond] == Synch.Cond(true, lock, [])
    {
      hide Linked, SemsMatch, LocksMatch, CondsMatch, ProcsMatch, KS.KernelOk;
      LocksInUse();
      CondsInUse();
      if lock < 0 || lock >= |locks| {
        return -1;
      }
      var c := 0;
      while c < |conds| && conds[c].inuse
        invariant c <= |conds| && forall j :: 0 <= j < c ==> conds[j].inuse
      {
        c := c + 1;
      }
      CondCreateIs(st, c, lock);
      if c == |conds| {
        return -1;
      }
      CondOf(c);
      InitEmpty(CondQueue(c));
      CondChanged(c, CondFields(true, lock), []);
      assert who[CondQueue(c) := []] == who;
      conds := conds[c := CondFields(true, lock)];
      st := st.(conds := st.conds[c := Synch.Cond(true, lock, [])]);
      return c;
    }

    lemma CondsInUse()
      requires Valid() && !halted
      ensures |conds| == |st.conds| && forall c: nat :: c < |conds| ==> conds[c].inuse == st.conds[c].inuse
      ensures forall c: nat :: c < |conds| && !conds[c].inuse ==> st.conds[c].waiting == []
    {
      hide Linked;
    }

    /** AQueueInit on the queue of an object that is being created. */
    method InitEmpty(q: nat)
      requires Linked() && 0 < q < |who| && who[q] == []
      modifies pool.queues
      ensures Linked()
    {
      hide RefinesBut, Queued;
      assert Carries(pool.linkpool[..], l, q, pool.contents[q], who[q]);
      var ok := pool.Init(q);
    }

    // ----- forks and exits -----

    /** ProcessFork, up to where interrupts are enabled again: take the first free PCB. */
    method ForkBegin()
      requires Valid() && !halted
      modifies this`flags, this`l, this`who, this`st, this`halted, pool`contents, pool.linkpool, pool.queues
      ensures Coupled() && st == KS.Do(old(st), KS.ForkBegin)
    {
      hide Linked, SemsMatch, LocksMatch, CondsMatch, KS.CallsOk, KS.ObjectsOk, Processes.ProcsOk;
      var empty := IsEmpty(FREEPCBS);
      if empty {
        halted := true;
        st := KS.Halt(st);
        return;
      }
      var p := FirstObject(FREEPCBS);
      FirstOfFree(st.procs, p);
      MatchesKept(FREEPCBS, Processes.Without(who[FREEPCBS], p), FREEPCBS, Processes.Without(who[FREEPCBS], p));
      assert who[FREEPCBS := st.procs.free[1..]][FREEPCBS := st.procs.free[1..]] == who[FREEPCBS := st.procs.free[1..]];
      TakeProcess(FREEPCBS, p);
      flags := flags[p := Processes.Runnable];
      st := st.(procs := Processes.ForkBegin(st.procs));
    }

    /** The end of a successful ProcessFork. */
    method ForkFinish(p: nat)
      requires Valid() && !halted && p in st.procs.forking
      modifies this`l, this`who, this`st, this`currentPCB, pool`contents, pool.linkpool, pool.queues
      ensures Coupled() && st == old(st).(procs := Processes.ForkFinish(old(st).procs, p))
    {
      hide Linked, SemsMatch, LocksMatch, CondsMatch, KS.CallsOk, KS.ObjectsOk, Processes.ProcsOk;
      InOneQueue(st.procs, p);
      LinkToSpare(p);
      RunMatchesKept(who[RUNQUEUE] + [p]);
      PutProcess(RUNQUEUE, p, false);
      if currentPCB == Processes.NOBODY {
        currentPCB := p;
      }
      st := st.(procs := Processes.ForkFinish(st.procs, p));
    }

    /** ProcessFreeResources after a failed load, as far as it gives the PCB back. */
    method ForkFail(p: nat)
      requires Valid() && !halted && p in st.procs.forking
      modifies this`flags, this`l, this`who, this`st, pool`contents, pool.linkpool, pool.queues
      ensures Coupled() && p < |old(st).procs.status| && st == old(st).(procs := Processes.ForkFail(old(st).procs, p))
    {
      hide Linked, SemsMatch, LocksMatch, CondsMatch, KS.CallsOk, KS.ObjectsOk, Processes.ProcsOk;
      InOneQueue(st.procs, p);
      LinkToSpare(p);
      MatchesKept(FREEPCBS, who[FREEPCBS] + [p], FREEPCBS, who[FREEPCBS] + [p]);
      assert who[FREEPCBS := who[FREEPCBS] + [p]][FREEPCBS := who[FREEPCBS] + [p]] == who[FREEPCBS := who[FREEPCBS] + [p]];
      FreePcb(p);
      st := st.(procs := Processes.ForkFail(st.procs, p));
    }

    /** The exit trap: ProcessDestroy, and then ProcessSchedule(0). */
    method Exit()
      requires Valid() && !halted && currentPCB >= 0
      modifies this`flags, this`l, this`who, this`st, this`currentPCB, this`halted, pool`contents, pool.linkpool,
               pool.queues
      ensures Coupled()
      ensures var k, p := old(st), old(currentPCB);
        && p < |k.procs.status| && ZombiesExist(Processes.Destroy(k.procs, p))
        && st == KS.Reschedule(k.(procs := Processes.Destroy(k.procs, p)), false)
    {
      hide Linked, SemsMatch, LocksMatch, CondsMatch, ProcsMatch, KS.KernelOk, Processes.ProcsOk, KS.Reschedule;
      CurrentFacts();
      Processes.DestroyOk(st.procs, currentPCB);
      ProcessDestroy(currentPCB);
      ProcessSchedule(false);
    }

    // ----- dointerrupt -----

    /** A trap comes from the current process. */
    lemma TrapComesFromCurrent(e: KS.Event)
      requires Valid() && KS.Enabled(st, e) && !KS.IsFork(e)
      ensures !halted && 0 <= currentPCB < |calls| && currentPCB == st.procs.current
      ensures KernelInvariant.Running(st, currentPCB) && Processes.AtTrapReturn(st.procs) && KS.CallsOk(st) && KS.ObjectsOk(st)
      ensures calls[currentPCB] == KS.NoCall || e == KS.Timer || e == KS.Resume
      ensures e == KS.Resume ==> calls[currentPCB] != KS.NoCall
    {
    }

    /** The semaphore traps, with the checks of SemHandleWait and SemHandleSignal. */
    method SemTrap(e: KS.Event) returns (result: Synch.Option<int>)
      requires Valid() && KS.Enabled(st, e) && (e.SemCreate? || e.SemWait? || e.SemSignal?)
      modifies this, pool`contents, pool.linkpool, pool.queues
      ensures Coupled() && st == KS.Do(old(st), e) && result == KS.Result(old(st), e)
    {
      hide Linked, SemsMatch, LocksMatch, CondsMatch, ProcsMatch, Processes.ProcsOk, KS.ObjectsOk, KS.CallsOk,
           KS.Enabled,
           KS.DoSemWait, KS.DoSemSignal, KS.DoSemCreate;
      TrapComesFromCurrent(e);
      SemsInUse();
      if e.SemCreate? {
        var s := SemCreate(e.count);
        result := Synch.Some(s);
      } else if 0 <= e.sem < |sems| && sems[e.sem].inuse {
        SemOf(e.sem);
        if e.SemWait? {
          var done := SemWait(e.sem);
          result := ResultOf(done);
        } else {
          SemSignal(e.sem);
          result := Synch.Some(Synch.SYNC_SUCCESS);
        }
      } else {
        result := Synch.Some(Synch.SYNC_FAIL);
      }
    }

    /** The lock traps, with the checks of LockHandleAcquire and LockHandleRelease. */
    method LockTrap(e: KS.Event) returns (result: Synch.Option<int>)
      requires Valid() && KS.Enabled(st, e) && (e.LockCreate? || e.LockAcquire? || e.LockRelease?)
      modifies this, pool`contents, pool.linkpool, pool.queues
      ensures Coupled() && st == KS.Do(old(st), e) && result == KS.Result(old(st), e)
    {
      hide Linked, SemsMatch, LocksMatch, CondsMatch, ProcsMatch, Processes.ProcsOk, KS.ObjectsOk, KS.CallsOk,
           KS.Enabled,
           KS.DoLockAcquire, KS.DoLockRelease, KS.DoLockCreate, KS.FreeCond, KS.FreeSem, KS.FreeLock, KS.Handle;
      TrapComesFromCurrent(e);
      CurrentFacts();
      LocksInUse();
      if e.LockCreate? {
        var k := LockCreate();
        result := Synch.Some(k);
      } else if 0 <= e.lock < |locks| && locks[e.lock].inuse {
        LockOf(e.lock);
        FirstSleeperWaits(LockQueue(e.lock));
        if e.LockAcquire? {
          var done := LockAcquire(e.lock);
          result := ResultOf(done);
        } else {
          var ok := LockRelease(e.lock);
          result := Synch.Some(KS.Status(ok));
        }
      } else {
        result := Synch.Some(Synch.SYNC_FAIL);
      }
    }

    /** CondWait, CondSignal or CondBroadcast on a condition variable in use. */
    method CondCall(e: KS.Event) returns (result: Synch.Option<int>)
      requires Valid() && KS.Enabled(st, e) && (e.CondWait? || e.CondSignal? || e.CondBroadcast?)
      requires 0 <= e.cond < |conds| && conds[e.cond].inuse
      modifies this, pool`contents, pool.linkpool, pool.queues
      ensures Coupled() && st == KS.Do(old(st), e) && result == KS.Result(old(st), e)
    {
      hide Linked, SemsMatch, LocksMatch, CondsMatch, ProcsMatch, Processes.ProcsOk, KS.ObjectsOk, KS.CallsOk,
           KS.Enabled,
           KS.DoCondWait, KS.DoCondSignal, KS.DoCondBroadcast;
      TrapComesFromCurrent(e);
      CondsInUse();
      CondOf(e.cond);
      LockOfCond(e.cond);
      LockOf(conds[e.cond].lock);
      if e.CondWait? {
        CondWait(e.cond);
        result := Synch.None;
      } else if e.CondSignal? {
        var ok := CondSignal(e.cond);
        result := Synch.Some(KS.Status(ok));
      } else {
        var ok := CondBroadcast(e.cond);
        result := Synch.Some(KS.Status(ok));
      }
    }

    /** The traps on condition variables, with the checks of CondHandleWait, CondHandleSignal and
        CondHandleBroadcast. */
    method CondTrap(e: KS.Event) returns (result: Synch.Option<int>)
      requires Valid() && KS.Enabled(st, e) && (e.CondCreate? || e.CondWait? || e.CondSignal? || e.CondBroadcast?)
      modifies this, pool`contents, pool.linkpool, pool.queues
      ensures Coupled() && st == KS.Do(old(st), e) && result == KS.Result(old(st), e)
    {
      hide Linked, SemsMatch, LocksMatch, CondsMatch, ProcsMatch, Processes.ProcsOk, KS.ObjectsOk, KS.CallsOk,
           KS.Enabled, KS.DoCondCreate, KS.FreeCond, KS.Handle;
      TrapComesFromCurrent(e);
      CondsInUse();
      LocksInUse();
      if e.CondCreate? {
        var c := CondCreate(e.lock);
        result := Synch.Some(c);
      } else if 0 <= e.cond < |conds| && conds[e.cond].inuse {
        result := CondCall(e);
      } else {
        result := Synch.Some(Synch.SYNC_FAIL);
      }
    }

    /** Forks, exits, the timer, and the continuation of calls that slept. */
    method ProcessTrap(e: KS.Event) returns (result: Synch.Option<int>)
      requires Valid() && KS.Enabled(st, e) && (KS.IsFork(e) || e == KS.Exit || e == KS.Timer || e == KS.Resume)
      modifies this, pool`contents, pool.linkpool, pool.queues
      ensures Coupled() && st == KS.Do(old(st), e) && result == KS.Result(old(st), e)
    {
      hide Linked, SemsMatch, LocksMatch, CondsMatch, Processes.ProcsOk, KS.ObjectsOk, KS.CallsOk,
           KS.DoResume, KS.Reschedule;
      result := Synch.None;
      if e.ForkBegin? {
        ForkBegin();
      } else if e.ForkFinish? {
        ForkFinish(e.child);
      } else if e.ForkFail? {
        ForkFail(e.child);
      } else {
        TrapComesFromCurrent(e);
        CurrentFacts();
        if e == KS.Exit {
          Exit();
        } else if e == KS.Timer {
          ProcessSchedule(false);
        } else {
          var done := Resume();
          result := ResultOf(done);
        }
      }
    }

    /** dointerrupt: every trap, interrupt and continuation makes the transition of the state
        machine, and leaves the kernel valid.  So no queue operation on the way fails, and no free
        link is ever missing. */
    method DoInterrupt(e: KS.Event) returns (result: Synch.Option<int>)
      requires Valid() && KS.Enabled(st, e)
      modifies this, pool`contents, pool.linkpool, pool.queues
      ensures Valid() && st == KS.Do(old(st), e) && result == KS.Result(old(st), e)
    {
      hide Linked, SemsMatch, LocksMatch, CondsMatch, KS.KernelOk, KS.Enabled, KS.Do;
      KernelInvariant.DoOk(st, e);
      SizesStay(st, e);
      if e.SemCreate? || e.SemWait? || e.SemSignal? {
        result := SemTrap(e);
      } else if e.LockCreate? || e.LockAcquire? || e.LockRelease? {
        result := LockTrap(e);
      } else if e.CondCreate? || e.CondWait? || e.CondSignal? || e.CondBroadcast? {
        result := CondTrap(e);
      } else {
        result := ProcessTrap(e);
      }
    }

    // ----- there is always a free link -----

    /** The call that the sleepers on queue `q` are inside of. */
    function CallOf(q: nat): KS.Call
      requires OBJECTS <= q < CondQueue(|conds|)
      reads this`sems, this`locks, this`conds
    {
      if q < LockQueue(0) then KS.InSem(q - SemQueue(0))
      else if q < CondQueue(0) then KS.InLock(q - LockQueue(0))
      else KS.InCond(q - CondQueue(0))
    }

    lemma QueueHoldsSleepers(q: nat)
      requires Coupled() && KS.ObjectsOk(st) && OBJECTS <= q < |who|
      ensures Distinct(who[q])
      ensures forall x :: x in who[q] ==> x < |flags| && st.calls[x] == CallOf(q) && flags[x] == Processes.Waiting
    {
      hide Linked;
      if q < LockQueue(0) {
        assert st.sems[q - SemQueue(0)].waiting == who[SemQueue(0) + (q - SemQueue(0))] == who[q];
      } else if q < CondQueue(0) {
        assert st.locks[q - LockQueue(0)].waiting == who[LockQueue(0) + (q - LockQueue(0))] == who[q];
      } else {
        assert st.conds[q - CondQueue(0)].waiting == who[CondQueue(0) + (q - CondQueue(0))] == who[q];
      }
    }

    lemma QueuesAreSeparate()
      requires Coupled() && KS.ObjectsOk(st) && Processes.ProcsOk(st.procs)
      ensures Separate(who, 1, OBJECTS, |flags|) && Separate(who, OBJECTS, |who|, |flags|)
    {
      hide Linked, SemsMatch, LocksMatch, CondsMatch, KS.ObjectsOk;
      forall q | OBJECTS <= q < |who|
        ensures Distinct(who[q])
        ensures forall x :: x in who[q] ==> x < |flags| && st.calls[x] == CallOf(q)
      {
        QueueHoldsSleepers(q);
      }
      forall q, r, x | OBJECTS <= q < r < |who| && x in who[q] ensures x !in who[r] {
        assert CallOf(q) != CallOf(r);
      }
    }

    /** While the current process runs, or a PCB is being forked, a link is free. */
    lemma LinkToSpare(p: nat)
      requires Valid() && !halted && p < |flags| && (p == currentPCB || p in st.procs.forking)
      ensures pool.contents[FREE] != []
    {
      hide RefinesBut, AllCarry, SemsMatch, LocksMatch, CondsMatch;
      QueuesAreSeparate();
      if p == currentPCB {
        KS.CurrentIsRunnable(st);
        forall q | OBJECTS <= q < |who| ensures p !in who[q] { QueueHoldsSleepers(q); }
      } else {
        InOneQueue(st.procs, p);
      }
      SpareLink(pool.linkpool[..], l, pool.contents, who, |flags|, p);
    }

    lemma RunMatchesKept(v: seq<nat>)
      requires Coupled()
      ensures var who' := who[RUNQUEUE := v];
        && SemsMatch(sems, st.sems, who', SemQueue(0))
        && LocksMatch(locks, st.locks, who', LockQueue(0))
        && CondsMatch(conds, st.conds, who', CondQueue(0))
    {
    }

    /** Replacing the contents of two process queues leaves the objects matched. */
    lemma MatchesKept(a: nat, v: seq<nat>, b: nat, w: seq<nat>)
      requires Coupled() && IsProcessQueue(a) && IsProcessQueue(b)
      ensures var who' := who[a := v][b := w];
        && SemsMatch(sems, st.sems, who', SemQueue(0))
        && LocksMatch(locks, st.locks, who', LockQueue(0))
        && CondsMatch(conds, st.conds, who', CondQueue(0))
    {
    }
  }

  /** A call that does not sleep is successful; one that does returns later. */
  function ResultOf(done: bool): Synch.Option<int> {
    if done then Synch.Some(Synch.SYNC_SUCCESS) else Synch.None
  }

  lemma FirstFreeIs(used: seq<bool>, i: nat)
    requires i <= |used| && (forall j :: 0 <= j < i ==> used[j]) && (i < |used| ==> !used[i])
    ensures KS.FirstFree(used) == i
  {
  }

  lemma SemCreateIs(k: KS.Kernel, s: nat, count: int)
    requires s <= |k.sems| && (forall j: nat :: j < s ==> k.sems[j].inuse) && (s < |k.sems| ==> !k.sems[s].inuse)
    ensures KS.DoSemCreate(k, count) == if s == |k.sems| then k else k.(sems := k.sems[s := Synch.Sem(true, count, [])])
    ensures KS.FreeSem(k) == s
  {
    FirstFreeIs(seq(|k.sems|, i requires 0 <= i < |k.sems| => k.sems[i].inuse), s);
  }

  lemma LockCreateIs(k: KS.Kernel, l: nat)
    requires l <= |k.locks| && (forall j: nat :: j < l ==> k.locks[j].inuse) && (l < |k.locks| ==> !k.locks[l].inuse)
    ensures KS.DoLockCreate(k) == if l == |k.locks| then k else k.(locks := k.locks[l := Synch.Lock(true, -1, [])])
    ensures KS.FreeLock(k) == l
  {
    FirstFreeIs(seq(|k.locks|, i requires 0 <= i < |k.locks| => k.locks[i].inuse), l);
  }

  lemma CondCreateIs(k: KS.Kernel, c: nat, lock: int)
    requires c <= |k.conds| && (forall j: nat :: j < c ==> k.conds[j].inuse) && (c < |k.conds| ==> !k.conds[c].inuse)
    requires 0 <= lock < |k.locks|
    ensures KS.DoCondCreate(k, lock) == if c == |k.conds| then k else k.(conds := k.conds[c := Synch.Cond(true, lock, [])])
    ensures KS.FreeCond(k) == c
  {
    FirstFreeIs(seq(|k.conds|, i requires 0 <= i < |k.conds| => k.conds[i].inuse), c);
  }

  /** All of `w` are on the wait queue, each once. */
  ghost predicate MayWake(w: seq<nat>, wait: seq<nat>) {
    Distinct(w) && forall x :: x in w ==> x in wait
  }

  /** One turn of the loop in CondBroadcast. */
  lemma WakeOneOfAll(k: KS.Kernel, c: nat)
    requires c < |k.conds| && k.conds[c].waiting != [] && Processes.ProcsOk(k.procs)
    requires MayWake(k.conds[c].waiting, k.procs.wait)
    ensures k.conds[c].waiting[0] in k.procs.wait
    ensures var w := Synch.CondSignal(k.conds[c]);
      var t := KS.WakeIfAny(k.(conds := k.conds[c := w.obj]), w.woken);
      && KS.WakeAll(k, c) == KS.WakeAll(t, c)
      && Processes.ProcsOk(t.procs) && |t.conds| == |k.conds|
      && t.conds[c].waiting == k.conds[c].waiting[1..] && MayWake(t.conds[c].waiting, t.procs.wait)
  {
    var x := k.conds[c].waiting[0];
    assert x in k.conds[c].waiting;
    HeadAndTail(k.conds[c].waiting);
    InOneQueue(k.procs, x);
    Processes.WakeupOk(k.procs, x);
    Processes.WithoutIs(k.procs.wait, x);
  }

  /** A release leaves its caller on the run queue. */
  lemma RunningOn(k: KS.Kernel, p: nat, lock: nat)
    requires Processes.ProcsOk(k.procs) && p in k.procs.run && lock < |k.locks|
    requires k.locks[lock].waiting != [] ==> k.locks[lock].waiting[0] in k.procs.wait
    ensures var t := KS.DoLockRelease(k, p, lock);
      Processes.ProcsOk(t.procs) && p in t.procs.run && t.procs.current == k.procs.current
  {
    if k.locks[lock].waiting != [] { Processes.WakeupOk(k.procs, k.locks[lock].waiting[0]); }
  }

  /** The number of PCBs never changes. */
  lemma SizesStay(k: KS.Kernel, e: KS.Event)
    requires KS.KernelOk(k) && KS.Enabled(k, e)
    ensures |KS.Do(k, e).calls| == |k.calls|
  {
    KernelObjects.CallStep(k, e);
  }

  /** What being on one process queue says about the others. */
  lemma InOneQueue(ps: Processes.Procs, p: nat)
    requires Processes.ProcsOk(ps)
    ensures Distinct(ps.free) && Distinct(ps.run) && Distinct(ps.wait) && Distinct(ps.zombie)
    ensures p in ps.run ==> p < |ps.status| && ps.status[p] == Processes.Runnable && p !in ps.free && p !in ps.wait && p !in ps.zombie
    ensures p in ps.wait ==> p < |ps.status| && ps.status[p] == Processes.Waiting && p !in ps.free && p !in ps.run && p !in ps.zombie
    ensures p in ps.zombie ==> p < |ps.status| && p !in ps.free && p !in ps.run && p !in ps.wait
    ensures p in ps.free ==> p < |ps.status| && p !in ps.zombie && p !in ps.run && p !in ps.wait
    ensures p in ps.forking ==> p < |ps.status| && p !in ps.zombie && p !in ps.run && p !in ps.wait && p !in ps.free
    ensures p !in Processes.Without(ps.run, p) && p !in Processes.Without(ps.wait, p)
    ensures p !in Processes.Without(ps.zombie, p) && p !in Processes.Without(ps.free, p)
  {
    Processes.WithoutIs(ps.run, p);
    Processes.WithoutIs(ps.wait, p);
    Processes.WithoutIs(ps.zombie, p);
    Processes.WithoutIs(ps.free, p);
  }

  lemma FrontOk(ps: Processes.Procs, suspended: bool)
    requires Processes.ProcsOk(ps) && ps.run != []
    ensures var run := if suspended then ps.run else Processes.Rotate(ps.run);
      Processes.ProcsOk(ps.(run := run, current := run[0]))
  {
    Processes.RotateOk(ps.run);
  }

  predicate ZombiesExist(ps: Processes.Procs) {
    forall p :: p in ps.zombie ==> p < |ps.status|
  }

  lemma ZombiesAreProcesses(ps: Processes.Procs)
    requires Processes.ProcsOk(ps)
    ensures ZombiesExist(ps)
  {
  }

  lemma FirstOfZombies(ps: Processes.Procs, p: nat)
    requires Processes.ProcsOk(ps) && ps.zombie != [] && p == ps.zombie[0]
    ensures p in ps.zombie && p < |ps.status| && Processes.Without(ps.zombie, p) == ps.zombie[1..]
    ensures Distinct(ps.zombie) && p !in ps.run && p !in ps.wait && p !in ps.free && p !in ps.zombie[1..]
  {
    InOneQueue(ps, p);
    HeadAndTail(ps.zombie);
  }

  lemma FirstOfFree(ps: Processes.Procs, p: nat)
    requires Processes.ProcsOk(ps) && ps.free != [] && p == ps.free[0]
    ensures p in ps.free && p < |ps.status| && Processes.Without(ps.free, p) == ps.free[1..] && Distinct(ps.free)
  {
    InOneQueue(ps, p);
  }

  lemma ReapStepOk(ps: Processes.Procs)
    requires Processes.ProcsOk(ps) && ps.zombie != []
    ensures var p := ps.zombie[0];
      && p < |ps.status|
      && var ps' := ps.(status := ps.status[p := Processes.Free], zombie := ps.zombie[1..], free := ps.free + [p]);
         Processes.ProcsOk(ps') && ZombiesExist(ps) && ZombiesExist(ps') && Processes.Reap(ps) == Processes.Reap(ps')
  {
    var p := ps.zombie[0];
    HeadAndTail(ps.zombie);
    AppendDistinct(ps.free, p);
  }
}
