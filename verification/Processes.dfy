/** The process queues of os/process.c as sequences of PIDs, and what the scheduler's functions
    do to them. */
module Processes {
  import opened Sequences
  import opened Synch

  datatype Status = Free | Runnable | Waiting | Zombie

  datatype Procs = Procs(
    status: seq<Status>,
    free: seq<nat>,       // freepcbs
    run: seq<nat>,        // runQueue
    wait: seq<nat>,       // waitQueue
    zombie: seq<nat>,     // zombieQueue
    forking: set<nat>,    // taken from freepcbs by ProcessFork and not on any queue yet
    current: int          // currentPCB, NOBODY before the first process exists
  )

  const NOBODY: int := -1

  /** `s` without the first `p`. */
  function Without(s: seq<nat>, p: nat): seq<nat> {
    if s == [] then []
    else if s[0] == p then s[1..]
    else [s[0]] + Without(s[1..], p)
  }

  /** Every PCB that is not being forked is on the one queue that its status names. */
  ghost predicate ProcsOk(ps: Procs) {
    && Distinct(ps.free) && Distinct(ps.run) && Distinct(ps.wait) && Distinct(ps.zombie)
    && (forall p: nat :: p in ps.free <==> p < |ps.status| && ps.status[p] == Free)
    && (forall p: nat :: p in ps.run <==> p < |ps.status| && ps.status[p] == Runnable && p !in ps.forking)
    && (forall p: nat :: p in ps.wait <==> p < |ps.status| && ps.status[p] == Waiting)
    && (forall p: nat :: p in ps.zombie <==> p < |ps.status| && ps.status[p] == Zombie)
    && (forall p: nat :: p in ps.forking ==> p < |ps.status| && ps.status[p] == Runnable)
  }

  /** The current process is the head of the run queue, and nobody is a zombie. */
  ghost predicate AtTrapReturn(ps: Procs) {
    && ProcsOk(ps)
    && ps.zombie == []
    && (if ps.run == [] then ps.current == NOBODY else ps.current == ps.run[0])
  }

  // ----- the functions of process.c -----

  function Suspend(ps: Procs, p: nat): Procs
    requires p < |ps.status|
  {
    ps.(status := ps.status[p := Waiting], run := Without(ps.run, p), wait := ps.wait + [p])
  }

  function Wakeup(ps: Procs, p: nat): Procs
    requires p < |ps.status|
  {
    ps.(status := ps.status[p := Runnable], wait := Without(ps.wait, p), run := ps.run + [p])
  }

  function Destroy(ps: Procs, p: nat): Procs
    requires p < |ps.status|
  {
    ps.(status := ps.status[p := Zombie], run := Without(ps.run, p), zombie := [p] + ps.zombie)
  }

  function Rotate(s: seq<nat>): seq<nat> {
    if s == [] then [] else s[1..] + [s[0]]
  }

  /** The loop of ProcessSchedule that frees zombies. */
  function Reap(ps: Procs): (ps': Procs)
    requires forall p :: p in ps.zombie ==> p < |ps.status|
    ensures ps'.zombie == [] && |ps'.status| == |ps.status|
    ensures ps'.run == ps.run && ps'.wait == ps.wait && ps'.forking == ps.forking && ps'.current == ps.current
    ensures forall p :: 0 <= p < |ps.status| && p !in ps.zombie ==> ps'.status[p] == ps.status[p]
    decreases |ps.zombie|
  {
    if ps.zombie == [] then ps
    else
      var p := ps.zombie[0];
      assert p in ps.zombie && forall q :: q in ps.zombie[1..] ==> q in ps.zombie;
      Reap(ps.(status := ps.status[p := Free], zombie := ps.zombie[1..], free := ps.free + [p]))
  }

  /** ProcessSchedule, when somebody is runnable. */
  function Schedule(ps: Procs, suspended: bool): Procs
    requires ps.run != []
    requires forall p :: p in ps.zombie ==> p < |ps.status|
  {
    var run := if suspended then ps.run else Rotate(ps.run);
    Reap(ps.(run := run, current := run[0]))
  }

  /** The first half of ProcessFork: the first free PCB is taken. */
  function ForkBegin(ps: Procs): Procs
    requires ps.free != [] && ps.free[0] < |ps.status|
  {
    var p := ps.free[0];
    ps.(status := ps.status[p := Runnable], free := ps.free[1..], forking := ps.forking + {p})
  }

  /** The end of a successful ProcessFork. */
  function ForkFinish(ps: Procs, p: nat): Procs {
    ps.(forking := ps.forking - {p}, run := ps.run + [p], current := if ps.current == NOBODY then p else ps.current)
  }

  /** ProcessFreeResources after a failed load. */
  function ForkFail(ps: Procs, p: nat): Procs
    requires p < |ps.status|
  {
    ps.(status := ps.status[p := Free], forking := ps.forking - {p}, free := ps.free + [p])
  }

  // ----- what they keep -----

  lemma {:induction false} WithoutIs(s: seq<nat>, p: nat)
    requires Distinct(s)
    ensures Distinct(Without(s, p))
    ensures forall q :: q in Without(s, p) <==> q in s && q != p
    ensures s != [] && s[0] == p ==> Without(s, p) == s[1..]
  {
    if s != [] {
      HeadAndTail(s);
      if s[0] != p {
        WithoutIs(s[1..], p);
        var t := Without(s[1..], p);
        assert Without(s, p) == [s[0]] + t;
        assert forall q :: q in [s[0]] + t <==> q == s[0] || q in t;
      }
    }
  }

  lemma SuspendOk(ps: Procs, p: nat)
    requires ProcsOk(ps) && p in ps.run
    ensures ProcsOk(Suspend(ps, p))
  {
    WithoutIs(ps.run, p);
    AppendDistinct(ps.wait, p);
  }

  lemma WakeupOk(ps: Procs, p: nat)
    requires ProcsOk(ps) && p in ps.wait
    ensures ProcsOk(Wakeup(ps, p))
  {
    WithoutIs(ps.wait, p);
    AppendDistinct(ps.run, p);
  }

  lemma DestroyOk(ps: Procs, p: nat)
    requires ProcsOk(ps) && p in ps.run
    ensures ProcsOk(Destroy(ps, p))
  {
    WithoutIs(ps.run, p);
  }

  lemma {:induction false} ReapOk(ps: Procs)
    requires ProcsOk(ps)
    ensures ProcsOk(Reap(ps))
    decreases |ps.zombie|
  {
    if ps.zombie != [] {
      var p := ps.zombie[0];
      HeadAndTail(ps.zombie);
      AppendDistinct(ps.free, p);
      ReapOk(ps.(status := ps.status[p := Free], zombie := ps.zombie[1..], free := ps.free + [p]));
    }
  }

  lemma RotateOk(s: seq<nat>)
    requires Distinct(s)
    ensures Distinct(Rotate(s)) && forall p :: p in Rotate(s) <==> p in s
  {
    if s != [] {
      HeadAndTail(s);
      AppendDistinct(s[1..], s[0]);
    }
  }

  lemma ScheduleOk(ps: Procs, suspended: bool)
    requires ProcsOk(ps) && ps.run != []
    ensures AtTrapReturn(Schedule(ps, suspended))
  {
    RotateOk(ps.run);
    var run := if suspended then ps.run else Rotate(ps.run);
    ReapOk(ps.(run := run, current := run[0]));
  }

  lemma ForkBeginOk(ps: Procs)
    requires AtTrapReturn(ps) && ps.free != []
    ensures ps.free[0] < |ps.status| && AtTrapReturn(ForkBegin(ps))
  {
    HeadAndTail(ps.free);
    assert ps.free[0] in ps.free;
  }

  lemma ForkFinishOk(ps: Procs, p: nat)
    requires AtTrapReturn(ps) && p in ps.forking
    ensures AtTrapReturn(ForkFinish(ps, p))
  {
    AppendDistinct(ps.run, p);
  }

  lemma ForkFailOk(ps: Procs, p: nat)
    requires AtTrapReturn(ps) && p in ps.forking
    ensures AtTrapReturn(ForkFail(ps, p))
  {
    AppendDistinct(ps.free, p);
  }
}
