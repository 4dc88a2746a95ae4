/** Values of the kernel's semaphores, locks and condition variables, and what one atomic
    section of os/synch.c does to each of them.

    A blocking call is cut at `ProcessSleep`: the functions below describe the part before
    it, and say whether the caller goes to sleep or which sleeper is woken.  A process is named
    by its PID, the index of its process control block. */
module Synch {
  import opened Sequences

  datatype Option<+T> = None | Some(value: T)

  const SYNC_FAIL: int := -1
  const SYNC_SUCCESS: int := 1
  const NO_OWNER: int := -1

  datatype Sem = Sem(inuse: bool, count: int, waiting: seq<nat>)
  datatype Lock = Lock(inuse: bool, pid: int, waiting: seq<nat>)
  datatype Cond = Cond(inuse: bool, lock: int, waiting: seq<nat>)

  /** The object after a call, and whether the caller must sleep. */
  datatype Wait<T> = Wait(obj: T, sleeps: bool)

  /** The object after a call, and the process that the call wakes, if any. */
  datatype Wake<T> = Wake(obj: T, woken: Option<nat>)

  function SemWait(s: Sem, p: nat): Wait<Sem> {
    if s.count <= 0 then Wait(s.(waiting := s.waiting + [p]), true)
    else Wait(s.(count := s.count - 1), false)
  }

  function SemSignal(s: Sem): Wake<Sem> {
    var s1 := s.(count := s.count + 1);
    if s1.count > 0 && s1.waiting != [] then
      Wake(s1.(count := s1.count - 1, waiting := s1.waiting[1..]), Some(s1.waiting[0]))
    else
      Wake(s1, None)
  }

  function LockAcquire(k: Lock, p: nat): Wait<Lock> {
    if k.pid == p then Wait(k, false)
    else if k.pid >= 0 then Wait(k.(waiting := k.waiting + [p]), true)
    else Wait(k.(pid := p), false)
  }

  /** The owner's release: the lock goes straight to the first waiter. */
  function LockRelease(k: Lock): Wake<Lock> {
    if k.waiting == [] then Wake(k.(pid := NO_OWNER), None)
    else Wake(k.(pid := k.waiting[0], waiting := k.waiting[1..]), Some(k.waiting[0]))
  }

  function CondEnqueue(c: Cond, p: nat): Cond {
    c.(waiting := c.waiting + [p])
  }

  function CondSignal(c: Cond): Wake<Cond> {
    if c.waiting == [] then Wake(c, None)
    else Wake(c.(waiting := c.waiting[1..]), Some(c.waiting[0]))
  }

  /** Sleepers are owed nothing: somebody waits only while the count is exhausted. */
  ghost predicate SemOk(s: Sem) {
    && Distinct(s.waiting)
    && (s.waiting != [] ==> s.count <= 0)
  }

  /** A free lock has no waiters, and the owner is not among the waiters. */
  ghost predicate LockOk(k: Lock) {
    && Distinct(k.waiting)
    && k.pid >= NO_OWNER
    && (k.pid == NO_OWNER ==> k.waiting == [])
    && (forall i :: 0 <= i < |k.waiting| ==> k.waiting[i] != k.pid)
  }
}
