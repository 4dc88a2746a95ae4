# A verified model of DLXOS

DLXOS is a small teaching kernel, with concurrent user programs that run on its locks, semaphores and condition
variables. This project models five connected parts of it and proves what they promise.

1. **Queues, scheduling and synchronisation** (`os/queue.c`, `os/process.c`, `os/synch.c`, `os/traps.c`), in three layers.
   - `Queues` has the doubly linked lists over one static pool of links, in arrays, refined to one sequence of links
     per queue. A pointer to a link or a queue is its index.
   - `Processes` and `KernelState` are the kernel as a state machine over sequences of PIDs, with one transition per
     trap, interrupt, or continuation of a call that slept. A blocking call is cut at `ProcessSleep`; interrupts are off
     on either side of the cut, so each side is one transition. `KernelInvariant` is the invariant of all reachable
     states; `KernelRuns` and `KernelSync` say what follows for whole runs, and `KernelResults` what the calls return.
   - `Kernels` (with `KernelQueues`) has the C code's own form: PCBs, semaphores, locks and condition variables whose
     queues are the linked lists of `Queues`. `Kernel.DoInterrupt` is proved to make exactly the transition of the state
     machine, so everything proved about runs holds of the linked lists, and none of the FATAL branches after a queue
     operation can be reached.
2. **The q5 reaction network** (`Reactions`, `ReactionBudget`, `ReactionInvariant`, `ReactionRuns`, `Krypton`): six
   processes, one lock, four condition variables, six counters, under every schedule. `Krypton` is the parent, which hands
   its numbers to the children as text, by way of `Numbers`. `ReactionProcesses` and `ReactionKernelRuns` (with
   `KernelLife`) put the network on the kernel of part 1: seven processes that follow these programs, among others that
   leave their objects alone, make of any run of the kernel a run of the network.
3. **The q3 bounded buffer** (`BoundedBuffer`, `BoundedBufferRuns`): any number of pairs, any item, any size.
4. **Memory** (`BitWords`, `PageRuns`, `PageAllocator`, `PageTable`, `PageOwnership`, `ProcessMemory`, `UserCopy`): the
   free map with the history of its calls, page table entries, page ownership over forks and exits, and copying between
   kernel and user space.
5. **Loader, numbers and arguments** (`Loader`, `LoadImage`, `LoadFile`, `HexFiles`, `Numbers`, `Numerals`, `Arguments`).
   `Numerals` and `HexFiles` begin at the other end: with numerals and program files as they are printed.

`Sequences` and `Words` hold what several of these parts share.

The number of PCBs, links, semaphores, locks, condition variables, pages and producer/consumer pairs are parameters.
In `KernelState`, `Follows` describes a run: a sequence of states and the events between them. In the programs, `IsRun`
describes a run from the initial state, where any process that exists and is not asleep may take the next step, so
every schedule is covered.

Some things the code does differently from its comments, as the model has them:

- An exit schedules as if a time slice had ended, although the exiting process has already left the run queue, so the
  next process goes to the back without having run, unless it is the only one left (`ExitSkipsTheNext`, `TurnComes`). A
  process that is skipped again and again never runs (`ProcessCanStarve`).
- `LockRelease` hands the lock to the first waiter instead of freeing it.
- `CondWait` by a process that does not own the lock stops the kernel; the comment says that it returns.
- `CondCreate` accepts a lock that is not in use, and such a lock has owner 0, because static storage is zero.
- `isxdigit` knows of no upper-case digit but `A`, so data from `B` to `F` is not read, and ends the load
  (`DataIsReadExactly`, `LoadsExactly`).
- A call of the loader that finds no data ends the load, whatever follows (`ChunksLoadTheFile`, `HundredColons`).
- `ditoa` prints only the sign of a negative number (`NegativesAreLost`). From 10^9 on its power of ten wraps around, and
  it prints some other number (`PrintableExactly`, `Billion`); from 1874919424 on it never returns (`ReturnsExactly`). So
  krypton's children do not do what it planned for 10^9 atoms or more, nor for 18 temperatures of ten digits, which they
  read as less than 60 (`EndsAsPlannedExactly`, `BillionAtoms`, `ReadAsFrost`).
- A page number just past the last page is translated, so a copy can go beyond the mapped pages, and if the entry there is
  empty, into the kernel's page 0 (`StopsAtTheEndExactly`, `PagePastTheEnd`).
- Freeing a free page is not detected, and makes the counter too large (`FreePage`); then the first allocation that finds
  all pages taken never returns (`ReturnsExactly`, `ReleaseTwice`).
- `get_argument` answers 0 both for the first argument and for none, so a buffer without arguments counts as one
  (`ArgumentsAreRecovered`).
- q3's head and tail never wrap around (`OverrunsExactlyWhenTheItemsDoNotFit`).

## Model

| member | source | states |
|---|---|---|
| Queues.LinkPool.constructor | os/queue.c:37-56 | after AQueueModuleInit all links are on the free list and all other queues are empty |
| Queues.LinkPool.AllocLink | os/queue.c:84-112 | takes the first free link, detached and with the object stored, or NULL exactly if no link is free; all queues stay well-formed |
| Queues.LinkPool.Remove | os/queue.c:118-143 | deletes the link from the sequence of its queue and appends it to the free list; fails, and changes nothing, exactly if the link is NULL or on no queue |
| Queues.LinkPool.InsertAfter | os/queue.c:158-194 | inserts a detached link right after another one in one sequence; says exactly when it refuses |
| Queues.LinkPool.InsertBefore | os/queue.c:199-235 | inserts a detached link right before another one in one sequence; says exactly when it refuses |
| Queues.LinkPool.MoveAfter | os/queue.c:240-275 | relocates a link within its sequence; refuses exactly in the cases of the code, among them moving the last link |
| Queues.LinkPool.InsertFirst | os/queue.c:280-284 | puts a detached link at the front of a sequence |
| Queues.LinkPool.InsertLast | os/queue.c:289-293 | puts a detached link at the end of a sequence |
| Queues.InsertRefines | os/queue.c:158-235 | linking a record between its neighbours inserts it into one sequence, keeps all others, and keeps first, last, nitems, next, prev and queue in agreement |
| Queues.RemoveRefines | os/queue.c:118-143 | unlinking a record deletes it from one sequence and keeps all others |
| Queues.MoveRefines | os/queue.c:240-275 | unlinking and linking in again relocates a record in one sequence |
| Queues.NoLinkIsLost | os/queue.c:84-275 | links on all queues, free ones included, and detached links always add up to the pool |
| Queues.QueuesAreDisjoint | os/queue.c:84-275 | no link is on two queues, or twice on one |
| Kernels.Kernel.constructor | os/process.c:67-94 | boot ends in the initial state of the state machine, with one link per PCB and the last PCB first in freepcbs |
| Kernels.Kernel.ProcessSuspend | os/process.c:255-272 | moves a runnable PCB to the end of the wait queue with a new link; no queue operation fails |
| Kernels.Kernel.ProcessWakeup | os/process.c:287-304 | moves a waiting PCB to the end of the run queue with a new link; no queue operation fails |
| Kernels.Kernel.ProcessDestroy | os/process.c:321-337 | moves a PCB to the front of the zombie queue with a new link; no queue operation fails |
| Kernels.Kernel.ProcessSchedule | os/process.c:189-242 | rotates the run queue unless the front process was suspended, makes its head current, frees all zombies in order; stops the kernel exactly if nobody can run |
| Kernels.Kernel.RotateRunQueue | os/process.c:217-220 | moving the first link behind the last one rotates the processes of the run queue, also when there is only one |
| Kernels.Kernel.FreeZombies | os/process.c:228-238 | the loop ends, and gives every zombie back to freepcbs in order |
| Kernels.Kernel.ForkBegin | os/process.c:378-400 | takes the first free PCB off its queue and marks it runnable; stops the kernel exactly if there is none |
| Kernels.Kernel.ForkFinish | os/process.c:547-564 | a link is free for the new PCB, which goes to the end of the run queue and becomes current if it is the first |
| Kernels.Kernel.ForkFail | os/process.c:116-131 | a link is free for the PCB, which goes back to the end of freepcbs |
| Kernels.Kernel.Exit | os/traps.c:252-257 | ProcessDestroy followed by ProcessSchedule(0) |
| Kernels.Kernel.SemWait | os/synch.c:96-123 | joins the semaphore's linked list and sleeps, or takes one from the count, as the state machine says; a link is always free |
| Kernels.Kernel.SemSignal | os/synch.c:140-167 | raises the count, or wakes the first sleeper on the linked list in its stead |
| Kernels.Kernel.LockAcquire | os/synch.c:226-261 | takes a free lock, joins the linked list of a taken one and sleeps, and does nothing for its owner; a link is always free |
| Kernels.Kernel.LockRelease | os/synch.c:279-307 | succeeds exactly for the owner, and makes the first sleeper on the linked list the new owner |
| Kernels.Kernel.CondWait | os/synch.c:383-411 | joins the linked list, gives the lock back and sleeps; stops the kernel exactly if the caller does not own the lock |
| Kernels.Kernel.Resume | os/synch.c:411-421 | the rest of a call that slept; after a cond_wait it takes the lock, or sleeps on it |
| Kernels.Kernel.CondSignal | os/synch.c:451-478 | succeeds exactly for the owner of the lock, and wakes the first sleeper on the linked list |
| Kernels.Kernel.CondBroadcast | os/synch.c:504-531 | succeeds exactly for the owner of the lock; the loop ends, and wakes all sleepers in order |
| Kernels.Kernel.SemCreate | os/synch.c:48-82 | initialises the first semaphore not in use, or fails exactly if all are |
| Kernels.Kernel.LockCreate | os/synch.c:189-216 | initialises the first lock not in use, or fails exactly if all are |
| Kernels.Kernel.CondCreate | os/synch.c:330-358 | initialises the first condition variable not in use, or fails exactly if all are or the lock handle is out of range |
| Kernels.Kernel.DoInterrupt | os/traps.c:232-407 | every trap, interrupt and continuation on the linked structures is the transition of the state machine, keeps the invariant and the agreement of pointers, PCBs and objects, and gives the caller `Result` of that transition, which `KernelResults` says in terms of the states |
| Kernels.Kernel.LinkToSpare | os/synch.c:107-110 | with two links per PCB, AQueueAllocLink never returns NULL to a running process or a fork |
| KernelQueues.SpareLink | os/process.c:264-267 | counting: if every process is at most once on a process queue and once on an object queue, and one is missing on either side, a link is free |
| KernelQueues.AfterTake | os/queue.c:118-143 | removing the link that a PCB's `l` names takes that PCB, and no other, off its queue |
| KernelQueues.AfterRotate | os/process.c:217-220 | relocating the first link behind the last rotates links and processes alike |
| KernelInvariant.BootOk | os/process.c:67-94 | the invariant holds after boot, for any number of PCBs and objects |
| KernelInvariant.DoOk | os/traps.c:232-407 | every transition keeps the invariant: queues match status flags, current is the runnable head, sleepers are on the queue of their call, lock owners and semaphore counts fit their queues |
| KernelInvariant.CondWaitOk | os/synch.c:383-411 | releasing the lock while already queued, and then sleeping, restores the invariant |
| KernelInvariant.ExitOk | os/traps.c:252-257 | an exit keeps the invariant and leaves no zombie |
| KernelRuns.OneQueuePerProcess | os/process.c:189-337 | in every state of every booted run a PCB is on exactly one of the four process queues unless it is being forked, and current is the runnable head of the run queue |
| KernelRuns.OneObjectPerSleeper | os/synch.c:105-115 | a waiting process is on the queue of exactly the object its call waits for, and no other process is on any such queue |
| KernelRuns.StepMoves | os/process.c:189-304 | every step that is not an exit moves the run queue up by one if it goes through the scheduler, and otherwise only adds to its end |
| KernelRuns.BoundedWaiting | os/process.c:214-224 | round robin: over any run without exits, the process at index i of the run queue is current after exactly i switches |
| KernelRuns.WaitsItsTurn | os/process.c:214-224 | over any run, exits included: the queue moves up by one place at a switch and by two at an exit, and until it has moved up by i places, the process that was at index i stands at exactly i minus that number and has not been current |
| KernelRuns.TurnComes | os/process.c:214-224 | in the step in which that number is reached or passed, the process becomes current exactly if the step is not an exit with the process second of more than two; otherwise it is now the last in the queue |
| KernelRuns.CurrentInTurn | os/process.c:214-224 | so over any run in which the queue moves up by i places there is one state at which the turn of the process at index i comes: before, it is never current, and there it is current exactly if it has not been skipped |
| KernelRuns.ProcessCanStarve | os/traps.c:252-257 | from boot with three PCBs or more there are runs in which the queue moves as far as one likes, and a runnable process is next all the time and never becomes current |
| KernelRuns.ExitSkipsTheNext | os/traps.c:252-257 | after an exit the run queue is that of the others, rotated: the next process has gone to the back without running |
| KernelObjects.StepEffect | os/synch.c:96-531 | what each transition does to every semaphore, lock and condition variable in use, and that it does nothing else to them |
| KernelSync.SemaphoreAccounts | os/synch.c:96-167 | in every run, count = initial + signals - granted waits, waits are granted only on credit, and somebody sleeps only while count <= 0; so a semaphore started at -(k-1) grants first after k signals |
| KernelSync.FirstInFirstOut | os/synch.c:96-531 | in every run, a sleeper on any object moves up exactly as others leave, and is never overtaken |
| KernelSync.WokenInTurn | os/synch.c:96-531 | on any object, the sleeper at index i sleeps until the (i+1)-th sleeper leaves the queue, and is runnable in the very step in which that happens |
| KernelSync.LockInTurn | os/synch.c:279-307 | in every run, the waiter at index i of a lock's queue moves up by one place at every release of that lock, and at nothing else |
| KernelSync.OwnsAfterReleases | os/synch.c:279-307 | it owns the lock, and can run, with release number i+1; until then it sleeps and is not the owner |
| KernelSync.SemInTurn | os/synch.c:140-167 | in every run, the sleeper at index i of a semaphore moves up by one place at every signal after those that pay off a negative count, and at nothing else |
| KernelSync.AwakeAfterSignals | os/synch.c:140-167 | it is woken by signal number i+1-count, where count is that of the semaphore when it stood at index i, and by none before |
| KernelSync.MutualExclusion | os/synch.c:226-307 | by the history of any run, whoever is between taking a lock and giving it back is its owner, so there is at most one |
| KernelSync.LockQueuesAreSound | os/synch.c:226-307 | nobody waits for a free lock, and no owner waits for its own lock |
| KernelSync.CondWaitIsAtomic | os/synch.c:383-411 | in one transition the caller joins the queue, gives the lock to the first waiter and sleeps, so no signal by a later owner can miss it; a lock that was never created stays as it is |
| KernelSync.CondWaitReturnsOwning | os/synch.c:383-421 | from its cond_wait on a process is inside it, and when the call returns the process owns the lock, whatever the others did, even if the lock was never created |
| KernelSync.SignalsWake | os/synch.c:451-531 | a signal by the owner of the lock wakes the first sleeper, a broadcast all of them, and by anybody else they change nothing |
| KernelSync.HaltsExactlyWhen | os/process.c:199-212 | the kernel stops exactly on a fork without a free PCB, on a cond_wait without the lock, and when the last runnable process exits or sleeps without waking another |
| KernelSync.ResultsOnReturn | os/traps.c:340-388 | a call hands over its result in the step in which it returns to user code, and in no other |
| KernelSync.FailureChangesNothing | os/synch.c:125-538 | a call that returns SYNC_FAIL has changed no queue, no process and no object |
| KernelResults.SemCreateReturns | os/synch.c:48-82 | sem_create returns the first handle not in use, which then names a semaphore with that count and no sleepers, and -1, with no effect, exactly if there is none |
| KernelResults.LockCreateReturns | os/synch.c:189-216 | lock_create likewise; the lock is free, with owner -1 and no waiters |
| KernelResults.CondCreateReturns | os/synch.c:330-358 | cond_create likewise; it also returns -1 exactly for a lock handle out of range |
| KernelResults.SemReturns | os/traps.c:345-354 | sem_wait and sem_signal return 1 for a semaphore in use and -1 otherwise, except that a sem_wait without credit has no result yet |
| KernelResults.LockReturns | os/traps.c:359-368 | lock_acquire returns 1 at once for a free lock and for its owner, -1 for a handle of no lock in use, and has no result yet otherwise; lock_release returns 1 exactly to the owner, and -1 to others |
| KernelResults.CondReturns | os/traps.c:374-388 | cond_signal and cond_broadcast return 1 exactly to the owner of the lock of a condition variable in use, and -1 otherwise; cond_wait returns -1 at once exactly for any other handle |
| KernelResults.ResumeReturns | os/synch.c:411-421 | a call that slept returns 1 when its process runs on, except that a cond_wait whose lock is in use and taken has no result yet |
| KernelResults.NoResultYet | os/process.c:255-272 | a call without a result has put its process to sleep, last on the wait queue, or has stopped the kernel |
| KernelResults.FreePcbs | os/process.c:116-131 | a fork takes the first free PCB, and failed forks and exits give theirs back at the end of freepcbs |
| ReactionBudget.PlanReactions | apps/q5/krypton/krypton.c:107-121 | for all integers, the planning loop ends, and its plan uses no more molecules than there are, leaves too few for another reaction, and takes turns with reaction 3 first: reaction 4 is ahead only if the N2 is used up, reaction 3 only if too little O2 was left behind it |
| ReactionBudget.PlanIsBudget | apps/q5/krypton/krypton.c:107-121 | these conditions have exactly one solution, which is the closed form |
| ReactionBudget.BudgetIsFeasibleAndExhaustive | apps/q5/krypton/krypton.c:107-121 | the plan never needs more molecules than there will be, and leaves neither reaction possible |
| ReactionInvariant.ChildKeepsInv | apps/q5/reaction_3/reaction_3.c:40-57 | every step of every child keeps the invariant on lock, condition queues, counters and completion semaphore |
| ReactionRuns.NoDeadlock | apps/q5/krypton/krypton.c:139-153 | when no process can take a step, all seven have exited |
| ReactionRuns.StepDecreases | apps/q5/reaction_4/reaction_4.c:40-54 | every step, under every schedule, lowers a measure of remaining rounds, positions and pending tests |
| ReactionRuns.EveryRunIsShort | apps/q5/krypton/krypton.c:139-153 | every run has at most a number of steps that depends on the arguments only |
| ReactionRuns.EveryRunCanComplete | apps/q5/krypton/krypton.c:139-153 | every run can be continued to one that has ended |
| ReactionRuns.EndedRun | apps/q5/krypton/krypton.c:139-153 | every run that cannot be continued has all seven processes exited, and counters that depend on what the children read only |
| Krypton.EveryScheduleEndsAlike | apps/q5/krypton/krypton.c:107-153 | if the children read what krypton planned, every ended run has the same counters, given by the budget, and neither reaction 3 nor 4 is possible any more |
| Krypton.OutcomeIs | apps/q5/krypton/krypton.c:107-121 | the planned counters in terms of the atoms: at most one atom of each kind is left over, all others are in molecules, and the numbers of reactions 3 and 4 are that solution |
| Krypton.NeverAsPlanned | apps/q5/krypton/krypton.c:124-148 | if they do not, no state of any run has the planned counters |
| Krypton.EndsAsPlannedExactly | apps/q5/krypton/krypton.c:124-148 | an ended run has the planned counters exactly if there are fewer than 10^9 atoms of each kind, and the temperature has at most nine digits, or is none of the 18 that are read as less than 60, or there are too few atoms for reaction 4; negative numbers are read as 0, which makes no difference |
| Krypton.ReadAsFrost | apps/q5/krypton/krypton.c:136-148 | a failing temperature: 1410065400 with six atoms of oxygen is read as 0, and no run makes any of the planned ozone |
| Krypton.BillionAtoms | apps/q5/krypton/krypton.c:132-148 | the failing input: with 10^9 atoms of nitrogen and no oxygen every ended run has 354593486 molecules of nitrogen |
| ReactionRuns.GrantedMeansFinal | apps/q5/krypton/krypton.c:149-153 | when krypton's sem_wait has been granted, the counters are already final |
| Krypton.AtomsAreConserved | apps/q5/reaction_2/reaction_2.c:44-60 | in every state no counter is negative, molecules account for exactly the atoms released, and the kernel does not stop on a cond_wait without the lock |
| Krypton.NoWakeupIsLost | apps/q5/reaction_1/reaction_1.c:43-58 | in every state a reaction asleep while the lock is free has a false condition, and a reaction woken under an `if`, or past its guard, has its atoms |
| Krypton.RunsExcludeMutually | apps/q5/producer_n/producer_n.c:37-49 | at most one process that can run is inside the critical section |
| ReactionProcesses.EventKeeps | os/synch.c:96-531 | every event of the kernel, by a process of the network, by another one, or by the scheduler, keeps the kernel's objects, calls and PIDs and the state of the programs together, and is one step of the programs or none |
| ReactionProcesses.CurrentIsAwake | apps/q5/reaction_1/reaction_1.c:40-60 | whenever the kernel runs a process of the network, its program can take a step |
| ReactionKernelRuns.KernelRunsAreRuns | apps/q5/krypton/krypton.c:139-153 | refinement: what any run of the kernel does to the state of the programs is a run of the network, so every theorem about the network holds on the kernel, time slices and other processes included |
| ReactionKernelRuns.StopsOnlyAtTheEnd | os/process.c:199-212 | if nobody else runs, the kernel stops only at the exit of the last of the seven processes, and then the counters are final: it never stops because all of them sleep, or on a cond_wait without the lock |
| ReactionKernelRuns.CanStart | apps/q5/krypton/krypton.c:75-104 | from boot, with one PCB, semaphore and lock and four condition variables or more, the kernel reaches the state in which krypton creates its first child |
| BoundedBufferRuns.StepKeepsInv | apps/q3/producer/producer.c:36-45 | every step keeps the count of slots in semaphores and in hands, the order of the buffer, and who owns the lock |
| BoundedBufferRuns.BufferIsBounded | apps/q3/consumer/consumer.c:37-47 | for any number of pairs, in every state 0 <= head - tail <= size, and at most one process is at the buffer |
| BoundedBufferRuns.FirstInFirstOut | apps/q3/producer/producer.c:40 | the k-th character removed is the k-th inserted, and each producer has inserted the beginning of its item in order |
| BoundedBufferRuns.NoDeadlock | apps/q3/makeprocs/makeprocs.c:46-100 | when no process can take a step, all have finished and everything inserted has been removed |
| BoundedBufferRuns.EveryRunIsShort | apps/q3/makeprocs/makeprocs.c:85-100 | every run ends, under every schedule |
| BoundedBufferRuns.EveryScheduleDelivers | apps/q3/makeprocs/makeprocs.c:46-100 | every ended run has delivered exactly every producer's item, in the order of insertion |
| BoundedBufferRuns.OverrunsExactlyWhenTheItemsDoNotFit | apps/q3/producer/producer.c:40 | some run leaves the array exactly if all items together are larger than it |
| BoundedBufferRuns.SevenPairsOverrun | apps/q3/include/buffer.h:4-16 | with items of 10 and 64 slots, that is from seven pairs on |
| BitWords.WithBitSets | os/memory.c:30-64 | the mask expression sets or clears one bit and keeps the other 31 |
| BitWords.LowestBit | os/memory.c:127-129 | the loop ends within 32 steps at the lowest set bit of a word that is not zero |
| PageAllocator.Allocator.SetFreemap | os/memory.c:59-67 | adds one page to the set of free pages, or removes it |
| PageAllocator.Allocator.ModuleInit | os/memory.c:78-100 | afterwards page p is free exactly if it lies in memory as a whole and p * 64 KB is behind the address of the kernel's last word; the counter says how many are free, and the map has just enough words |
| PageAllocator.Allocator.FindWord | os/memory.c:121-126 | if a page is free, the search ends, in one of the words that it visits, at the nearest word with a free page going around from the last one |
| PageAllocator.Allocator.AllocPage | os/memory.c:111-136 | whenever the counter is 0 or a page is free, also after double releases: returns a page that was free and is not outstanding by the history of calls, never one of the kernel's, takes exactly it out of the set, and chooses the lowest free page from the start of the last word used on, or, if there is none, the lowest of all; 0 exactly if none is free; the call is added to the history, and counter and free pages keep their difference |
| PageAllocator.Allocator.ReturnsExactly | os/memory.c:117-126 | a call of MemoryAllocPage ends exactly if the counter is 0 or a page is free; over the history, it fails to end exactly if no page is free and some release was of a page that was free already |
| PageAllocator.ReleaseTwice | os/memory.c:146-151 | the failing case: with all pages taken, a page released twice and taken once leaves a kernel whose next allocation does not end |
| PageAllocator.Allocator.FreePage | os/memory.c:146-151 | puts the page back, and adds the call to the history; the map stays in order exactly if the page is in the range of MemoryModuleInit, and the counter gets ahead of the free pages by one exactly if the page was free already |
| PageRuns.FreeOrOutstanding | os/memory.c:111-151 | over any history of the allocator, failed calls and wrong releases included, no page is free and handed out |
| PageRuns.Partition | os/memory.c:111-151 | over any history in which only outstanding pages are released, free and outstanding pages partition the original ones |
| PageRuns.NeverTwice | os/memory.c:111-151 | between two calls of a history that hand out the same page there is one that gives it back |
| PageTable.PteBits | os/memory.c:261-264 | the bit operations on entries are the sums and differences used here |
| PageTable.PteHalves | os/memory.c:261-291 | the upper half of an entry is the page number, as far as it fits, the lower half is the valid bit, and the page freed for an entry is its upper half |
| PageTable.PteRoundTrip | os/memory.c:261-291 | a page number survives its entry, whatever status bits are added, exactly if it fits into 16 bits |
| PageOwnership.PagesAreConserved | os/process.c:116-149 | over any run of forks, failed loads and exits, free pages plus two per PCB that owns memory is constant, and no page has two owners |
| ProcessMemory.Memory.Fork | os/process.c:413-425 | takes two different free pages for the PCB, recorded in its page table, with the valid bit, and in its stack address, or fails exactly if there are not two |
| ProcessMemory.Memory.FreeResources | os/process.c:138-147 | gives back exactly the two pages in the upper halves of the PCB's entry and stack address |
| UserCopy.Bcopy | os/misc.c:244-250 | copies the bytes in ascending order, also when the ranges overlap |
| UserCopy.TranslateAt | os/memory.c:163-173 | the address at an offset in page i is translated to that offset in the page that entry i names, also for the page just past the last one, and to 0 behind it |
| UserCopy.ChunkIsBytes | os/memory.c:199-230 | a block copy that stays on its page is that many translated byte copies |
| UserCopy.MoveBetweenSpaces | os/memory.c:194-230 | ends, and leaves the same memory and returns the same number as translating and copying every byte by itself, for every table, range and direction, also if ranges overlap or the translation fails on the way; stops at the first unmapped address exactly under the condition of StopsAtTheEndExactly |
| UserCopy.CopyToUser | os/memory.c:240-244 | inside the mapped pages, every byte for address v arrives in the page of entry v / 64 KB, at offset v mod 64 KB, for every direction that counts as to user space, and nothing else changes |
| UserCopy.CopyFromUser | os/memory.c:246-250 | inside the mapped pages, every byte of address v comes from the page of entry v / 64 KB, at offset v mod 64 KB, for every negative direction, and nothing else changes |
| UserCopy.RoundTrip | os/memory.c:240-250 | system to user and back gives the original bytes |
| UserCopy.CopiedBytes | os/memory.c:163-230 | how many bytes a copy moves, for every start and length |
| UserCopy.StopsAtTheEndExactly | os/memory.c:163-230 | a copy stops at the first address past the mapped pages exactly if it does not get there, or starts behind the page just past them, or does not start inside that page and its entry is 0 |
| UserCopy.PagePastTheEnd | os/memory.c:163-173 | the failing input: one byte stored at the second address past the end, whose entry is 0, goes to address 1, in the kernel's page |
| Numbers.Ditoa | os/misc.c:154-174 | writes what `Printed` says and a NUL, and nothing beyond, for every number for which it returns |
| Numbers.ReturnsExactly | os/misc.c:165-166 | ditoa returns for every number below 1874919424 and for no other, since its power of ten, which wraps around in 32 bits, never becomes larger |
| Numbers.PrintsNumeral | os/misc.c:154-174 | from 0 to 10^9-1 it writes the decimal numeral |
| Numbers.PowerAbove | os/misc.c:165-166 | wherever the loop ends, it ends at the first of the wrapped powers of ten that is above the number |
| Numbers.FoundBelow | os/misc.c:165-166 | for numbers below 10^9 that is the least power of ten above the number, reached without overflow |
| Numbers.FoundAbove | os/misc.c:165-166 | from 10^9 on it is 1410065408, then 1874919424, then nothing |
| Numbers.PutDigits | os/misc.c:167-171 | the loop writes all characters from the front, leading position first, for any starting value that leads to one |
| Numbers.Dstrtol | os/misc.c:176-236 | computes value and end position for any text, base and start, with 32-bit wrap-around |
| Numerals.DigitValues | os/misc.c:215-230 | the characters with a value below b are exactly the digits of base b, in both cases, and each has its place in the list of digits as its value |
| Numerals.ReadsNumeral | os/misc.c:215-230 | the digits of the numeral of n in base b, for any n and any base from 2 to 16, are read as n modulo 2^32 |
| Numerals.ReadsNumber | os/misc.c:176-236 | behind any white space, with or without a minus sign, with the prefix of its base or the base as argument, a numeral is read as its signed value modulo 2^32, which is the number itself if it fits into 32 bits; reading stops right behind the last digit |
| Numerals.ReadsNothing | os/misc.c:182-213 | without a number, or with a base below 0 or above 16, the value is 0 and the place that behind the white space |
| Numbers.RoundTrip | os/misc.c:154-236 | dstrtol gives back the number that ditoa printed, and stops right behind its at most nine digits |
| Numbers.PrintableExactly | os/misc.c:154-236 | for every 32-bit number, ditoa returns and dstrtol gives the number back exactly if 0 <= n < 10^9 |
| Numbers.Billion | os/misc.c:154-174 | the first number that goes wrong: 10^9 is printed as 709186972 and read back as that |
| Numbers.ReadsFew | os/misc.c:154-236 | which numbers from 10^9 on are read back as less than ten, in closed form; all others are read as 70 or more |
| Numbers.NegativesAreLost | os/misc.c:159-161 | a negative number is printed as its sign and read back as 0 |
| Arguments.PackArguments | os/traps.c:114-127 | the buffer holds all arguments if there are at most eleven, and otherwise the first eleven, with their NULs, cut off at its end at 1024, followed by NULs up to 100 |
| Arguments.ArgumentScanner.GetArgument | os/process.c:902-928 | returns the current place and moves past the next NUL, or to 100; returns 0 at the end |
| Arguments.ArgumentScanner.AllOffsets | os/process.c:503-514 | for any buffer the calls end, and yield every offset found, and 0 if there is none |
| Arguments.ArgumentsAreRecovered | os/process.c:902-928 | all start offsets are recovered exactly if no argument is empty and the last one starts before place 99, or there is only one and it is empty |
| Arguments.PassArguments | os/traps.c:114-127 | packing and scanning together: the new process gets the places of the arguments exactly under that condition on the arguments copied |
| Loader.ReadLine | os/process.c:724-738 | reads the digit pairs of a line into the caller's buffer and never writes past it |
| Loader.GetFromFile | os/process.c:673-745 | on any text with a newline in its window: stores the bytes, address and seek position of the loop's meaning, never more bytes than the buffer has, never beyond the last newline |
| Loader.ChunkStops | os/process.c:702-741 | reading never passes the Z that ends the buffer, whatever the text |
| HexFiles.HexItemsAre | os/process.c:724-736 | two hexadecimal digits for each byte, in either case, stand for exactly these bytes |
| HexFiles.ReadsHexText | os/process.c:724-738 | from the printed data of a line the loader reads exactly the bytes that were printed, unless upper-case digits from B to F occur |
| HexFiles.HexValueOf | os/misc.c:215-230 | the address printed in base 16 has its value |
| HexFiles.WritesImage | os/process.c:673-745 | a printed file says that byte i of each row goes to the address of the row plus i, modulo 2^32, where a row without an address follows the one before |
| HexFiles.PrintedFileLoads | os/process.c:486-491 | for every image whose rows have data and fit into a window of 200 characters and of twice the buffer, the file printed from it is a file of well-formed lines, and is loaded as that image exactly if no data digit is an upper-case B to F |
| LoadImage.WindowHoldsLines | os/process.c:691-703 | at the start of a line, the terminated buffer holds exactly the whole lines that fit |
| LoadImage.HexDigitsAreRead | os/misc.c:215-230 | an address in hexadecimal is read modulo 2^32, in spite of signed 32-bit arithmetic |
| LoadImage.ChunkIsReading | os/process.c:707-739 | on whole lines the loop reads a line and those that continue it, up to the first data digit from B to F |
| LoadImage.ChunkIsGroup | os/process.c:707-739 | without such a digit it reads exactly a line and those that continue it |
| LoadImage.ChunksLoadTheFile | os/process.c:673-745 | reading in chunks puts the same bytes at the same addresses, in the same order, as reading the whole file at once exactly if no data comes after the first call that finds none, which can be seen from the lines alone |
| LoadImage.LinesWithData | os/process.c:673-745 | lines that fit into a window and have data are all loaded |
| LoadImage.HundredColons | os/process.c:486-491 | the failing file: after a hundred lines with nothing but a colon, a line with data is never loaded |
| LoadFile.Load | os/process.c:486-491 | for every file of well-formed lines that fit into a window, the loop ends, and has written what the whole file says exactly if no data digit is from B to F and no data comes after the first call that finds none |
| LoadFile.LoadsExactly | os/process.c:486-491 | that condition is exact: otherwise some bytes are lost |
| LoadImage.DataIsReadExactly | include/misc.h:29-34 | of the data of a well-formed line the loader reads a beginning, and all of it exactly if no digit is from B to F |
| LoadImage.UnknownDigitEndsTheChunk | os/process.c:707-733 | such a digit ends the chunk, and a call that begins at it returns no data |

## Left out

- Interrupt levels: DisableIntrs and RestoreIntrs appear only as the choice of atomic steps. On the not-owner paths of LockRelease, CondSignal and CondBroadcast the level is not restored; nothing is claimed about it.
- Context switches: saving and restoring registers (os/dlxos.s), stack frames, TimerSet and the keyboard are not part of this model. A switch changes which process takes the next step; the saved kernel stack of a process is the call it is inside of.
- Creation of objects: the C code enables interrupts between marking an object as used and initialising it; here creation is one step.
- Forks: ProcessFork is two transitions, taking the PCB and putting it on the run queue; what happens in between (names, stack frames, loading) is in the memory and loader parts. As in the code, the fork may be interrupted there.
- Exits while holding a lock: ProcessDestroy does not release locks. Nothing prevents such exits in the model; the lock then keeps its owner.
- Kernels.Kernel: PCBs, semaphores, locks and condition variables are fields of type `seq`, assigned one entry at a time, and pointers are indices; so aliasing of PCBs is not modelled. AQueueInit on a queue that is not empty would lose its links; the code calls it on empty queues only.
- Queues.LinkPool.InsertAfter: inserting a link that is still on a queue is excluded, as in all callers; the C function would then leave its old neighbours pointing at it.
- Queues.LinkPool.InsertBefore: inserting a link that is still on a queue is excluded, as in all callers; the C function would then leave its old neighbours pointing at it.
- Queues.LinkPool.InsertFirst: inserting a link that is still on a queue is excluded, as in all callers; the C function would then leave its old neighbours pointing at it.
- Queues.LinkPool.InsertLast: inserting a link that is still on a queue is excluded, as in all callers; the C function would then leave its old neighbours pointing at it.
- The sleep trap outside of kernel calls: no user stub for it exists, so only ProcessSleep inside a blocking call is modelled.
- Reactions: one update of several counters under the lock is one step; creation of the lock, the semaphore and the condition variables precedes the initial state; the shared page is given. `ReactionKernelRuns` relates its steps to the kernel's.
- BoundedBuffer: as for Reactions, except that its kernel is the value model in `Synch` alone, where any process that is not asleep may run. The shared page is taken to be large enough for what is written past the array.
- Krypton: the arguments for which ditoa never returns, since krypton then creates no children.
- ReactionRuns.EveryRunIsShort: counts steps of processes between kernel calls, not machine instructions.
- apps/q4: its producer never signals the condition of its consumers, so a waiting consumer is never woken.
- apps/q2 and apps/example: q2 polls where q3 waits; the example repeats the completion semaphore.
- Shared pages: only compiled assembly is available for them, so processes own two pages, and a process has one page table entry.
- UserCopy.MoveBetweenSpaces: every entry up to and including the one just past the last page must name a page inside memory (an entry of 0 does), since the code would otherwise access memory that does not exist.
- Memory above 2^31 bytes, and addresses that wrap around 2^32 while copying.
- PageAllocator.Allocator.AllocPage: calls that never end, which Returns tells apart.
- Numbers.Ditoa: numbers for which it never returns; what 32-bit multiplication does on overflow is taken to be wrap-around, as in dstrtol.
- LoadFile.Load: only files of well-formed lines that fit into a window; Loader.GetFromFile covers every text whose window has a newline. Without one the C code reads before its buffer.
- ProcessGetCodeInfo and the header line of a program; writing the parameters onto the user stack (os/process.c:497-520).
- Arguments.PackArguments: arguments of which one before the last fills the buffer of 1024 characters, since the code then writes behind it.
- Keyboard interrupts, and the traps that stop the kernel at once (illegal access and the like).
- Copying the name of the executable in TrapProcessCreateHandler, its system-mode branches, TrapPrintfHandler, the file calls of os/filesys.c, other string helpers, debugging output and command-line options.
