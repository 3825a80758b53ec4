# A model of sppc's runtime, with proofs

sppc is the C runtime of S++. This project models the parts of it where many things happen at once and
proves what they promise:

- **The green-thread scheduler** (`headers/sppc/async/sched.h`): tasks multiplexed on one thread over
  intrusive lists. `SchedModel` has each operation as a function on values, `SchedInvariant` the
  inductive invariant and a preservation lemma for each operation, `SchedRuns` whole runs with every
  interleaving of what tasks, the i/o backend, the allocator and other threads may do. `SchedDeadlock`,
  `SchedDrain`, `SchedTurns`, `SchedSpawn`, `SchedSlots`, `SchedDetach` and `SchedLocks` have the
  theorems about runs, and `MemoryRuns` and `MemoryCalls` what tasks hold of memory over them. `SchedHeap` is the linked
  form, objects with `next` and `wnext` pointers updated in place, each method proved to compute the
  function of `SchedModel` it stands for.
- **The completion backends** it parks on: `Iocp` and `IocpAttach` (`iocp.h`), `Uring` over `Bits`
  (`io_uring.h`).
- **The pthreads built from futex-style waits** (`windows.h`): `Mutex`, `Cond`, `RwLock` and
  `BarrierWindows`, any number of threads as program counters that take one atomic access at a step,
  with sleeps that may end spuriously or by timeout at any time. Beside what holds in every run, each
  has what a call comes to that is left alone from any state a run can be in. `Barrier` is a specification that
  `BarrierWindows` and `BarrierDarwin` (`darwin.h`) both refine.
- **Sequential cores**: the UTF-8 console writer (`Utf8`, `Console`), the fd table (`FdTable`) and the
  counted descriptions shared through it (`FdShare`), flag translation (`Flags`), task stacks
  (`Stacks`) and what each task holds of memory until the thread ends (`TaskMemory`).

`Runs` has the notions all the state machines share: what every step keeps holds in every run, and
a relation simulated step by step is simulated run by run.

What the system does is an argument or a step of its own: what a poll finds, what the allocator
answers, where the kernel maps memory, when a sleep ends, what the clocks read. Each is as free as the
contract of the call it stands for allows.

Properties of code that changes state are stated as what the new state is. Where a main theorem speaks
of history (how often a slot was retired, which thread took the mutex, how many bytes were taken) the
model keeps that history beside the fields the code has; it never decides a step.

`dafny verify dfyconfig.toml` checks the whole project.

## Findings

- Detaching a task that others are still to collect breaks the scheduler, and no other detach that is
  accepted does: `SchedDetach.DetachExact`. If the task has finished, its slot is on the free list at
  once with its awaiters still to hand it back; if not, that happens when it finishes, whatever all
  tasks do till then (`DetachDooms`, `DoomedUntilFinished`). `DetachUnderAwaiter` is a run from the
  start after which the slot is on the free list twice. Nothing in the source checks for it, so the
  theorems about runs exclude that detach, and no other.
- A teardown from inside a task spares the stack it runs on, but with split stacks a task runs on its
  unsafe stack too, and that one is unmapped: the comment in the source speaks of one stack.
  `TaskMemory.Memory.Teardown` has the exact condition and `TaskMemory.EndsInsideTask` makes the calls
  that get there.
- Stale handles are refused except after a multiple of 2047 retirements of the slot, when the
  generation has come round: `SchedSlots.StaleHandlesRefused`, for every run, and
  `SchedSlots.HandleComesRound`, a run for every number of retirements.
- Where `io_uring_enter` fails its entry stays published, and from then on every wait has the kernel
  take an entry as many places before its own as waits have failed; an accepted wait has its own taken
  exactly if none failed before it, and none can be claimed once as many failed as the ring has
  entries: `Uring.Ring.IoWait`, `Uring.Ring.OwnEntryTaken`, `Uring.Ring.Claim`. `Uring.StrandsTask`
  makes the calls after which a task is parked with nothing outstanding, and another that is not
  parked is made ready.
- Guard pages may be switched exactly where no stack is handed out: `Stacks.StackCache.SetGuard`.
  `Stacks.SwitchesUnderStack` makes the calls, either way, after which a stack's unmapping would name a
  region that was never mapped.
- A recursive mutex belongs to the thread and not to the task: where a mutex, a spin lock or a write
  lock keeps the other tasks out till its holder gives it up (`SchedLocks.ExclusiveUntilReleased`), a
  recursive one lets them in while its first taker is inside (`SchedLocks.OldestTakesLock`, with the
  run of `SchedLocks.RecursiveLetsBothIn`).

## Model

| member | source | states |
|---|---|---|
| SchedHeap.GtRuntime.constructor | headers/sppc/async/sched.h:204-236 | the thread that starts the runtime becomes task 0, running, with every list empty; the linked state stands for `Started` |
| SchedHeap.GtRuntime.RqPush | headers/sppc/async/sched.h:23-28 | a task on no list goes to the tail of the run queue as READY; every other list keeps its contents and links |
| SchedHeap.GtRuntime.RqPop | headers/sppc/async/sched.h:36-43 | the head of the run queue comes off, or null from an empty queue; head, tail and the other lists stay linked |
| SchedHeap.GtRuntime.RqRemove | headers/sppc/async/sched.h:473-486 | a task is cut out of the run queue wherever it stands and the rest keep their order; false, and nothing changed, for one not on it |
| SchedHeap.GtRuntime.Reap | headers/sppc/async/sched.h:53-78 | the zombie list is emptied, and exactly the detached ones retired |
| SchedHeap.GtRuntime.SwitchTo | headers/sppc/async/sched.h:80-105 | control and the one unsafe stack pointer pass to the task, the old pointer saved, and the zombies are reaped; to itself a task only runs on |
| SchedHeap.GtRuntime.IoPoll | headers/sppc/async/io_uring.h:164-182 | each completion makes the task it names READY with its result, in order, and `inflight` falls by their number |
| SchedHeap.GtRuntime.Pick | headers/sppc/async/sched.h:107-124 | polls until a task is ready or nothing is outstanding; then it is the head of the run queue as those polls left it, or null |
| SchedHeap.GtRuntime.Block | headers/sppc/async/sched.h:126-138 | the parked task gives way to what a pick finds, which may be itself; false exactly where the pick finds nothing |
| SchedHeap.GtRuntime.SlotAlloc | headers/sppc/async/sched.h:142-170 | the head of the free list, cleared but for index and generation, or a new slot at the end of a table that doubled if it was full; null exactly where the allocator or the index bound refuses |
| SchedHeap.GtRuntime.SlotFree | headers/sppc/async/sched.h:172-180 | the slot is free, its generation moved on past 0, and first on the free list |
| SchedHeap.GtRuntime.Resolve | headers/sppc/async/sched.h:182-190 | the slot a handle names, or null for one that is not positive, past the table, of another generation or free |
| SchedHeap.GtRuntime.Spawn | headers/sppc/async/sched.h:330-379 | a slot, stacks and a place at the tail of the run queue, and the handle that names them; with no stacks the slot is handed back |
| SchedHeap.GtRuntime.Yield | headers/sppc/async/sched.h:385-395 | the head of the run queue runs and the yielder is at its tail, after one poll; alone it goes on |
| SchedHeap.GtRuntime.ParkOn | headers/sppc/async/sched.h:669-674 | the running task heads the waiter list of its target, counted in `njoiners`, the lists through `wnext` still disjoint |
| SchedHeap.GtRuntime.AwaitBegin | headers/sppc/async/sched.h:659-675 | await up to its park: every answer the source gives, in its order, and the park with what it switches to; a finished task nobody else is to collect is retired |
| SchedHeap.GtRuntime.AwaitEnd | headers/sppc/async/sched.h:675-686 | an awaiter that is back counts itself out, and the last hands the slot back |
| SchedHeap.GtRuntime.Detach | headers/sppc/async/sched.h:693-705 | every answer of detach, the flag set, and a finished task retired at once, whoever is still to collect it |
| SchedHeap.GtRuntime.WakeAwaiters | headers/sppc/async/sched.h:266-284 | a finished body marks its task DONE, wakes the whole waiter list in order and joins the zombies |
| SchedHeap.GtRuntime.FinishTask | headers/sppc/async/sched.h:257-301 | the whole end of a task: its awaiters ready, its successor running, itself reaped on the far side; false exactly for the panic |
| SchedHeap.GtRuntime.LockWaitAdd | headers/sppc/async/sched.h:488-494 | a waiter goes behind all that are queued |
| SchedHeap.GtRuntime.LockWaitRemove | headers/sppc/async/sched.h:496-504 | a waiter is taken out from wherever it is, the others in order |
| SchedHeap.GtRuntime.LockReleased | headers/sppc/async/sched.h:514-524 | the oldest waiter on this lock that is ready is cut from the run queue and run, the releaser queued at the tail; nothing happens without one |
| SchedHeap.GtRuntime.DrainTurn | headers/sppc/async/sched.h:716-725 | one turn of the drain: a hand-off where anything is ready, a waiting poll where something is outstanding, the end of the loop exactly where neither |
| SchedRuns.StepKeeps | headers/sppc/async/sched.h:23-138 | every operation, whatever the backend, the allocator and other threads answer, keeps the whole invariant: places, lists, counts, generations, lock queue |
| SchedRuns.ReachableInv | headers/sppc/async/sched.h:23-730 | every state of every run from the start satisfies it |
| SchedRuns.EachTaskInItsPlace | headers/sppc/async/sched.h:23-138 | READY is once on the run queue, RUNNING is `current` alone, WAITING is one outstanding operation, FREE is once on the free list, JOINING is on one waiter list of a task not finished; no zombie is left when task code runs; `inflight` and `live` are the sizes of their sets |
| SchedInvariant.CompleteKeeps | headers/sppc/async/sched.h:257-284 | waking all awaiters and joining the zombies leaves every task where its state says |
| SchedInvariant.HandoffKeeps | headers/sppc/async/sched.h:441-455 | queueing the running task and running one taken from anywhere on the queue keeps the invariant |
| SchedInvariant.SpawnKeeps | headers/sppc/async/sched.h:330-379 | spawning keeps it whether a slot is reused, the table grows or the allocator refuses at either point |
| SchedInvariant.CollectKeeps | headers/sppc/async/sched.h:675-686 | so does the part of await after its park |
| SchedInvariant.DetachKeeps | headers/sppc/async/sched.h:693-705 | and detach, where nobody is still to collect the task |
| SchedTurns.DeliverGives | headers/sppc/async/io_uring.h:164-182 | of the tasks a poll collects completions for each is ready with the result of its own, and every other task is as it was |
| SchedTurns.DeliverQueues | headers/sppc/async/io_uring.h:164-182 | those tasks join the run queue behind all that are on it, in the order collected; `inflight` falls by as many, and nothing else changes |
| SchedTurns.DeliverableIs | headers/sppc/async/io_uring.h:164-182 | what a poll can collect is completions of operations outstanding, no task's twice |
| SchedTurns.ResultReturned | headers/sppc/async/io_uring.h:213-226 | in every run, from the step at which a task parks on an operation to the one that gives it its next turn, one completion collected names it, and one only, and that one's result is what it finds |
| SchedTurns.TurnsInOrder | headers/sppc/async/sched.h:107-138 | what a step makes ready goes behind all that were; a task that parks or ends gives way to the head of the queue, one that yields or passes does so and goes to the tail; any other step but a hand-off of a lock leaves it running |
| SchedTurns.PlaceKept | headers/sppc/async/sched.h:20-43 | a ready task never moves back, whatever step is taken, and nearer the head with every turn |
| SchedTurns.NoneStarves | headers/sppc/async/sched.h:107-138 | in every run a task ready at place `k` runs within the next `k + 1` turns taken |
| SchedSpawn.TableSize | headers/sppc/async/sched.h:154-161 | in every reachable state the table has 64 slots doubled up to 13 times |
| SchedSpawn.TableDoubles | headers/sppc/async/sched.h:154-161 | a step doubles it exactly where a spawn finds it full, with no slot handed back, memory for it and room below the index bound; no other step changes it |
| SchedSpawn.SpawnExact | headers/sppc/async/sched.h:142-170 | a spawn is refused exactly where no slot is free and 524288 are in use or memory was refused, or there is no stack; else its handle resolves to the new task, new in every field, at the tail of the run queue, and no other task is touched |
| SchedSpawn.SpawnRefused | headers/sppc/async/sched.h:330-379 | a refused one leaves every task in use and the run queue as they were |
| SchedSpawn.LastBackFirst | headers/sppc/async/sched.h:144-145 | the slot handed back last is the first to be used again |
| SchedDetach.DetachExact | headers/sppc/async/sched.h:693-705 | an accepted detach keeps the invariant exactly where `njoiners` is 0 |
| SchedDetach.DetachDooms | headers/sppc/async/sched.h:699-704 | where it is not 0, a finished task's slot is free at once while each of its awaiters, on the run queue, has still to hand it back; an unfinished task is left in a state that is right but for its flag |
| SchedDetach.DoomedStays | headers/sppc/async/sched.h:693-705 | no step of any task gets out of that state but the end of the task itself |
| SchedDetach.DoomedUntilFinished | headers/sppc/async/sched.h:53-78 | over any run it lasts until the task finishes, and then the slot is free under all that awaited it |
| SchedDetach.DetachUnderAwaiter | headers/sppc/async/sched.h:659-705 | a run from the start in which one task awaits another, that one is detached and finishes, and the first collects: the slot is on the free list twice |
| SchedDetach.CollectFreed | headers/sppc/async/sched.h:675-686 | the last of them, collecting a slot that is free, puts it on the free list again |
| SchedDeadlock.DeadlockExact | headers/sppc/async/sched.h:126-138 | the panic of a block, and that of a finished task, happens exactly when every unfinished task is JOINING once the running one has stopped; then some await each other in a cycle |
| SchedDeadlock.ChainEnds | headers/sppc/async/sched.h:669-674 | following awaits from any task ends at one that awaits nobody or runs into a cycle |
| SchedDeadlock.AllJoiningCircular | headers/sppc/async/sched.h:288-295 | if every unfinished task awaits another there is a cycle of them, by the pigeonhole principle |
| SchedDeadlock.NothingRuns | headers/sppc/async/sched.h:107-124 | with nothing runnable and nothing outstanding every unfinished task is JOINING, and conversely |
| SchedDrain.DrainTerminates | headers/sppc/async/sched.h:712-730 | a drain of tasks with finite bodies, spawning included, takes no more steps than a measure of what they had left, waits that came back with nothing not counted |
| SchedDrain.MeasureFalls | headers/sppc/async/sched.h:712-730 | each step of the drain or of a task it lets run lowers that measure, but for a wait that collects nothing, which leaves all as it was |
| SchedDrain.DrainNeverPanics | headers/sppc/async/sched.h:712-730 | while a thread drains, no task of it can hit the deadlock panic |
| SchedDrain.DrainGoesOn | headers/sppc/async/sched.h:716-725 | the loop is over exactly where it can neither pass nor collect anything |
| SchedDrain.DrainComplete | headers/sppc/async/sched.h:712-730 | after it every other task is finished, or its chain of awaits leads to the drainer or into a cycle |
| SchedSlots.HandleRoundTrips | headers/sppc/async/runtime.h:55-57 | a handle is a positive 31-bit number and unpacks to its slot and generation |
| SchedSlots.HandlesDiffer | headers/sppc/async/runtime.h:296-302 | different slots or generations never share a handle |
| SchedSlots.ResolvesOnlyHandles | headers/sppc/async/sched.h:182-190 | a number resolves to a slot exactly if it is that slot's handle now and the slot is in use |
| SchedSlots.AwaitDecides | headers/sppc/async/sched.h:659-668 | await answers by whom the handle names: a deadlock for the caller, an error for nobody or a task let go, success for one that has finished; the first two change nothing |
| SchedSlots.DetachDecides | headers/sppc/async/sched.h:693-705 | detach is accepted exactly for a task in use, not the caller and not let go before, and changes nothing otherwise |
| SchedSlots.StaleHandlesRefused | headers/sppc/async/sched.h:142-190 | over any stretch of any run a handle is honoured exactly while its slot is in use and has been retired a multiple of 2047 times since |
| SchedSlots.HandleComesRound | headers/sppc/async/sched.h:142-190 | for every number of retirements there is a run that makes them, and a slot's first handle names its new task after those that are a multiple of 2047 |
| SchedSlots.StepAges | headers/sppc/async/sched.h:142-180 | one step retires a slot once at most, and only an allocation starts its next life |
| SchedSlots.RetiredOnce | headers/sppc/async/sched.h:172-180 | each allocation of a slot is retired once or not yet; the free list has no slot twice and `nslots = live + free` |
| SchedSlots.FinishWakesAll | headers/sppc/async/sched.h:269-278 | a finished task readies every task that awaits it |
| SchedSlots.LatestAwaiterFirst | headers/sppc/async/sched.h:669-674 | of those that await a task the latest parks ahead of all before it, and so is woken first |
| SchedSlots.SlotHeldForAwaiter | headers/sppc/async/sched.h:669-686 | no step retires a slot under an awaiter that has yet to collect it |
| SchedSlots.LastCollectorRetires | headers/sppc/async/sched.h:675-686 | of all the awaiters of a task exactly the last to collect hands the slot back |
| SchedSlots.LateAwaiter | headers/sppc/async/sched.h:659-686 | an await of a DONE task answers at once and retires it only if nobody is still to collect it |
| SchedSlots.UspTravels | headers/sppc/async/sched.h:90-99 | whichever task runs, the thread's unsafe stack pointer is the one that task last set |
| SchedLocks.WaitersCanRun | headers/sppc/async/sched.h:526-561 | a task queued on a thread lock is running or on the run queue, never parked |
| SchedLocks.QueuedOnlyWhileRetrying | headers/sppc/async/sched.h:539-561 | a task is queued exactly while it retries, and once |
| SchedLocks.QueueInOrder | headers/sppc/async/sched.h:489-504 | the queue keeps the order in which tasks came to wait, through every step; one that gets its lock or gives up leaves it |
| SchedLocks.ReleaseRunsOldest | headers/sppc/async/sched.h:506-524 | a release, of any lock once, runs the longest waiter of that lock next whether or not it leaves the lock held; the releaser is at the tail and all others keep their order |
| SchedLocks.OldestTakesLock | headers/sppc/async/sched.h:506-583 | before any other task of the thread can try, that waiter's try succeeds exactly if it was the last hold, or if it is for a recursive mutex the thread still has or to read what others still read; it then has the lock, held as often as before, and has left the queue |
| SchedLocks.ExclusiveUntilReleased | headers/sppc/async/sched.h:526-561 | in every run, from a task's taking a mutex, spin lock or write lock until it gives it up itself, no task and no other thread takes it in any way |
| SchedLocks.ChangesHandsFree | headers/sppc/async/sched.h:526-583 | no step passes a lock from one holder to another: between two it is nobody's |
| SchedLocks.ExclusiveStays | headers/sppc/async/sched.h:526-583 | one that a task or another thread has for itself is let go of only by its holder, and taken by nobody till then |
| SchedLocks.ElsewhereHeld | headers/sppc/async/sched.h:526-583 | nothing but what is about locks changes who holds one |
| SchedLocks.RecursiveLetsBothIn | headers/sppc/platform/windows.h:883-914 | a run from the start in which one task of a thread has a recursive mutex and another, queued for it while a different thread had it, takes it too |
| SchedLocks.ReleaseUncontended | headers/sppc/async/sched.h:514-524 | without a waiter on the lock a release changes nothing else |
| Mutex.StepKeeps | headers/sppc/platform/windows.h:845-919 | every atomic step of lock, timed lock, trylock and unlock keeps the mutex's invariant |
| Mutex.MutualExclusion | headers/sppc/platform/windows.h:789-919 | at most one thread has the mutex; `owner` is that thread or 0; `state` is 0 exactly when nobody has it; `count` is how often its holder took it |
| Mutex.TakenOnlyWhenFree | headers/sppc/platform/windows.h:865-919 | it is taken only when free, by the thread that steps, and given up only by its holder |
| Mutex.OwnerTestsExact | headers/sppc/platform/windows.h:847-853 | EDEADLK, recursion, EAGAIN and EPERM are answered exactly by who holds it, though the owner is read without the lock |
| Mutex.AnswersTell | headers/sppc/platform/windows.h:845-919 | every answer tells its caller how often it has the mutex, and is what POSIX has it be: EDEADLK exactly to the holder of an error-checking mutex, once more exactly to that of a recursive one up to the count's limit, EBUSY to a try only, ETIMEDOUT to a lock with a deadline only, an unlock one hold less and EPERM exactly without one |
| Mutex.CallsRecorded | headers/sppc/platform/windows.h:845-919 | the call and the depth that the answers are told by are those of the thread's latest call |
| Mutex.TryExact | headers/sppc/platform/windows.h:883-894 | a try is refused exactly while somebody has the mutex, and a deadline found passed answers ETIMEDOUT |
| Mutex.LockAlone | headers/sppc/platform/windows.h:865-894 | wherever other threads are in their calls, a lock or a try left alone has a free mutex in four steps; a held one refuses the try, and the lock falls asleep with the mutex marked |
| Mutex.UnlockAlone | headers/sppc/platform/windows.h:909-919 | an unlock of the last hold left alone frees the mutex, and wakes one sleeper exactly if it was marked |
| Mutex.WokenAlone | headers/sppc/platform/windows.h:865-879 | a thread whose sleep ends tries again, and left alone has a mutex that is free |
| Mutex.NoneStuck | headers/sppc/platform/windows.h:865-919 | a thread in a call and not asleep can always go on |
| Mutex.NoLostWake | headers/sppc/platform/windows.h:865-919 | while any thread sleeps `state` is 2, a wake is on its way or a thread awake is about to exchange in 2, timeouts and spurious wakes included |
| Mutex.QuietMeansHeld | headers/sppc/platform/windows.h:865-919 | when every call has run as far as it can, a sleeper means a holder whose unlock will find 2 |
| Cond.StepKeeps | headers/sppc/platform/windows.h:977-1012 | every step of wait, signal and broadcast keeps the condition's invariant |
| Cond.WaitKeepsMutex | headers/sppc/platform/windows.h:995-1012 | a wait that gave the mutex up returns with it taken as often as before, never refused; one that could not give it up changes nothing |
| Cond.BroadcastMissesNobody | headers/sppc/platform/windows.h:984-988 | after a broadcast completes, no thread that noted `seq` before it is asleep at any point of any run from there |
| Cond.SignalReleases | headers/sppc/platform/windows.h:977-981 | a signal's wake releases exactly the thread asleep longest, and one that noted `seq` before it if any such sleeps |
| Cond.NotedBeforeStaysAwake | headers/sppc/platform/windows.h:999-1008 | a thread that noted `seq` before a signal and was not asleep at it does not fall asleep over it |
| Cond.WaitEnds | headers/sppc/platform/windows.h:995-1012 | a wait ends as late only where its deadline was found passed, and otherwise only once the sequence has moved on or an untimed sleep has ended |
| Cond.WaitAlone | headers/sppc/platform/windows.h:995-1012 | a wait left alone gives the mutex up once and sleeps behind all that are asleep |
| Cond.WakersAlone | headers/sppc/platform/windows.h:977-988 | a signal or broadcast left alone moves the sequence on, then wakes the one asleep longest or everybody |
| Cond.SleepsEnd | headers/sppc/platform/windows.h:999-1008 | a timed sleeper that wakes looks again, any other takes the mutex back; a deadline found passed answers ETIMEDOUT |
| Cond.MutexMoves | headers/sppc/platform/windows.h:865-919 | the mutex beside it is taken once more or given up once |
| RwLock.StepKeeps | headers/sppc/platform/windows.h:1064-1157 | every step of both locks, their tries and the unlock keeps the rwlock's invariant |
| RwLock.WriterAlone | headers/sppc/platform/windows.h:1037-1106 | a writer has the lock alone, `state` counts the readers and `writer` is the writer or 0 |
| RwLock.LocksTakenInTurn | headers/sppc/platform/windows.h:1064-1157 | a read lock is had only with no writer, a write lock only with nobody, each given up only by who has it |
| RwLock.RefusalsExact | headers/sppc/platform/windows.h:1083-1157 | EDEADLK exactly for the thread that writes, EPERM exactly for a thread with nothing |
| RwLock.AnswersTell | headers/sppc/platform/windows.h:1064-1157 | every answer tells its caller what it has: one read lock more or the write lock, all it had where it is refused, and how an unlock leaves it; EDEADLK and EBUSY are the writer's own, else EBUSY is a try's only and ETIMEDOUT a lock's with a deadline |
| RwLock.CallsRecorded | headers/sppc/platform/windows.h:1064-1157 | the call, and what the thread had in hand, that the answers are told by are those of its latest call |
| RwLock.ReadersShare | headers/sppc/platform/windows.h:1064-1072 | readers come first: one is let in while nobody writes, whoever reads or waits, and is told EBUSY or goes on to wait only while someone writes |
| RwLock.WriterTakes | headers/sppc/platform/windows.h:1075-1079 | the write lock is taken exactly where nobody has the lock |
| RwLock.ReadAlone | headers/sppc/platform/windows.h:1064-1095 | wherever other threads are, a read lock left alone is had in three steps unless someone writes; then a try is refused, and a lock asleep or refused to the writer |
| RwLock.WriteAlone | headers/sppc/platform/windows.h:1075-1111 | the write lock likewise, unless anybody has the lock |
| RwLock.UnlockAlone | headers/sppc/platform/windows.h:1145-1157 | an unlock left alone gives up the write lock or one read lock, and goes on to wake sleepers exactly where that leaves the lock free |
| RwLock.WakesAll | headers/sppc/platform/windows.h:1145-1157 | that wakes every sleeper |
| RwLock.SleepsEnd | headers/sppc/platform/windows.h:1083-1111 | a sleep that ends leads to another look, a deadline found passed to ETIMEDOUT |
| RwLock.NobodyStranded | headers/sppc/platform/windows.h:1083-1157 | a reader asleep means a writer holds it, a writer asleep on however old a count means `state != 0`, or all sleepers are about to be woken |
| RwLock.QuietMeansHeld | headers/sppc/platform/windows.h:1083-1157 | when every call has run as far as it can, somebody holds any lock slept on |
| Barrier.RoundsFill | headers/sppc/platform/windows.h:1205-1234 | the specification: rounds fill one after another with `count` entries each, one of them serial |
| Barrier.NobodyLeavesEarly | headers/sppc/platform/windows.h:1251-1270 | a departure from a round comes after its `count` entries, and one departure per round at most is serial |
| Barrier.NobodyLeft | headers/sppc/platform/windows.h:1251-1270 | those inside the round being filled are exactly those who entered it |
| BarrierWindows.StepKeeps | headers/sppc/platform/windows.h:1237-1270 | every step of the Windows wait and destroy keeps its invariant |
| BarrierWindows.RefinesBarrier | headers/sppc/platform/windows.h:1223-1270 | every run of the Windows barrier is a run of the specification |
| BarrierWindows.WaitAnswers | headers/sppc/platform/windows.h:1251-1270 | a wait returns where the specification lets its thread leave, and answers whether it is the serial one |
| BarrierWindows.NobodyReturnsEarly | headers/sppc/platform/windows.h:1251-1270 | in any run no wait returns before `count` threads have entered its round, and one return per round at most is serial |
| BarrierWindows.DestroyedUntouched | headers/sppc/platform/windows.h:1237-1248 | when destroy has returned success no thread reads or writes the barrier again |
| BarrierWindows.DestroyWaitsForReleased | headers/sppc/platform/windows.h:1242-1247 | while it waits it waits only for threads whose round has opened |
| BarrierWindows.NobodyStranded | headers/sppc/platform/windows.h:1242-1269 | a thread asleep in a wait or a destroy has a reason to be, or is about to be woken |
| BarrierWindows.BusyExact | headers/sppc/platform/windows.h:1237-1241 | a destroy is told EBUSY exactly where some thread has entered the round being filled |
| BarrierWindows.WaitAlone | headers/sppc/platform/windows.h:1251-1266 | a wait left alone is the last of its round, opens it and wakes all that sleep for it, or falls asleep, counted in, with one less to come |
| BarrierWindows.ReleasedReturns | headers/sppc/platform/windows.h:1264-1270 | one whose round has opened, left alone, returns, the last inside waking a destroy |
| BarrierWindows.DestroyWaits | headers/sppc/platform/windows.h:1242-1247 | a destroy sleeps exactly while anybody is inside, and is through at the look that finds nobody |
| BarrierWindows.DestroyAlone | headers/sppc/platform/windows.h:1237-1248 | with nobody in a wait it is through in four steps |
| BarrierWindows.SomeoneGoes | headers/sppc/platform/windows.h:1237-1270 | while any thread is in a call and not asleep, one of those can go on |
| BarrierDarwin.RefinesBarrier | headers/sppc/platform/darwin.h:288-333 | every run of the Darwin barrier is a run of the same specification |
| BarrierDarwin.WaitAnswers | headers/sppc/platform/darwin.h:316-333 | a wait returns where the specification lets its thread leave, and answers whether it is the serial one |
| BarrierDarwin.NobodyReturnsEarly | headers/sppc/platform/darwin.h:316-333 | in any run no wait returns before `count` threads have entered its round, and one return per round at most is serial |
| BarrierDarwin.NobodyStranded | headers/sppc/platform/darwin.h:316-333 | a thread asleep is so for the round being filled, or the thread with the mutex is about to wake it |
| BarrierDarwin.WaitEnters | headers/sppc/platform/darwin.h:316-320 | a wait left alone enters its round |
| BarrierDarwin.EnteredAlone | headers/sppc/platform/darwin.h:320-333 | there it falls asleep, or as the last opens the round, wakes all that sleep for it and returns |
| BarrierDarwin.ReleasedReturns | headers/sppc/platform/darwin.h:329-333 | one whose round has opened, awake and left alone, returns |
| BarrierDarwin.SomeoneGoes | headers/sppc/platform/darwin.h:316-333 | while any thread is in a wait and not asleep, one of those can go on |
| Console.Whole | headers/sppc/platform/windows.h:1969-1976 | the bytes that end in whole characters, found from the end, are all but what the stream's own segmentation leaves part-way |
| Console.Writer.Write | headers/sppc/platform/windows.h:2004-2033 | every byte of a write is taken; what is out plus what is pending is the stream, pending being what it ends part-way through; a failed put loses what was pending and answers -1 |
| Console.Writer.Put | headers/sppc/platform/windows.h:1980-1998 | nothing is put for no bytes; otherwise all the bytes, or a failure |
| Console.CutsDoNotMatter | headers/sppc/platform/windows.h:2000-2033 | however the same bytes were cut into writes the same is out and the same is pending, three bytes at most |
| Console.CharactersStayWhole | headers/sppc/platform/windows.h:2000-2033 | no put ends inside a well-formed character (sections 3 and 4 of RFC 3629) |
| Utf8.LenIsLeadingOnes | headers/sppc/platform/windows.h:1956-1964 | a lead byte's character has as many bytes as it has leading 1 bits, two to four; every other byte is one alone (section 3 of RFC 3629) |
| Utf8.TailJoin | headers/sppc/platform/windows.h:2000-2002 | what a stream ends part-way through is all that matters to what comes after |
| Utf8.TailFromLead | headers/sppc/platform/windows.h:1969-1976 | the last byte that is no continuation says what the stream ends part-way through |
| Utf8.CharacterIsOneUnit | headers/sppc/platform/windows.h:1955-1964 | a well-formed character is one unit wherever it stands |
| Utf8.WellFormedDecodes | headers/sppc/platform/windows.h:1955-1964 | the well-formed sequences are the encodings of characters, surrogate halves left out, each that of one (section 3 of RFC 3629) |
| Utf8.EncodedDecodes | headers/sppc/platform/windows.h:1955-1964 | and every character has its own |
| Iocp.Backend.Wait | headers/sppc/async/iocp.h:223-229 | an operation started counts as outstanding until its packet is taken |
| Iocp.Backend.SleepUntil | headers/sppc/async/iocp.h:232-242 | a sleeper goes behind those whose deadline is not later and ahead of the others, so the list stays sorted and first come first served among equals |
| Iocp.Backend.Arm | headers/sppc/async/iocp.h:115-129 | the timer is armed exactly if there is a packet and the system sets it and ties it, or has tied it; an armed timer goes off no earlier than asked and less than 100 ns, and the lag of setting it, later |
| Iocp.Backend.WaitTime | headers/sppc/async/iocp.h:134-145 | an unbounded wait with a sleeper queued is made only with the timer armed for no later than the earliest deadline, to the round-up; a bounded one never ends before it, but for the 49.7-day limit |
| Iocp.Backend.Collect | headers/sppc/async/iocp.h:147-160 | each finished operation is taken once, in order, and counted off, its task having none outstanding any more; the timer is disarmed exactly by its packet |
| Iocp.Backend.WakeDue | headers/sppc/async/iocp.h:162-170 | exactly the sleepers whose deadline has come are woken, earliest first |
| Iocp.Backend.Poll | headers/sppc/async/iocp.h:134-171 | a whole poll waits without bound only with the timer armed for no later than the earliest time there is to wake for, runs the finished operations' tasks and then exactly the sleepers due, and `inflight` stays operations plus sleepers |
| Iocp.SleepToRealTime | headers/sppc/async/iocp.h:264-269 | a sleep to a real-time instant is over at the first look that finds it reached, and each wait asked for is the time then left |
| IocpAttach.TiedToOne | headers/sppc/async/iocp.h:201-210 | whichever threads race to tie a handle, one at most asks the system, and one told it is its own keeps it for good |
| IocpAttach.AnswersExact | headers/sppc/async/iocp.h:201-210 | a call answers true exactly if the handle is tied to the caller's port, before or now; the first to find it nobody's asks the system, once |
| IocpAttach.PortTold | headers/sppc/async/iocp.h:201-210 | the thread it is tied to is on record, or about to be |
| Uring.Ring.Claim | headers/sppc/async/io_uring.h:143-158 | a claimed entry is never one the kernel still owns, across 32-bit wraparound; none is claimed exactly when as many waits were refused as the ring has entries |
| Uring.Ring.IoWait | headers/sppc/async/io_uring.h:213-226 | an accepted wait parks its task and has the kernel take the oldest entry not taken, its own exactly if no wait was refused before; refused, the task is not parked and its entry stays; the ring's books hold either way |
| Uring.Ring.OwnEntryTaken | headers/sppc/async/io_uring.h:213-226 | after any series of claims, waits, completions and polls: the entry the kernel took at an accepted wait is as many places before the wait's own as waits had been refused by then |
| Uring.Ring.TakenOnce | headers/sppc/async/io_uring.h:213-226 | an entry has been taken exactly if one wait, its own or a later one, had it taken; they are taken in order, and nothing is posted for one not taken |
| Uring.Ring.Poll | headers/sppc/async/io_uring.h:164-182 | every completion posted is consumed once, in order, making the task its entry names ready; each is left with its result, or with the last of several, and while no wait was refused none is named twice; `inflight` stays the entries taken and not reaped |
| Uring.Ring.KernelTakes | headers/sppc/async/io_uring.h:152-156 | what the kernel finds by the masked index and the array is the task of the oldest entry not taken |
| Uring.StrandsTask | headers/sppc/async/io_uring.h:213-226 | a wait refused and the next accepted: the first task's operation completes and makes it ready, and the second is parked with nothing outstanding |
| Bits.AndMask | headers/sppc/async/io_uring.h:152 | masking with a power of two less one is the remainder by it |
| Bits.ModThrough | headers/sppc/async/io_uring.h:143-158 | a power of two sees past the wrapping of the 32-bit word |
| Bits.SubWraps | headers/sppc/async/io_uring.h:149 | the wrapped difference of two indices is how far apart they are |
| Bits.Distinct | headers/sppc/async/io_uring.h:143-158 | indices less than a ring apart are different places of it |
| FdTable.Table.constructor | headers/sppc/platform/windows.h:1836-1861 | fds 0 to 2 of a table of 16 have a description for each standard handle there was memory for; the same one exactly for the same handle, with as many references as fds |
| FdTable.Table.Standard | headers/sppc/platform/windows.h:1847-1858 | one fd of them: an earlier fd's description of the same handle, retained, or a new one |
| FdTable.Table.Reserve | headers/sppc/platform/windows.h:1887-1899 | the table doubles until it has room, to its limit; every entry stays and the new ones are empty; refused exactly for want of memory |
| FdTable.DoubledLeast | headers/sppc/platform/windows.h:1887-1899 | the size it takes is the old one doubled, no oftener than needed |
| FdTable.Table.Set | headers/sppc/platform/windows.h:1905-1911 | an entry is replaced and the old one handed back; fds 0 to 2 stay the process's standard handles |
| FdTable.Table.Install | headers/sppc/platform/windows.h:1918-1939 | the lowest free fd from `lowest` up, or -1 exactly where every fd is taken or a larger table cannot be had |
| FdTable.InstalledLowest | headers/sppc/platform/windows.h:1913-1939 | no lower fd was free, and every other fd names what it did (POSIX.1-2017 System Interfaces, section 2.14) |
| FdShare.StandardInitial | headers/sppc/platform/windows.h:1836-1861 | the table so made is one that the counting below starts from |
| FdShare.StepKeeps | headers/sppc/platform/windows.h:1811-1939 | every step of every interleaving of look-up, use, open, dup, dup2 and close keeps the counts |
| FdShare.CountsExact | headers/sppc/platform/windows.h:1811-1824 | `refs` is the fds naming a description plus the calls holding it; its handle is closed once at most, open while that is positive and closed or being closed by one thread once it is 0 |
| FdShare.NeverUsedClosed | headers/sppc/platform/windows.h:1873-1884 | no call holds, retains or finds in the table a description whose handle was closed |
| FdShare.QuietMeansFds | headers/sppc/platform/windows.h:2306-2353 | with no call under way exactly the descriptions no fd names are closed |
| FdShare.PutsWhereTold | headers/sppc/platform/windows.h:1905-1939 | a put gives its description the fd named or the lowest free one, has what was there to let go of, and leaves every other fd alone; nothing changes exactly where every fd is taken, the fd is past the limit or a larger table was refused |
| FdShare.ChangedUnderLock | headers/sppc/platform/windows.h:2306-2353 | the table changes only under its lock with no look-up part-way |
| FdShare.TakeEmpties | headers/sppc/platform/windows.h:2306-2316 | a close empties its fd and no other, and has what that named to let go of |
| FdShare.LookUpGets | headers/sppc/platform/windows.h:1873-1884 | a look-up takes its reference on what its fd names at the time |
| FdShare.CloseAlone | headers/sppc/platform/windows.h:2306-2316 | a close with nobody in the way: its fd names nothing, every other what it did, and what it named has one reference less, its handle closed with the last |
| FdShare.CopyAlone | headers/sppc/platform/windows.h:2318-2353 | a dup or dup2 with nobody in the way: the fd it goes to names what the other does, and what it named has one reference less; onto itself or with no place for it nothing changes |
| FdShare.OpenAlone | headers/sppc/platform/windows.h:1918-1939 | a new description goes to the lowest free fd, or is closed where there is none |
| FdShare.UseAlone | headers/sppc/platform/windows.h:1873-1884 | a call on an fd leaves everything as it was |
| FdShare.SomeoneGoes | headers/sppc/platform/windows.h:1811-1939 | while any call is under way one that is can go on |
| Flags.ToOsFlags | headers/sppc/platform/shared.h:60-72 | the loop computes the greedy translation, refused exactly if a bit is left unclaimed |
| Flags.FromOsFlags | headers/sppc/platform/shared.h:75-86 | and its inverse drops what no entry names |
| Flags.ToOsValue | headers/sppc/platform/shared.h:37-46 | the first entry for a value, or a refusal |
| Flags.FromOsValue | headers/sppc/platform/shared.h:49-55 | the first entry for the platform's value, or the fallback |
| Flags.ToOsOpenFlags | headers/sppc/platform/posix.h:354-366 | the access mode looked up as a value, the rest as flags, refused if either is |
| Flags.FromOsOpenFlags | headers/sppc/platform/posix.h:368-378 | and back, the mode read from the platform's mode bits |
| Flags.RoundTrip | headers/sppc/platform/shared.h:57-86 | accepted flags come back as they went, for any table of disjoint or nested entries, compound first, each with a bit of its own |
| Flags.OthersDropped | headers/sppc/platform/shared.h:75-86 | bits of the platform's that no entry has make no difference on the way back |
| Flags.ValuesExact | headers/sppc/platform/shared.h:37-55 | a value goes to that of the first entry with it and is refused exactly without one, and comes back likewise or as the fallback |
| Flags.AcceptedIffUnion | headers/sppc/platform/shared.h:57-72 | flags are accepted exactly if they are a union of entries |
| Flags.OpenRoundTrip | headers/sppc/platform/posix.h:354-378 | accepted open flags, mode and all, come back as they went |
| Flags.OpenProper | headers/sppc/platform/posix.h:329-352 | sppc's open flags, those a platform has of them and in the order of the table, meet the conditions of the round trips exactly if the platform's values have a bit of their own each and overlap only where sppc's do |
| Flags.ModesExact | headers/sppc/platform/posix.h:354-376 | and the access modes exactly if the platform's values of them differ and share no bit with a flag |
| Flags.OpenFlagsRoundTrip | headers/sppc/platform/posix.h:354-378 | on every such platform opening accepts any mode but the fourth with any union of the flags it has, and all it accepts comes back as it went |
| Flags.LinuxOk | headers/sppc/types.h:264-283 | a platform with sppc's own bits and all its flags, as Linux on x86, is one |
| Stacks.StackCache.Alloc | headers/sppc/async/vmem.h:30-69 | the stack kept last if it is of this size, or one mapped afresh with its guard, clear of every other region; a failed mapping leaves nothing behind |
| Stacks.StackCache.Free | headers/sppc/async/vmem.h:84-94 | a freed stack is kept if there is room among kept ones of its size, and unmapped if not; all kept are of the recorded size |
| Stacks.StackCache.Unmap | headers/sppc/async/vmem.h:71-82 | what goes back to the kernel is exactly the region it mapped, guard included, once |
| Stacks.StackCache.Flush | headers/sppc/async/sched.h:758-760 | every cached stack goes back, each once |
| Stacks.StackCache.SetGuard | headers/sppc/async/vmem.h:96-104 | everything cached goes back before guards are switched; what is handed out stays as it was mapped, so what is mapped is right after it exactly if nothing is, or nothing was switched |
| Stacks.SwitchesUnderStack | headers/sppc/async/vmem.h:71-104 | a stack handed out and guards switched, on or off: it is mapped as before, and the region its unmapping would name is another, not mapped |
| TaskMemory.Memory.Async | headers/sppc/async.h:50-54 | a spawn's stacks are its task's alone and its environment is held; a failed one leaves no stack and discards the environment |
| TaskMemory.Memory.Finish | headers/sppc/async/sched.h:266-284 | a finished body's environment is released, and the task waits to have its stacks freed |
| TaskMemory.Memory.Reap | headers/sppc/async/sched.h:54-78 | every waiting task's stacks go back to the cache or the kernel, once, and nobody else's; the slots of those detached are free |
| TaskMemory.Memory.SwitchTo | headers/sppc/async/sched.h:80-105 | another task runs, and the stacks left to be freed are |
| TaskMemory.Memory.Detach | headers/sppc/async/sched.h:693-705 | a task is let go, a finished one's slot at once; nothing it holds changes hands |
| TaskMemory.Memory.Teardown | headers/sppc/async/sched.h:741-761 | every environment is released once and every stack unmapped once, but for the one it runs on; of a task with an unsafe stack too, that one is unmapped though in use, and it is spared exactly if there is none |
| TaskMemory.EndsInsideTask | headers/sppc/async/sched.h:741-761 | a runtime started, a task spawned with split stacks and switched to, and torn down from: the stack it runs on is mapped, its unsafe stack is not |
| MemoryRuns.MemoryConserved | headers/sppc/async/sched.h:53-379 | in every state of every run exactly the unfinished tasks hold stacks and an environment, no stack is held twice and those handed out are those held, and every environment handed over is one task's or has been released once |
| MemoryRuns.MoveConserves | headers/sppc/async/sched.h:53-379 | each step of the scheduler, with what it does to memory, keeps that |
| MemoryRuns.EveryStepMoves | headers/sppc/async/sched.h:330-379 | and each step has such a move, so that these are all the runs there are |
| MemoryCalls.Spawning | headers/sppc/async/sched.h:330-379 | the calls of a spawn make such a move, whether there is no slot, no stack or both |
| MemoryCalls.Finishing | headers/sppc/async/sched.h:257-301 | so do those of a task's end and of the switch that reaps it |
| MemoryCalls.Awaiting | headers/sppc/async/sched.h:659-675 | of an await, parking or not |
| MemoryCalls.Collects | headers/sppc/async/sched.h:675-686 | of its end |
| MemoryCalls.Detaching | headers/sppc/async/sched.h:693-705 | of a detach, whatever it answers |
| MemoryCalls.Continuing | headers/sppc/async/sched.h:80-105 | and of every other step, with the switch to the task it has run next |
| MemoryCalls.MappedConserved | headers/sppc/async/vmem.h:30-94 | so in every run what the kernel has mapped is the stacks of unfinished tasks and those in the cache, none overlapping, and the environments held are those handed over and not released |

## Left out

- SchedRuns.StepKeeps: detaches only tasks that nobody is still to collect; `SchedDetach` shows that it could not hold otherwise, and what happens.
- SchedHeap.GtRuntime.Spawn: both stacks are one answer of the allocator, and the fields for the closure, the entry point and the stacks are not on the linked task; they are `TaskMemory`'s.
- SchedDrain.DrainTerminates: waits that come back with nothing, as an interrupted `io_uring_enter` or a stale timer packet makes them, are let in but not bounded, as nothing in the source bounds them.
- Uring.Ring.KernelPosts: the kernel posts a completion only for an entry it took, once, and where the completion ring has room; overflow is the kernel's to keep.
- Console.Writer.Put: the conversion to UTF-16 and partial `WriteConsoleW` calls are one answer, success or failure.
- FdTable.Table.constructor: a table that there is no memory for is never there; every call then answers an error.
- SchedLocks.ReleaseRunsOldest: how often a lock is held is counted, but not which tasks hold it to read or recursively; a lock held by one task for itself is given up only by that task.
- Cond.BroadcastMissesNobody: takes `seq` as unbounded; a thread that slept through exactly 2^32 signals is not modelled.
- BarrierWindows.RefinesBarrier: takes `generation` as unbounded, as BarrierDarwin.RefinesBarrier takes `cycle`; a thread that stayed in one wait for 2^32 rounds is not modelled.
- BarrierWindows.DestroyedUntouched: takes every wait begun to have arrived when destroy is called and none to begin after, which POSIX demands of the caller.
- BarrierDarwin.RefinesBarrier: takes the system's mutex and condition calls to succeed on the objects it made.
- Mutex.MutualExclusion: a normal mutex is unlocked only by a thread that has it, and `RwLock.WriterAlone` has a read lock given up only by a thread that has one; the source checks neither, as glibc does not.
- Console.Writer.Write: bytes are put as bytes; the conversion to UTF-16 and partial `WriteConsoleW` calls are the system's, and after a failed put the stream is counted afresh.
- Iocp.Backend.WaitTime: deadlines lie strictly between the two markers, as `_gt_try_sleep` makes sure; the time from reading the clock to setting the timer is the argument `lag`.
- Flags.RoundTrip: a word of flags is the set of its bits, so nothing depends on its width.
- TaskMemory.Memory.Async: environments are taken to own their storage, as a task's must; `drop_captures` is the compiler's code and is not modelled.
- Concurrent protocols are step relations on values, as each step is one access by one of any number of threads; aliasing between different locks is not modelled.
- The retry loop for thread locks and the green condition wait appear as the operations they are made of (try, queue, pass, poll, give up), in any order the source allows and more; their clocks do not.
- Calls made before the runtime is started on a thread, which only answer an error.
- The assembly context switch, fibers and stack layouts: a switch is the change of `current` and of the unsafe stack pointer.
- Fibers on Windows have a cache of their own like the stack cache, which is not modelled apart.
- Console input, file positions, non-blocking and append flags, sockets, paths, metadata, poll and memory mappings.
- Spin locks and `pthread_once`: one exchange and one system call.
- Crash reporting, error-number tables, the string and memory wrappers, and the binding generator.
