# Verified models of four operating-systems projects

This Dafny project models the cores of the four programs of the repository and proves what they
are for. The largest part is the resource manager library (`p3`): Dijkstra's banker's algorithm and
deadlock detection, run by threads that block on condition variables. The second part is the
multiprocessor scheduler simulation (`p2`) on its doubly linked ready queues. Two smaller parts are the
word counter (`p1`) and the page-table counter (`p4`).

`dafny verify dfyconfig.toml` checks the whole project.

## Layout

| file | contents |
|---|---|
| `collections.dfy` | facts about finite sets, bags and sequences |
| `vectors.dfy` | resource vectors and matrices, column sums |
| `banker.dfy` | the reduction argument shared by safety and detection: servable orders, stuck sets, grants |
| `protocol.dfy` | the resource manager as a state machine, runs, the invariant |
| `invariant.dfy` | the invariant holds on every run |
| `deadlock.dfy` | deadlock freedom, permanence and exactness of detection |
| `misuse.dfy` | what callers can break, and exactly when |
| `effects.dfy` | what each call does, field by field, and what a thread holds after any run |
| `avoidance.dfy` | what the avoid argument decides |
| `monitor.dfy` | the library calls on arrays and matrices, proved against `protocol.dfy` |
| `readyqueue.dfy` | the doubly linked queue with its marker, size and load |
| `scheduler.dfy`, `scheduler_theorems.dfy` | the scheduler as a state machine, and what holds on all its runs |
| `shortest.dfy` | shortest job first over whole runs |
| `dispatch.dfy` | the locked regions of `cpu` and `parse_and_enqueue` on the linked queues |
| `machine.dfy` | the whole scheduler on its linked queues, each region proved to be an action of `scheduler.dfy` |
| `wordorder.dfy`, `wordlist.dfy`, `topk.dfy` | reporting order, the word list, top-K and the merge of results |
| `pagetables.dfy` | counting page tables by prefixes |

## How the model relates to the programs

**Resource manager.** One action of the state machine is one stretch of a library call under the mutex,
from one wait to the next: `Claim`, `Request` (up to its first wait or its return), `Recheck` (from a
wake-up to the next wait or the return), `Release` and `SpuriousWake`. A thread is idle, asleep on its own
condition variable, or signalled there. In `monitor.dfy` the class `ResourceManager` keeps the arrays and
matrices of `rm.c`; a call that has to wait returns `Blocked`, and `Resume` is the rest of it. Every method
is proved to do exactly what the state machine says. The thread identity is a parameter.

The safety test and detection are specified without an algorithm. A set of threads is stuck when no member
can be served even if everybody outside returns everything; a thread is deadlocked when it belongs to some
stuck set. A ledger is safe when all threads can be served in some order. What the code tests is its own
reduction, which always takes the lowest index that fits; with nonnegative holdings that is the same.

The actions of a run keep the callers' obligations that `rm.c` documents or relies on: claims, requests and
releases are nonnegative, a thread claims while it holds nothing, the stock is nonnegative and `avoid` is 0
or 1. The library calls of `monitor.dfy` take what breaks them, as the code does; `misuse.dfy` proves exactly
when the invariant survives.
`rm_init`, `rm_thread_started`, `rm_claim` and `rm_detection` take no lock; each is assumed to run as one step.

**Scheduler.** One action is one stretch under a queue's mutex: an arrival, an end marker, a CPU taking a
burst, a CPU finishing or requeueing the burst in its hands, and a CPU leaving at the marker. Under
`LoadMethod` the machine lets an arrival go to any queue, because the program reads the loads without the
mutex; what the scan itself computes is proved in `dispatch.dfy`. The first exit test of the CPU loop
(`p2/22002379-22003430/sched.c:35-38`) reads the head of the queue without the mutex too; the machine's exit
step stands for it, on the assumption that what it reads is the head at one moment. `machine.dfy` relates the
linked queues, the bursts in the CPUs' hands and the producer's counters to a reachable state of the machine,
and keeps as history what has arrived when and which CPU has finished it when.
The fields `executed` and `dispatches` of a burst are history that the program does not store. The quantum is
positive, a queue's load starts at 0, and a marker is enqueued once per queue.

**Word counter.** Words are sequences of characters, compared as `strcmp` does. Tokens are given, nonempty.
A list that is sorted is not empty: `sort` follows the first node's link without checking that there is one.

**Page tables.** Shifts and masks are written as quotients and remainders of nonnegative numbers. The
36-bit page number and its 9-bit indices are those of 4-level paging, section 4.5 of the Intel 64 and IA-32
Architectures Software Developer's Manual, Volume 3A.

## Where the code and its documentation differ

The model follows the code.

- With avoidance off, `rm_print_state` is documented to show all-zero demand and need
  (`p3/22002379-22003430/rm.c:481-482`), and `rm.h` calls `rm_claim` "only for avoidance". But `rm_request`
  checks the need in either mode (`rm.c:334-339`), so in either mode a request is refused exactly when it
  exceeds the claim, and a thread that never claims never holds anything:
  `DeadlockTheorems.RefusedIffBeyondClaim`, `UnclaimedIsRefused`, `UnclaimedHoldsNothing`. The input:
  `FreeInstanceRefused`.
- `rm_claim` is documented to come before any request; the code does not check that the caller holds
  nothing. That, and a nonnegative claim, is exactly what an accepted claim needs:
  `ProtocolInvariant.ClaimNeedsEmptyHands`. The input: `Misuse.SecondClaimDeadlocks`.
- `rm_init` is documented to reject negative values; it accepts negative counts, with which its loops do
  nothing, a negative stock, and any `avoid`. Nothing is ever overdrawn exactly when the stock is not negative
  and `avoid` is 0 or 1 or there are fewer than two threads or no instances: `Misuse.NeverOverdrawsIff`.
  The inputs: `InitAcceptsOverdraws`.
- Requests and releases are numbers of instances, but negative ones are not refused. A negative release takes
  what neither test has granted, and a negative request gives back without a signal:
  `Misuse.ReleaseKeepsInvariantIff`, `RequestKeepsInvariantIff`. The inputs: `NegativeReleaseOverdraws`,
  `NegativeRequestLosesWakeup`.
- The test for availability beside the safety test in `rm_request` is redundant:
  `DeadlockTheorems.SafeRequestIsAvailable`.
- `dequeue` is meant to refuse the marker, but its test (`p2/22002379-22003430/readyqueue.c:52`) negates the
  pid before comparing it and never fires. The model's `Dequeue` takes the head whatever it is; the CPUs
  check for the marker first.
- Merging the results of several files is not always the answer for all files together. It is exactly when
  each word of the right answer is among the top K of every file in which it occurs:
  `TopK.MergedRightIffNothingCut`. The input: `ShortResultsMislead`.

## Model

| member | source | states |
|---|---|---|
| Banker.ExtendOrder | p3/22002379-22003430/rm.c:129-143 | Serving any unfinished thread that fits, the lowest or another, keeps the order of service possible |
| Banker.OrderAvoidsStuck | p3/22002379-22003430/rm.c:129-143 | No possible order of service contains a member of a stuck set |
| Banker.DeadlockedIsLargestStuck | p3/22002379-22003430/rm.c:467-472 | The deadlocked threads are themselves a stuck set and contain every other stuck set |
| Banker.MaximalOrderLeavesDeadlocked | p3/22002379-22003430/rm.c:447-465 | Whatever order the reduction takes, the threads left when nobody fits are exactly the deadlocked ones |
| Banker.CompleteOrder | p3/22002379-22003430/rm.c:129-143 | No choice loses a solution: every possible order extends to one that serves all threads that are not deadlocked |
| Banker.SafeIffNoneDeadlocked | p3/22002379-22003430/rm.c:129-150 | Some order serves all N threads if and only if nobody is deadlocked |
| Banker.SafeIffNoStuckSet | p3/22002379-22003430/rm.c:129-150 | A ledger is safe if and only if its only stuck set is empty |
| Banker.EndOfGreedy | p3/22002379-22003430/rm.c:129-150 | In every ledger, negative holdings included, the reduction by lowest index has one outcome, and it tells whether all are served |
| Banker.PassesIffSafe | p3/22002379-22003430/rm.c:130-136 | With nonnegative holdings, taking the lowest index first never loses a solution: the test passes if and only if some order serves all |
| Banker.NegativeHoldingMisleads | p3/22002379-22003430/rm.c:129-150 | With a negative holding it can: a ledger with a possible order that the reduction misses |
| Banker.SafeImpliesFree | p3/22002379-22003430/rm.c:97-172 | With nonnegative needs, a safe ledger has nothing overdrawn |
| Banker.StuckAfterMoveOutside | p3/22002379-22003430/rm.c:366-370 | Moving resources between the free stock and a thread outside a set neither makes nor breaks its being stuck |
| Banker.GrantKeepsStuck | p3/22002379-22003430/rm.c:366-370 | A grant to anyone leaves every stuck set stuck |
| Banker.UndoneGrantIsSafe | p3/22002379-22003430/rm.c:407-411 | Returning any part of a holding, with the need rising by as much, keeps a safe ledger safe |
| Banker.WantsOfEmptyHanded | p3/22002379-22003430/rm.c:232-246 | What a thread holding nothing may claim, within the stock, does not affect safety |
| Banker.SomeoneFitsFree | p3/22002379-22003430/rm.c:129-136 | In a set that is not stuck, while the others hold nothing, somebody's want is covered by what is free |
| Banker.GrantToCoveredIsSafe | p3/22002379-22003430/rm.c:355-370 | Granting to a thread whose whole need is free keeps a safe ledger safe |
| Banker.StuckMonotoneInWants | p3/22002379-22003430/rm.c:334-352 | A set stuck on its requests is stuck on its needs, which are no smaller |
| ProtocolInvariant.InitialInvariant | p3/22002379-22003430/rm.c:265-307 | The state that rm_init leaves satisfies the invariant, which is that of the modes 0 and 1, if and only if the stock is nonnegative |
| ProtocolInvariant.PhasesInvariant | p3/22002379-22003430/rm.c:355-362 | Going to sleep with a false guard, and waking up at any time, keep the invariant |
| ProtocolInvariant.AllocationUnblocksNobody | p3/22002379-22003430/rm.c:360-375 | Allocating to one thread never makes another thread's guard true, so it needs no signal |
| ProtocolInvariant.AllocatedBooked | p3/22002379-22003430/rm.c:366-375 | An allocation, covered or not, keeps, per resource, available plus all allocations equal to the stock, and every thread's books |
| ProtocolInvariant.EnteredInvariant | p3/22002379-22003430/rm.c:333-352 | Recording a request that the need covers keeps the invariant |
| ProtocolInvariant.RecheckedInvariant | p3/22002379-22003430/rm.c:355-375 | Testing the guard and then allocating or sleeping keeps the invariant, safety included |
| ProtocolInvariant.ReleasedBooked | p3/22002379-22003430/rm.c:407-411 | A valid release keeps the stock and every thread's books |
| ProtocolInvariant.RunBooked | p3/22002379-22003430/rm.c:232-421 | In every mode, every run keeps the stock and every thread's books |
| ProtocolInvariant.ReleaseUndoesGrant | p3/22002379-22003430/rm.c:407-411 | A release, whole or partial, is undone by granting the same amount, and is itself a grant of the negated amount |
| ProtocolInvariant.ReleasedInvariant | p3/22002379-22003430/rm.c:395-421 | rm_release keeps the invariant, safety included |
| ProtocolInvariant.ClaimIsInvisible | p3/22002379-22003430/rm.c:232-246 | A claim by a thread holding nothing changes no safety test, in either direction |
| ProtocolInvariant.ClaimUnblocksNobody | p3/22002379-22003430/rm.c:240-243 | A claim never makes a waiting thread's guard true |
| ProtocolInvariant.ClaimedInvariant | p3/22002379-22003430/rm.c:232-246 | rm_claim by a thread holding nothing keeps the invariant, even late in a run |
| ProtocolInvariant.ClaimNeedsEmptyHands | p3/22002379-22003430/rm.c:219-246 | An accepted claim keeps the invariant if and only if it is nonnegative and the caller holds nothing |
| ProtocolInvariant.StepInvariant | p3/22002379-22003430/rm.c:232-421 | Every action of every thread keeps conservation, the books, safety under avoidance and no lost wake-up |
| ProtocolInvariant.RunInvariant | p3/22002379-22003430/rm.c:232-421 | Every run keeps the invariant |
| ProtocolInvariant.ReachableInvariant | p3/22002379-22003430/rm.c:232-421 | In every reachable state nothing is created or lost, need plus allocation is the demand, the state is safe under avoidance, and every sleeping thread's guard is false although only rm_release signals |
| DeadlockTheorems.CoveredThread | p3/22002379-22003430/rm.c:355-370 | Under avoidance, among threads against which the others hold nothing, one has its whole need free and passes its guard |
| DeadlockTheorems.SafeRequestIsAvailable | p3/22002379-22003430/rm.c:359-362 | A request that passes the reduction of is_state_safe also passes is_available |
| DeadlockTheorems.SleepersWaitForHolder | p3/22002379-22003430/rm.c:329-421 | Deadlock freedom: under avoidance, whenever threads sleep, some other thread that is not among them holds resources |
| DeadlockTheorems.AvoidanceExcludesDeadlock | p3/22002379-22003430/rm.c:430-474 | Under avoidance the set that rm_detection counts is empty |
| DeadlockTheorems.StuckIsBlocked | p3/22002379-22003430/rm.c:355-357 | A stuck thread is inside rm_request and asks for more than is available |
| DeadlockTheorems.StepKeepsStuck | p3/22002379-22003430/rm.c:329-421 | No action of any thread, in either mode, breaks up a stuck set |
| DeadlockTheorems.StepKeepsRequests | p3/22002379-22003430/rm.c:349-375 | No action changes the request of a member of a stuck set |
| DeadlockTheorems.RunKeepsStuck | p3/22002379-22003430/rm.c:329-421 | No run breaks up a stuck set |
| DeadlockTheorems.DeadlockIsPermanent | p3/22002379-22003430/rm.c:430-474 | Along every run the deadlocked threads stay deadlocked, so the reported number never falls |
| DeadlockTheorems.RunnableThread | p3/22002379-22003430/rm.c:355-370 | If not all active threads are deadlocked, one that is not passes its guard now, with no wake-up missing |
| DeadlockTheorems.SleepersAreDeadlocked | p3/22002379-22003430/rm.c:355-421 | No lost wake-up: when nobody is on the way back from a wait and idle threads hold nothing, the sleeping threads are exactly the deadlocked ones |
| DeadlockTheorems.ServeAndRelease | p3/22002379-22003430/rm.c:355-421 | A thread whose guard holds can be granted its request and return everything, without touching the others |
| DeadlockTheorems.ServedKeepsDeadlocked | p3/22002379-22003430/rm.c:430-474 | When a thread has returned everything, exactly the same threads are deadlocked as before |
| DeadlockTheorems.AllOthersCanFinish | p3/22002379-22003430/rm.c:355-421 | From every state some run, with no new request and no spurious wake-up, finishes all threads except the deadlocked ones |
| DeadlockTheorems.DetectedIffNeverServed | p3/22002379-22003430/rm.c:423-474 | Detection is exact: a thread is deadlocked if and only if on no continuation its request ever returns |
| DeadlockTheorems.AvoidanceCanAlwaysFinish | p3/22002379-22003430/rm.c:309-327 | Under avoidance every state of the invariant can be run down to one where no thread waits or holds anything |
| DeadlockTheorems.CoverableThread | p3/22002379-22003430/rm.c:355-357 | With avoidance off, if not all active threads are stuck on their needs, one that is not has its whole need free and passes its guard |
| DeadlockTheorems.DrainOthers | p3/22002379-22003430/rm.c:355-421 | With avoidance off, some run finishes all threads that are not stuck on their needs and leaves the others stuck |
| DeadlockTheorems.PutAllToSleep | p3/22002379-22003430/rm.c:349-357 | Cornered threads can all be put to sleep: woken ones go back to sleep or are granted, and who then asks for its whole need sleeps |
| DeadlockTheorems.UnsafeCanDeadlock | p3/22002379-22003430/rm.c:318-322 | Why avoidance refuses: every unsafe state can be driven, without a further claim, into one where all threads that could not be served are deadlocked |
| DeadlockTheorems.RefusedIffBeyondClaim | p3/22002379-22003430/rm.c:333-347 | In either mode a request is refused if and only if, with what is held, it exceeds the claim |
| DeadlockTheorems.UnclaimedIsRefused | p3/22002379-22003430/rm.c:333-347 | A thread without a claim is refused if and only if it asks for something, also with avoidance off |
| DeadlockTheorems.FreeInstanceRefused | p3/22002379-22003430/rm.c:309-347 | With avoidance off, a reachable state in which the only thread is refused the only, free instance |
| DeadlockTheorems.UnclaimedHoldsNothing | p3/22002379-22003430/rm.c:334-339 | On every run, in either mode, a thread that makes no claim of its own never holds anything |
| Misuse.FewCannotOverdraw | p3/22002379-22003430/rm.c:232-246 | With fewer than two threads, or nothing in stock, right books alone keep the stock from being overdrawn |
| Misuse.OtherModeOverdraws | p3/22002379-22003430/rm.c:355-370 | In a mode other than 0 and 1 both wait loops are skipped: with two threads and something in stock, a run that gives the same instances to both |
| Misuse.NeverOverdrawsIff | p3/22002379-22003430/rm.c:248-370 | Nothing is ever overdrawn, on any run, if and only if the stock is nonnegative and the mode is 0 or 1, or there are fewer than two threads, or nothing is in stock |
| Misuse.InitAcceptsOverdraws | p3/22002379-22003430/rm.c:260-284 | Two settings that rm_init accepts and that overdraw: the stock {-1}, and mode 2 with two threads and one instance |
| Misuse.SecondClaimDeadlocks | p3/22002379-22003430/rm.c:219-246 | Under avoidance the only thread, which holds the only instance, claims it again, asks for it again, and is deadlocked |
| Misuse.ReleaseKeepsInvariantIff | p3/22002379-22003430/rm.c:395-421 | An accepted release, negative entries included, keeps the invariant if and only if what it takes would be granted as a request |
| Misuse.NegativeReleaseOverdraws | p3/22002379-22003430/rm.c:399-411 | Releasing -1 takes an instance that another thread has |
| Misuse.RequestKeepsBooksIff | p3/22002379-22003430/rm.c:333-375 | An accepted request keeps the books if and only if it is nonnegative, or is granted without making a holding negative |
| Misuse.RequestKeepsInvariantIff | p3/22002379-22003430/rm.c:333-375 | It keeps the whole invariant if and only if it is nonnegative, or is granted so and nobody who sleeps could proceed then |
| Misuse.NegativeRequestLosesWakeup | p3/22002379-22003430/rm.c:355-378 | Requesting -1 gives an instance back without a signal, and the thread that sleeps for it sleeps on |
| Effects.InitialEffect | p3/22002379-22003430/rm.c:265-307 | The mode is avoid, the stock is all available, nothing is claimed, held or asked for, and nobody waits |
| Effects.ClaimEffect | p3/22002379-22003430/rm.c:232-246 | A claim above the stock changes nothing; any other replaces demand and need of its thread and nothing else |
| Effects.RefusalMeans | p3/22002379-22003430/rm.c:333-347 | A request is refused if and only if some entry exceeds the need or the stock |
| Effects.GuardMeans | p3/22002379-22003430/rm.c:354-362 | With avoidance off a request passes if and only if it is available, with avoidance on if and only if the state with it granted is safe |
| Effects.RecheckEffect | p3/22002379-22003430/rm.c:354-375 | A pass moves exactly what was asked for and clears the request, or changes nothing but that the thread sleeps |
| Effects.RequestEffect | p3/22002379-22003430/rm.c:329-379 | A refused request changes nothing; a granted one moves exactly what was asked for; else the request is recorded and the thread sleeps |
| Effects.ReleaseEffect | p3/22002379-22003430/rm.c:395-421 | A refused release changes nothing; an accepted one moves exactly what is given back and wakes exactly the sleepers |
| Effects.HoldingsAddUp | p3/22002379-22003430/rm.c:329-421 | After any run a thread holds the sum of the requests that returned to it less its accepted releases |
| Avoidance.DeadlockTakesTwo | p3/22002379-22003430/rm.c:430-474 | Deadlock takes two threads and two instances |
| Avoidance.TwoCanDeadlock | p3/22002379-22003430/rm.c:253-258 | With avoidance off, two threads and two instances, some run deadlocks |
| Avoidance.CanDeadlockIff | p3/22002379-22003430/rm.c:253-258 | Some run deadlocks if and only if avoidance is off and there are two threads and two instances |
| Monitor.RowAtMost | p3/22002379-22003430/rm.c:79-86 | arrLessThan is true if and only if no entry of the row exceeds the other array |
| Monitor.FirstFit | p3/22002379-22003430/rm.c:130-137 | The scan finds the lowest unfinished thread that fits, or reports that none does |
| Monitor.Reduce | p3/22002379-22003430/rm.c:129-143 | The loop ends within N rounds; it leaves nobody unfinished if and only if the reduction serves all, and else, with nonnegative holdings, exactly the deadlocked threads |
| Monitor.SignalAll | p3/22002379-22003430/rm.c:414-416 | Every sleeper is woken and nobody else changes |
| Monitor.ResourceManager.Init | p3/22002379-22003430/rm.c:265-307 | Refuses too many threads or types, or live threads, and then changes nothing; else sets mode, counts, stock, zero matrices and idle threads; valid if and only if the stock is nonnegative and the mode is 0 or 1, and then able to deadlock if and only if avoid is 0 and there are two threads and two instances |
| Monitor.ResourceManager.ThreadStarted | p3/22002379-22003430/rm.c:186-190 | Counts one more live thread, records its handle under its id and returns 0 |
| Monitor.ResourceManager.GetTid | p3/22002379-22003430/rm.c:40-45 | The first id with the handle, or -1; with distinct handles the id under which the thread was started |
| Monitor.ResourceManager.IsAvailable | p3/22002379-22003430/rm.c:165-172 | True if and only if no entry of the request exceeds what is available |
| Monitor.ResourceManager.IsStateSafe | p3/22002379-22003430/rm.c:97-163 | True if and only if, with the request granted, the reduction serves all threads, which with nonnegative holdings is safety; the matrices end as they began |
| Monitor.ResourceManager.Claim | p3/22002379-22003430/rm.c:232-246 | Refuses a claim above the stock and changes nothing; else sets demand and need of the caller and nothing else, and keeps the invariant if and only if the claim is nonnegative and the caller holds nothing |
| Monitor.ResourceManager.Attempt | p3/22002379-22003430/rm.c:354-375 | One pass through the wait loops: allocates if and only if the mode's guard holds, else sleeps |
| Monitor.ResourceManager.Allocate | p3/22002379-22003430/rm.c:366-375 | Moves exactly the request from available and need to the allocation, and clears it |
| Monitor.ResourceManager.Request | p3/22002379-22003430/rm.c:329-379 | Error, return or wait, each exactly when the code says; an error changes nothing, a return moves exactly the request, a wait records it; nonnegative requests keep the invariant |
| Monitor.ResourceManager.Resume | p3/22002379-22003430/rm.c:355-379 | After a wake-up the guard is tested again: return with exactly the request moved, or wait with nothing changed |
| Monitor.ResourceManager.Release | p3/22002379-22003430/rm.c:395-421 | Refuses to release more than is held and changes nothing; else moves exactly the release back, raises the need and wakes exactly the sleepers; keeps the invariant if and only if what it takes would be granted as a request |
| Monitor.ResourceManager.Detection | p3/22002379-22003430/rm.c:430-474 | Returns the size of the largest stuck set of pending requests, 0 without live threads, and 0 under avoidance |
| ReadyQueue.LoadJoined | p2/22002379-22003430/readyqueue.c:12-13 | The load of a queue grows by the length of the burst that joins, wherever it is put |
| ReadyQueue.LoadWithout | p2/22002379-22003430/readyqueue.c:108-109 | The load falls by the length of the burst that leaves, wherever it was |
| ReadyQueue.Queue.Link | p2/22002379-22003430/readyqueue.c:15-45 | The four cases of enqueue hook the node in before a trailing marker, else at the end, with all links right |
| ReadyQueue.Queue.Enqueue | p2/22002379-22003430/readyqueue.c:5-46 | The burst joins the sequence before a trailing marker, else at the end; links, size and load agree and the marker stays last |
| ReadyQueue.Queue.Dequeue | p2/22002379-22003430/readyqueue.c:48-77 | Takes the head of the sequence, or null; links, size and load agree |
| ReadyQueue.Queue.UnlinkBehind | p2/22002379-22003430/readyqueue.c:99-106 | Unhooking a node behind the head removes just it from the sequence, with all links and the tail right |
| ReadyQueue.Queue.DequeueAt | p2/22002379-22003430/readyqueue.c:79-114 | Removes the first burst with the pid and leaves the others in order, or changes nothing |
| ReadyQueue.SwapSettles | p2/22002379-22003430/readyqueue.c:125-130 | Swapping a smaller pid forward keeps the settled places settled |
| ReadyQueue.Queue.Pass | p2/22002379-22003430/readyqueue.c:121-132 | One pass of the inner loop settles one more place and only reorders |
| ReadyQueue.Queue.Sort | p2/22002379-22003430/readyqueue.c:116-133 | The same bursts in nondecreasing order of pid, with links, size and load intact |
| SchedulerTheorems.StepCopies | p2/22002379-22003430/sched.c:58-223 | Only an arrival creates a burst; every other action keeps the number of copies of every pid over queues, CPUs and finished queue |
| SchedulerTheorems.StepKeepsBursts | p2/22002379-22003430/sched.c:58-223 | Every action keeps each created burst in exactly one place |
| SchedulerTheorems.StepKeepsLines | p2/22002379-22003430/sched.c:181-195 | Every action keeps the marker last and alone in its queue, and executed plus remaining time equal to the length |
| SchedulerTheorems.StepKeepsHands | p2/22002379-22003430/sched.c:66-164 | The accounting also holds for the bursts in the CPUs' hands |
| SchedulerTheorems.StepKeepsFinished | p2/22002379-22003430/sched.c:197-219 | A finished burst has run its whole length in exactly the rounds due |
| SchedulerTheorems.StepLeavesNoneBehind | p2/22002379-22003430/sched.c:58-63 | A queue whose CPUs have all left holds nothing but the marker, even if a burst came back after other CPUs had left |
| SchedulerTheorems.StepInvariant | p2/22002379-22003430/sched.c:47-223 | Every action of the producer and of every CPU keeps the invariant |
| SchedulerTheorems.ReachableInvariant | p2/22002379-22003430/sched.c:30-223 | The invariant holds in every reachable state, for every algorithm, selection and number of CPUs |
| SchedulerTheorems.LinePidsAreDistinct | p2/22002379-22003430/sched.c:119 | No two bursts in a queue share a pid, so dequeue_at removes the burst that the SJF scan chose |
| SchedulerTheorems.StepProgress | p2/22002379-22003430/sched.c:161-223 | Every CPU action reduces the actions still due by exactly one |
| SchedulerTheorems.CpuRunsAreExact | p2/22002379-22003430/sched.c:161-223 | Once arrivals stop, a run has exactly as many actions as the due actions it has worked off |
| SchedulerTheorems.ShortestExists | p2/22002379-22003430/sched.c:107-117 | A queue whose head is not the marker has an earliest shortest burst |
| SchedulerTheorems.CpusNeverStarve | p2/22002379-22003430/sched.c:47-63 | With all markers in, a CPU that has not left always has an action to take |
| SchedulerTheorems.ExitedMeansDrained | p2/22002379-22003430/sched.c:289-301 | When all CPUs have left, every queue is exactly the marker and every created burst is finished, once |
| SchedulerTheorems.RisingPidsAreAll | p2/22002379-22003430/sched.c:303 | A line in pid order that holds each of 1..n once is 1, 2, ..., n |
| SchedulerTheorems.FinalReport | p2/22002379-22003430/sched.c:303-331 | Put into pid order, the finished bursts are 1, ..., n, each run to completion; Machine.SchedProps.Report supplies the order |
| SchedulerTheorems.EveryMaximalRunDrains | p2/22002379-22003430/sched.c:277-301 | Every run that the CPUs cannot continue has drained the system, after exactly the due number of actions |
| SchedulerTheorems.RoundsAreCeiling | p2/22002379-22003430/sched.c:181-203 | Round robin dispatches a burst ceil(length / Q) times and at least once; the others dispatch it once |
| SchedulerTheorems.ReachableDealsInTurn | p2/22002379-22003430/sched.c:418-430 | Under the round method the next queue is always (nextPid - 1) modulo the number of queues |
| SchedulerTheorems.ReachableInTurnPlaces | p2/22002379-22003430/sched.c:418-430 | Under the round method burst p is only ever in queue (p - 1) mod n and in the hands of a CPU of that queue |
| SchedulerTheorems.StepKeepsTurn | p2/22002379-22003430/sched.c:66-69 | Except under SJF, a dispatch moves everybody in its queue up by one place, and arrivals, requeues and markers move nobody |
| SchedulerTheorems.TurnsComeInOrder | p2/22002379-22003430/sched.c:161-195 | After d dispatches from its queue a burst has exactly d fewer ahead of it, whatever happens in between |
| SchedulerTheorems.DispatchedInTurn | p2/22002379-22003430/sched.c:161-195 | A burst with k ahead of it is the one dispatched after exactly k further dispatches from its queue |
| ShortestFirst.LineHasNotRun | p2/22002379-22003430/sched.c:105-137 | Under SJF a burst in line has its whole length remaining |
| ShortestFirst.ShortestDispatchedFirst | p2/22002379-22003430/sched.c:105-120 | Under SJF, once nothing arrives any more, each queue's bursts are dispatched in order of length, however many CPUs serve it |
| ShortestFirst.AheadUntilDispatched | p2/22002379-22003430/sched.c:105-120 | Under SJF a burst that is ahead of one no shorter stays ahead of it until it is dispatched, whatever arrives |
| ShortestFirst.NotOvertaken | p2/22002379-22003430/sched.c:107-117 | Under SJF, of two equal bursts in a queue the one further ahead is dispatched first |
| ShortestFirst.FinishedAsDispatched | p2/22002379-22003430/sched.c:119-155 | One CPU finishes the bursts in the order in which it takes them |
| ShortestFirst.ShortestFinishedFirst | p2/22002379-22003430/sched.c:105-155 | Under SJF, once nothing arrives any more, one CPU finishes the bursts in order of length |
| Dispatch.LineFollows | p2/22002379-22003430/readyqueue.c:5-114 | Joining and leaving the linked queue are the steps that the state machine takes |
| Dispatch.FindShortest | p2/22002379-22003430/sched.c:107-117 | The scan finds the earliest burst of least remaining time and never the marker |
| Dispatch.TakeShortest | p2/22002379-22003430/sched.c:107-120 | The scan and dequeue_at together remove the earliest burst of least remaining time and keep the others in order |
| Dispatch.TakeNext | p2/22002379-22003430/sched.c:58-120 | A CPU leaves at the marker; else it removes the burst that its algorithm names and leaves the others in order |
| Dispatch.Run | p2/22002379-22003430/sched.c:161-220 | The burst runs as the algorithm says and is then requeued or finished, with its times recorded |
| Dispatch.EnqueueAt | p2/22002379-22003430/sched.c:426-428 | Enqueueing in one queue leaves all the others as they are |
| Dispatch.TakeAt | p2/22002379-22003430/sched.c:58-120 | A CPU taking from one queue leaves all the others as they are |
| Dispatch.LeastLoaded | p2/22002379-22003430/sched.c:433-443 | The scan finds the first queue of least load |
| Dispatch.Producer.Select | p2/22002379-22003430/sched.c:417-457 | The queue that the selection method names |
| Dispatch.Producer.Arrive | p2/22002379-22003430/sched.c:404-430 | A new burst with the next pid joins the selected queue, and the turn advances under the round method only |
| Dispatch.MarkAll | p2/22002379-22003430/sched.c:473-487 | Every queue gets exactly one marker at its end |
| Machine.ReachableStep | p2/22002379-22003430/sched.c:30-223 | An action from a reachable state leads to a reachable state |
| Machine.InHandNotInLine | p2/22002379-22003430/sched.c:68-70 | A burst in a CPU's hands is in no queue |
| Machine.InOneHand | p2/22002379-22003430/sched.c:68-70 | No burst is in the hands of two CPUs |
| Machine.SameOrder | p2/22002379-22003430/readyqueue.c:116-133 | Reordering the items of a queue reorders the bursts they stand for |
| Machine.SchedProps.constructor | p2/22002379-22003430/sched.c:237-265 | The queues that schedule creates are empty, all CPUs are at work with free hands, and this is the initial state of the machine |
| Machine.SchedProps.Turn | p2/22002379-22003430/sched.c:47-120 | On the linked queues, CPU c leaves at the marker, or takes into its hands what its algorithm names from its own queue, or finds nothing and changes nothing; exactly the machine's step of CPU c |
| Machine.SchedProps.Finish | p2/22002379-22003430/sched.c:161-220 | CPU c runs its burst for a quantum or to the end and requeues or finishes it; a finished burst carries c, the time now and the turnaround; exactly the machine's step |
| Machine.SchedProps.Arrive | p2/22002379-22003430/sched.c:404-457 | A PL line puts a new burst with the next pid, its length and arrival time into the selected queue; exactly the machine's arrival |
| Machine.SchedProps.Mark | p2/22002379-22003430/sched.c:473-487 | On the linked queues, one round of the marker loop is exactly the machine's step |
| Machine.SchedProps.Report | p2/22002379-22003430/sched.c:277-331 | When all CPUs have left, each ready queue is one marker, and the report is the finished bursts, pids 1, ..., n, each with its length, arrival, CPU, finish and turnaround; under the round method with a queue per CPU, burst p was run by CPU (p - 1) mod N |
| WordOrder.StrCmpZero | p1/22002379-22003430/list.c:7-18 | The comparison is zero for equal words only |
| WordOrder.StrCmpIsDictionary | p1/22002379-22003430/list.c:54-61 | The comparison is negative if and only if the first word is a proper beginning of the second or has the smaller character at their first difference |
| WordOrder.BeforeTransitive | p1/22002379-22003430/list.c:54-61 | The reporting order, falling frequency and then dictionary order, is transitive |
| WordOrder.BeforeTotal | p1/22002379-22003430/list.c:54-61 | Two different entries are always ordered |
| WordOrder.InsertedCounts | p1/22002379-22003430/list.c:4-33 | Inserting adds to the count of one word, keeps every other count, and never lists a word twice |
| WordOrder.RankingIsUnique | p1/22002379-22003430/topk.c:3-29 | The words of a bag have only one ranking by falling frequency, then rising word |
| WordOrder.RankingExists | p1/22002379-22003430/topk.c:3-29 | The words of every bag have a ranking |
| WordOrder.SameStart | p1/22002379-22003430/threadtopk.c:117-131 | Undercounting only pushes words down: two rankings agree as far as the words of the larger bag are counted in full |
| WordList.List.Walk | p1/22002379-22003430/list.c:6-10 | The walk stops in front of the word, or at the last node if the word is not listed |
| WordList.List.Insert | p1/22002379-22003430/list.c:4-33 | Adds to the word's frequency in place, or appends the word |
| WordList.List.Swap | p1/22002379-22003430/list.c:35-43 | Exchanges the contents of two nodes and no links |
| WordList.SwapSettles | p1/22002379-22003430/list.c:54-61 | Swapping an earlier entry forward keeps the settled places settled |
| WordList.List.CompareAndSwap | p1/22002379-22003430/list.c:54-61 | The comparison swaps exactly when the later entry belongs first |
| WordList.List.Pass | p1/22002379-22003430/list.c:52-62 | One pass of the inner loop settles one more place and only reorders |
| WordList.List.Sort | p1/22002379-22003430/list.c:45-64 | The same entries in reporting order, in the same nodes |
| TopK.InsertedTallies | p1/22002379-22003430/list.c:4-33 | A table that counts a bag of words counts the larger bag after an insertion |
| TopK.RearrangedTallies | p1/22002379-22003430/list.c:45-64 | Sorting does not change what a table counts |
| TopK.TalliesTotal | p1/22002379-22003430/list.c:4-33 | The frequencies of a table that counts a bag add up to its size |
| TopK.AllTokensCounted | p1/22002379-22003430/threadtopk.c:70-80 | The frequencies of a table that counts the tokens of a file add up to the number of tokens |
| TopK.SettledTableRanks | p1/22002379-22003430/list.c:45-64 | A sorted table with distinct words is the ranking of what it counts |
| TopK.FirstEntries | p1/22002379-22003430/topk.c:17-27 | The result loop returns the first min(K, distinct) entries |
| TopK.TopKIsReport | p1/22002379-22003430/topk.c:3-29 | The answer said word by word: min(K, distinct) words with their counts, each more frequent than, or as frequent and in the dictionary before, all that come later or not at all |
| TopK.TopKFrequent | p1/22002379-22003430/topk.c:3-29 | Sorts in place and returns the report of what the list counts: by falling frequency and then dictionary order |
| TopK.TopKIsUnique | p1/22002379-22003430/topk.c:3-29 | The answer depends only on the words and their multiplicities, not on the order of the tokens |
| TopK.Worker | p1/22002379-22003430/threadtopk.c:69-84 | A file's result is the top-K of its tokens |
| TopK.MergeOne | p1/22002379-22003430/threadtopk.c:124-127 | Inserting one result adds its counts |
| TopK.TokensConcat | p1/22002379-22003430/threadtopk.c:108-131 | The tokens of all files are the tokens of some and of the others |
| TopK.Merge | p1/22002379-22003430/threadtopk.c:117-131 | The merged answer is the top-K of the results' counts added up |
| TopK.BagOfRanking | p1/22002379-22003430/threadtopk.c:82-84 | A shortened ranking counts the words it lists in full and the others not at all |
| TopK.ResultCounts | p1/22002379-22003430/threadtopk.c:82-84 | A file's result never overstates a count, and is complete if and only if the file has at most K different words |
| TopK.MergedCounts | p1/22002379-22003430/threadtopk.c:117-128 | Merging never overstates a word's total, and counts all words in full if and only if no file has more than K different words |
| TopK.MergedCount | p1/22002379-22003430/threadtopk.c:117-128 | The merged count of a word is never above its total, and equal to it if and only if every file that has the word has it among its top K |
| TopK.SamePrefix | p1/22002379-22003430/threadtopk.c:117-131 | A bag and a larger one have the same top K if and only if the smaller counts the top K of the larger in full |
| TopK.MergedRightIffNothingCut | p1/22002379-22003430/threadtopk.c:117-131 | The merged answer is the top-K of all files together if and only if each word of the latter is among the top K of every file in which it occurs |
| TopK.MergedIsTopKOfAll | p1/22002379-22003430/threadtopk.c:117-131 | In particular the merged answer is right if no file has more than K different words |
| TopK.OneFileIsRight | p1/22002379-22003430/threadtopk.c:117-131 | In particular the merged answer of one file is right, whatever K |
| TopK.TopKOfFiles | p1/22002379-22003430/threadtopk.c:108-131 | A result per file, merged; the answer is right if and only if no word of the right answer is cut from a file that has it |
| TopK.ShortResultsMislead | p1/22002379-22003430/threadtopk.c:117-131 | For the files ZZA and YYA and K = 1 the merged answer is Y, which is not the most frequent word of both together |
| PageTables.SwapIsInvolution | p4/22002379-22003430-22001849/mem_utils.c:456-457 | The level-4 slot swaps two indices, stays below 2^27 and can be read back |
| PageTables.SlotsAreDistinct | p4/22002379-22003430-22001849/mem_utils.c:446-457 | Different prefixes have different slots within each table |
| PageTables.IndicesArePrefixes | p4/22002379-22003430-22001849/mem_utils.c:440-457 | The slots that the program computes are those of the 9-, 18- and 27-bit prefixes of the 36-bit page number |
| PageTables.MarkedRecords | p4/22002379-22003430-22001849/mem_utils.c:446-459 | Marking a page's slot records exactly the pages seen so far and this one |
| PageTables.Mark | p4/22002379-22003430-22001849/mem_utils.c:446-459 | A new prefix is recorded and counted, a known one is not |
| PageTables.AllTableSize | p4/22002379-22003430-22001849/mem_utils.c:407-461 | The counts are the numbers of distinct 9-, 18- and 27-bit prefixes of the covered pages |
| PageTables.CoveredBySome | p4/22002379-22003430-22001849/mem_utils.c:431-439 | A page counts as covered if and only if some interval covers it |
| PageTables.CountsIgnoreOrder | p4/22002379-22003430-22001849/mem_utils.c:431-461 | The counts depend neither on the order of the intervals nor on repetitions |
| PageTables.ParentPrefixes | p4/22002379-22003430-22001849/mem_utils.c:440-443 | The prefixes of a level are those of the next level without their last 9 bits |
| PageTables.AtMost512Each | p4/22002379-22003430-22001849/mem_utils.c:407-411 | A table has at most 512 tables below it |
| PageTables.LevelsGrow | p4/22002379-22003430-22001849/mem_utils.c:407-411 | Each level has at least as many tables as the level above and at most 512 times as many, and level 2 at most 512 |
| PageTables.TablesOfOneInterval | p4/22002379-22003430-22001849/mem_utils.c:431-461 | One interval needs, per level, as many tables as 2 MiB, 1 GiB or 512 GiB regions it touches |

## Left out

- C integer widths and overflow: numbers are unbounded, and `int` counts are assumed to fit.
- Memory: `malloc` and `free`, and the state after the last thread has ended and the matrices are freed.
- `rm_thread_ended`; threads are assumed to start before any ends. The calls take the thread id that `get_tid` finds as a parameter.
- Monitor.ResourceManager.Init: the arrays for a negative number of threads or resource types are empty; what `malloc` makes of a negative size is not modelled.
- `rm_print_state` and its printers.
- Monitor.Reduce: `is_state_safe` and `rm_detection` each contain this loop; the model has it once.
- Monitor.ResourceManager.Request: the C function is one call that waits inside; here it returns at the wait and `Resume` continues it.
- Thread creation, sleeping, wall-clock times and the random generator of the scheduler: arrival times and burst lengths are inputs.
- The whole `cpu` loop as one method: its locked regions are the methods `Turn` and `Finish` of `Machine.SchedProps`, and any interleaving of them is a run.
- Parsing of the input file of the scheduler, and `sched_random`, whose least-load scan compares a size with a load; the drain theorems hold for any choice of queue.
- `schedule` does not initialise the load of a queue; the model starts it at 0.
- `threadtopk.c` does not initialise the link of the dummy head of a word list (lines 60-62 and 118-120); the model starts it at null.
- `sched_cv.c`, the variant with condition variables.
- The forked variant of the word counter, file reading, tokenising and upper-casing; the `len` field of a word.
- Dispatch.TakeNext: the distinctness of the pids in a queue is a precondition here; `Machine.SchedProps.Turn` has it from the reachable state.
- Reading `/proc`, printing, and the other functions of `mem_utils.c`.
