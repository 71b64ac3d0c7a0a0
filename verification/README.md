# SparrowOS kernels and companions, verified

The repository is a set of teaching labs. This project models the parts with the most state and arithmetic and proves
what they are for:

* the **process scheduler** of lab 3-2 (FIFO, RR, four-level MLFQ over intrusive doubly linked queues, timer ticks with
  preemption, priority boost),
* the **heap allocator** of lab 3-1 (best fit, splitting, coalescing, accounting, realloc) on a byte array,
* the **shared-memory RPC protocol** of lab 4-2, as interleaved reads and writes,
* the **sleep queue** of the kernel scheduler of lab 3-2,
* the **number printers and the bounded formatter** of lab 3-1, **trial division** of lab 1-2, and the **MQTT packet
  builders** of lab 5-2.

`dafny verify dfyconfig.toml` checks everything.

## How the files fit together

| file | content |
|---|---|
| Scheduling | the scheduler as a step machine over values: create, tick, yield, schedule, terminate |
| SchedulerInvariant | the invariant of every run: partition of the processes, unique PIDs |
| SchedulerFairness | bounded waiting |
| SchedulerAccounting | rotation of the ready queue, conservation of CPU time |
| SchedulerLaws | what every call does, as numbers and queue contents; how long a slice lasts; when a boost comes |
| ProcessTable | the linked queues through the process table; each call refines a step of the machine |
| SchedulerAsWritten | the text taken literally, and exactly when it keeps its queues |
| HeapModel | blocks, best fit, merging, the invariant and its consequences over runs |
| HeapLaws | what kmalloc, kfree and krealloc leave behind; round trips |
| HeapMemory | block headers in bytes and what writes do to them |
| Allocator | the allocator on a byte array; each call refines the heap model |
| AllocatorRuns | runs with writes of the owners in between |
| Rpc | client and server threads, one shared read or write a step |
| Sleeping, SleepTimes | the sleep queue in place, and wake-up times over runs |
| SleepService | the order of service, arrivals and charged ticks of the kernel scheduler |
| Waiting, SleepScheduler | the linked wait queue; the kernel scheduler around both linked queues, each call refines a step |
| Numerals, Printing | digits and what they denote; print_dec, print_hex, vsnprintf |
| Primality | is_prime |
| Mqtt | the wire format of MQTT 3.1.1 and the two builders |
| Common, Rotation, Bytes | sequences, remainders, turning a sequence, little-endian words |

## What is modelled differently from the text

Scheduler (`lab3-2-sparrowos-scheduler/src/scheduler.c`):

* `SCHFQ_MLFQ` at line 176 is read as `SCHED_MLFQ`.
* A dispatched process is removed from its queue once. The text dequeues it (219-228, 271-282), inserts the running
  process (189, or 245 under round robin when that is marked ready) and unlinks the dispatched one again (197);
  `DispatchAsWritten` says exactly when that is harmless.
* A yielding process is inserted once. The text inserts it at 126, dequeues, and inserts it again at 189 (and at 245
  under round robin) unless it was dequeued itself; `YieldAsWritten` says exactly when that is harmless.
* Ending a process that is not queued (103) leaves the queues alone; the text unlinks it from a queue it is not in. The
  same holds for ending PID 0, which matches an unused slot. `TerminateAsWritten` says exactly when that is harmless.
* A current process that is dispatched again runs with a fresh slice; the text skips 193-197 for it.
* Line 78 overwrites the quantum that 237 stores, so the slice of a round-robin process is the one of line 78.
* Process pointers are table slots and NULL is -1. Queues 0 to 3 are those of the MLFQ, queue 4 is `ready_queue`.
* Demotion is declared (25) and has no body, so it is not modelled.

Allocator (`lab3-1-sparrowos-memory-module/src/memory.c`):

* One block header with size, magic, used and next, as in `lab3-1-sparrowos-memory-module/docs/theory.md:207-212`. The
  two structs of `lab3-1-sparrowos-memory-module/src/memory.h:34-47` place `size` at different offsets, and `kfree` reads
  it after `add_to_free_list` has reused the word. The sizes stay those of the text: 24 header bytes before the next
  block's place, user pointer 16 bytes into the block.
* The rest at line 86 is computed over integers; `SplitAsWritten` says exactly when the unsigned subtraction agrees.
* An allocation too tight to split records the requested size only (244); the bytes given up are counted as lost.
* The counters are integers; `FreeCounter` says when the unsigned one has wrapped.
* The integrity check at line 408 expects used + free = total. No reachable state satisfies that: by `HeapSafety` the sum
  falls short by 24 bytes for every block.

RPC (`lab4-2-user-interrupt/examples/rpc_framework.c`): sequential consistency; `ready` and `processed` are read in two
steps; one client at a time per slot, as at 200-202. Integers are unbounded, since overflow is undefined in C. The mutex
(85, 99) is taken by one thread only and has no effect.

Kernel scheduler (`lab3-2-sparrowos-scheduler/kernel/core/scheduler.c`): the queue helpers declared at
`lab3-2-sparrowos-scheduler/src/pcb.h:309-331` are not part of this model as code; enqueueing is appending at the tail and
dequeueing is taking the head. Whether a tick reschedules is a parameter. The policies are RR and FIFO: under MLFQ the
removal from the ready queue is an empty stub (660-663). The idle process has a slot like any other: it
is created into the ready queue and made current as well (102-119), dispatched when nobody is ready (315-317), and it can
be terminated. Terminated processes stay in the sleep and wait queues, as the text has it; `TerminatedRunsAgain` says
exactly when a terminated process runs again.

Printing (`lab3-1-sparrowos-memory-module/kernel/print.c`): a C string is the sequence of its characters up to the NUL;
variadic arguments are a sequence of typed values and must match the directives, as C requires. The kernel's own messages
use `%llu`, which the formatter does not know; `UnsignedLongLongIgnored` says what it prints instead.

MQTT (`lab5-2-iot-sensor-rtos/src/mqtt_client.c`): the keep-alive time is 60. The wire format is written down from
sections 2.2.3, 3.1 and 3.3 of MQTT 3.1.1 as an encoder and a strict decoder, and `FormatRoundTrip` shows that the decoder
recovers every well-formed packet, so that the statements about the builders have an independent reference. Strings are
bytes; that they are UTF-8 is not part of this model.

## Model

| member | source | states |
|---|---|---|
| ProcessTable.AppendKeeps | lab3-2-sparrowos-scheduler/src/scheduler.c:343-375 | Linking an unqueued process behind the tail of its queue gives that queue plus the process; every other queue keeps its links, order and count |
| ProcessTable.TakeKeeps | lab3-2-sparrowos-scheduler/src/scheduler.c:219-228 | Dequeuing the head leaves the rest of that queue correctly linked, its count right, and the other queues untouched, although the removed head keeps its stale links |
| ProcessTable.CutKeeps | lab3-2-sparrowos-scheduler/src/scheduler.c:377-418 | Unlinking a process anywhere in its queue joins its neighbours, corrects head, tail and count, and leaves the other queues alone |
| ProcessTable.MoveKeeps | lab3-2-sparrowos-scheduler/src/scheduler.c:299-325 | One round of a boost keeps all queues linked up to one exception: the last link of level 0 now points at the new head of the source queue |
| ProcessTable.Scheduler.AddToReadyQueue | lab3-2-sparrowos-scheduler/src/scheduler.c:343-375 | The linked table moves exactly as the model's insertion at the tail of the process's queue |
| ProcessTable.Scheduler.TakeHead | lab3-2-sparrowos-scheduler/src/scheduler.c:219-230 | Removes and returns the head of a nonempty queue, changing nothing else in the abstract state |
| ProcessTable.Scheduler.RemoveFromReadyQueue | lab3-2-sparrowos-scheduler/src/scheduler.c:377-418 | Takes exactly the given process out of its queue, order of the others kept |
| ProcessTable.Scheduler.MoveOne | lab3-2-sparrowos-scheduler/src/scheduler.c:299-325 | Moves the head of a lower level behind level 0 while level 0 may end in a link into that level |
| ProcessTable.Scheduler.DrainLevel | lab3-2-sparrowos-scheduler/src/scheduler.c:298-328 | The inner boost loop ends with level 0 extended by the whole level in order, that level empty, the dangling link gone, every moved process promoted once |
| ProcessTable.Scheduler.BoostPriority | lab3-2-sparrowos-scheduler/src/scheduler.c:293-330 | Level 0 becomes q0 ++ q1 ++ q2 ++ q3, levels 1 to 3 are empty, links and counts are right, exactly the moved processes are promoted |
| ProcessTable.Scheduler.PickNext | lab3-2-sparrowos-scheduler/src/scheduler.c:214-291 | Dequeues the head of the first nonempty level, or of the ready queue; under MLFQ hands it the slice of that level; NIL exactly when nobody is queued |
| ProcessTable.Scheduler.Reschedule | lab3-2-sparrowos-scheduler/src/scheduler.c:166-205 | A scheduling decision on the linked table is the model's Schedule |
| ProcessTable.Scheduler.SwitchTo | lab3-2-sparrowos-scheduler/src/scheduler.c:193-199 | The context switch: new current process, state, start time, cleared slice, counter |
| ProcessTable.Scheduler.YieldCpu | lab3-2-sparrowos-scheduler/src/scheduler.c:123-129 | The running process queues behind the others of its queue and the next one is dispatched |
| ProcessTable.Scheduler.TimerTick | lab3-2-sparrowos-scheduler/src/scheduler.c:137-163 | A tick charges the running process, preempts it when its slice is used up, and boosts when the interval has passed |
| ProcessTable.Scheduler.AgeAndBoost | lab3-2-sparrowos-scheduler/src/scheduler.c:152-161 | The MLFQ part of a tick: time in queue, and a boost with its time stamp when due |
| ProcessTable.Scheduler.FindFreePcb | lab3-2-sparrowos-scheduler/src/scheduler.c:333-341 | Finds the first slot that is terminated or unused, or NIL when there is none |
| ProcessTable.Scheduler.CreateProcess | lab3-2-sparrowos-scheduler/src/scheduler.c:59-94 | A new process gets a fresh PID, the first free slot, and the last place in its queue; a full table changes nothing |
| ProcessTable.Scheduler.TerminateProcess | lab3-2-sparrowos-scheduler/src/scheduler.c:97-120 | Ends the first live process with the PID; ending the running one dispatches another; an unknown PID changes nothing |
| ProcessTable.Scheduler.EndProcess | lab3-2-sparrowos-scheduler/src/scheduler.c:102-106 | The slot is terminated and out of its queue, its CPU time moves into the statistics |
| ProcessTable.Scheduler.Apply | lab3-2-sparrowos-scheduler/src/scheduler.c:59-205 | Refinement: each call of the interface on the linked table is one step of the machine, and the invariant survives it |
| ProcessTable.Scheduler.ApplyAll | lab3-2-sparrowos-scheduler/src/scheduler.c:59-205 | Refinement over whole runs: after any sequence of calls the linked queues hold what the step machine says, links and counts intact |
| ProcessTable.Scheduler.constructor | lab3-2-sparrowos-scheduler/src/scheduler.c:28-56 | scheduler_init: empty queues, no process, and the invariant holds |
| SchedulerAsWritten.StaleRemoval | lab3-2-sparrowos-scheduler/src/scheduler.c:377-418 | The second removal, of a process that is in no queue but keeps its old next link: harmless if and only if its queue is empty by then |
| SchedulerAsWritten.BeforeRemoval | lab3-2-sparrowos-scheduler/src/scheduler.c:166-196 | Up to the second removal, dequeue and insertion of the running process leave the intended queues |
| SchedulerAsWritten.DispatchAsWritten | lab3-2-sparrowos-scheduler/src/scheduler.c:166-231 | scheduler_schedule as written (dequeue, insertion of the running process, second removal) ends with the intended queues if and only if nobody is dispatched, or the dispatched process was alone in its queue and no running process goes into that queue; with one ready queue: never while a process runs |
| SchedulerAsWritten.RunningProcessLost | lab3-2-sparrowos-scheduler/src/scheduler.c:185-197 | If the running process goes behind the only entry of its queue, it ends marked ready while its queue has no head, no tail and count 0: it is lost |
| SchedulerAsWritten.YieldAsWritten | lab3-2-sparrowos-scheduler/src/scheduler.c:123-248 | scheduler_yield as written (insertion, dequeue, insertion again) ends with well-linked queues if and only if the yielding process is dispatched itself, that is nobody waits at its level or before it; with the intended queues if moreover the policy is not round robin, which leaves the running process queued |
| SchedulerAsWritten.YieldTies | lab3-2-sparrowos-scheduler/src/scheduler.c:123-248 | In every other case the yielding process is its own successor and no sequence of processes is what the queue holds |
| SchedulerAsWritten.EndUnqueuedAsWritten | lab3-2-sparrowos-scheduler/src/scheduler.c:97-103 | The removal of a process that is not queued (the running one, or the unused slot PID 0 matches) empties the header of its queue: harmless if and only if that queue was empty |
| SchedulerAsWritten.TerminateAsWritten | lab3-2-sparrowos-scheduler/src/scheduler.c:97-120 | scheduler_terminate_process as written, the dispatch at 114 included, ends with the intended queues and running process if and only if nobody or a queued process ends, or one whose queue is empty and, if it was running, the dispatch is harmless. With two or more waiting at the level of the running process and nobody before it, the dispatch meets a count without a head: under MLFQ a write through NULL, otherwise nobody runs and the queue is lost |
| SchedulerAsWritten.EndBeforeOthers | lab3-2-sparrowos-scheduler/src/scheduler.c:97-120 | The running process ends while others wait at its level: never as intended |
| SchedulerAsWritten.EndingInput | lab3-2-sparrowos-scheduler/src/scheduler.c:97-120 | The input, reached by create, schedule, create, create: ending the running process meets a count without a head |
| SchedulerAsWritten.FailingInput | lab3-2-sparrowos-scheduler/src/scheduler.c:123-205 | The input, reached by create, schedule, create: one process runs and one is ready; scheduling loses the running one, yielding ties it to itself |
| Scheduling.FirstFree | lab3-2-sparrowos-scheduler/src/scheduler.c:333-341 | The first free slot: free, none before it free; None only if no slot is free |
| Scheduling.FirstMatch | lab3-2-sparrowos-scheduler/src/scheduler.c:97-100 | The first live slot with the PID: it matches, none before it does; None only if none matches |
| SchedulerInvariant.InvInit | lab3-2-sparrowos-scheduler/src/scheduler.c:28-56 | The invariant holds initially |
| SchedulerInvariant.InvSchedule | lab3-2-sparrowos-scheduler/src/scheduler.c:166-205 | Dispatching keeps the invariant |
| SchedulerInvariant.InvYield | lab3-2-sparrowos-scheduler/src/scheduler.c:123-129 | Yielding keeps the invariant |
| SchedulerInvariant.InvBoost | lab3-2-sparrowos-scheduler/src/scheduler.c:293-330 | A boost keeps the invariant: promoted processes change queue and priority together |
| SchedulerInvariant.InvTick | lab3-2-sparrowos-scheduler/src/scheduler.c:137-163 | A tick keeps the invariant through charge, preemption, dispatch and boost |
| SchedulerInvariant.InvCreate | lab3-2-sparrowos-scheduler/src/scheduler.c:59-94 | Creating keeps the invariant: the PID is fresh, the reused slot was in no queue |
| SchedulerInvariant.InvTerminate | lab3-2-sparrowos-scheduler/src/scheduler.c:97-120 | Ending a process keeps the invariant, whether it was running or queued |
| SchedulerInvariant.InvStep | lab3-2-sparrowos-scheduler/src/scheduler.c:59-205 | Every step keeps the invariant |
| SchedulerInvariant.InvRun | lab3-2-sparrowos-scheduler/src/scheduler.c:59-205 | Every run keeps the invariant |
| SchedulerInvariant.InvPartition | lab3-2-sparrowos-scheduler/src/scheduler.c:59-205 | The invariant implies the partition below and unique PIDs |
| SchedulerInvariant.RunsKeepPartition | lab3-2-sparrowos-scheduler/src/scheduler.c:59-205 | In every reachable state each live process is either running or in exactly one queue, once, the one of its priority; others are in none; live PIDs are distinct, positive and below next_pid |
| SchedulerFairness.ScheduleServesFront | lab3-2-sparrowos-scheduler/src/scheduler.c:214-291 | Dispatching serves the front queue: the process at its head runs, one at position k > 0 moves to k - 1 and then waits at most k quanta |
| SchedulerFairness.FrontSlice | lab3-2-sparrowos-scheduler/src/scheduler.c:78-284 | A process dispatched from the front queue has at most one quantum: 10 ticks at level 0, 40 in the ready queue |
| SchedulerFairness.StepCloser | lab3-2-sparrowos-scheduler/src/scheduler.c:59-205 | Every step, creations, yields and terminations of others included, dispatches the waiting process or does not increase its remaining wait; a tick decreases it |
| SchedulerFairness.FrontWaitEnds | lab3-2-sparrowos-scheduler/src/scheduler.c:137-205 | Waiting in the front queue ends within the rest of the running slice plus one quantum for each process ahead |
| SchedulerFairness.LevelZeroWait | lab3-2-sparrowos-scheduler/src/scheduler.c:137-163 | With preemption, a process at position k of level 0 is dispatched within 80 + 10k ticks |
| SchedulerFairness.ReadyQueueWait | lab3-2-sparrowos-scheduler/src/scheduler.c:123-163 | With preemption, a process at position k of the ready queue is dispatched within 40(k + 1) ticks |
| SchedulerFairness.BoostReaches | lab3-2-sparrowos-scheduler/src/scheduler.c:293-330 | A boost brings a process of any level into level 0 |
| SchedulerFairness.AnyLevelWait | lab3-2-sparrowos-scheduler/src/scheduler.c:137-163 | With preemption and boost interval B >= 1, a process queued at any level is dispatched within B + 80 + 10m ticks, m being the number of processes queued at the next boost |
| SchedulerFairness.AtMost63Wait | lab3-2-sparrowos-scheduler/src/scheduler.c:11 | The table bounds the number of waiting processes by 63 while one runs |
| SchedulerFairness.AtMost63AtBoost | lab3-2-sparrowos-scheduler/src/scheduler.c:152-161 | Hence at most 63 processes are queued at the next boost of any run |
| SchedulerFairness.AnyLevelWaitAbsolute | lab3-2-sparrowos-scheduler/src/scheduler.c:137-163 | Hence no process of any level waits more than B + 710 ticks: MLFQ starves nobody |
| SchedulerLaws.ScheduleLaw | lab3-2-sparrowos-scheduler/src/scheduler.c:166-291 | A scheduling decision passes the CPU to the head of the first nonempty queue (levels 0 to 3 in turn, or the ready queue), puts the running process behind its own queue, and changes nothing else; with nobody queued nothing happens |
| SchedulerLaws.YieldLaw | lab3-2-sparrowos-scheduler/src/scheduler.c:123-129 | Yielding does the same if somebody is queued at the own level or before it; otherwise the process goes on with a fresh slice |
| SchedulerLaws.TickIdle | lab3-2-sparrowos-scheduler/src/scheduler.c:137-140 | Without a running process a tick only advances the clock |
| SchedulerLaws.TickKeeps | lab3-2-sparrowos-scheduler/src/scheduler.c:137-163 | While the slice is not used up, or without preemption, the running process stays running and unqueued, one tick of its slice is gone, and nobody is switched to |
| SchedulerLaws.TickAlone | lab3-2-sparrowos-scheduler/src/scheduler.c:146-150 | A used up slice with nobody queued at the own level or before it starts again, without a switch |
| SchedulerLaws.TickPreempts | lab3-2-sparrowos-scheduler/src/scheduler.c:146-161 | A used up slice with somebody queued there passes the CPU to the head of the first such queue: one switch, an empty slice, the start time; a boost closes the tick exactly when the last one is a boost interval old |
| SchedulerLaws.CreateLaw | lab3-2-sparrowos-scheduler/src/scheduler.c:59-94 | A new process gets the first unused slot, the next PID, 10 ticks for each priority above 4, and the last place of its queue; nothing else changes |
| SchedulerLaws.CreateFull | lab3-2-sparrowos-scheduler/src/scheduler.c:59-65 | With no unused slot nothing changes |
| SchedulerLaws.TerminateLaw | lab3-2-sparrowos-scheduler/src/scheduler.c:97-120 | The first slot with the PID ends and leaves its queue, its time and the count of the completed are recorded; if it was running the CPU goes to the head of the first nonempty queue |
| SchedulerLaws.TerminateNobody | lab3-2-sparrowos-scheduler/src/scheduler.c:97-120 | A PID nobody has changes nothing |
| SchedulerLaws.HoldsCpu | lab3-2-sparrowos-scheduler/src/scheduler.c:137-163 | Over any run in which it neither yields nor is rescheduled nor ended, a process holds the CPU as long as its slice is not used up, without preemption forever, whatever arrives or ends |
| SchedulerLaws.SliceIsExact | lab3-2-sparrowos-scheduler/src/scheduler.c:146-149 | It loses the CPU exactly at the tick that uses the slice up, a slice of 0 lasting one tick, if and only if somebody is queued at its level or before it then |
| SchedulerLaws.SliceNumbers | lab3-2-sparrowos-scheduler/src/scheduler.c:78-284 | In every reachable state slices are numbers: 10 times (4 - priority) with one ready queue, and 10 times 2^level for the running process of a configured MLFQ level, 0 for the other levels |
| SchedulerLaws.FreshSlice | lab3-2-sparrowos-scheduler/src/scheduler.c:137-163 | So a process just dispatched holds the CPU for exactly that many ticks, one at least, if somebody is queued for its place then |
| SchedulerLaws.NoEarlyBoost | lab3-2-sparrowos-scheduler/src/scheduler.c:152-161 | Until a boost interval has passed since the last boost, no run promotes anybody or changes a level |
| Rotation.TurnedHead | lab3-2-sparrowos-scheduler/src/scheduler.c:214-248 | After d turns of a cycle of n the j-th place holds element (d + j) mod n |
| SchedulerAccounting.RunRotates | lab3-2-sparrowos-scheduler/src/scheduler.c:123-248 | With one ready queue and nobody arriving or leaving, running process and queue are the initial cycle turned once per context switch |
| SchedulerAccounting.RoundRobinRotates | lab3-2-sparrowos-scheduler/src/scheduler.c:123-248 | After d context switches the running process is number d mod n of the initial order, forever |
| SchedulerAccounting.StepCharges | lab3-2-sparrowos-scheduler/src/scheduler.c:97-163 | Only a tick with a running process adds CPU time, and exactly one tick; terminating moves time, losing none |
| SchedulerAccounting.RunCharges | lab3-2-sparrowos-scheduler/src/scheduler.c:97-163 | Over a run the recorded CPU time grows by exactly the busy ticks |
| SchedulerAccounting.CpuTimeConserved | lab3-2-sparrowos-scheduler/src/scheduler.c:97-163 | total_runtime plus the time_used of live processes equals the ticks taken with a current process, hence at most system_ticks; no process used more than its age |
| HeapModel.AlignUp | lab3-1-sparrowos-memory-module/src/memory.c:219 | Rounding up on 64-bit numbers gives a multiple of 8 that is large enough if and only if the size is at most 2^64 - 8; above, it wraps to 0 |
| HeapModel.BestFit | lab3-1-sparrowos-memory-module/src/memory.c:143-165 | A position of a smallest sufficient block, the first among equals; None only if no block suffices |
| HeapModel.SplitAsWritten | lab3-1-sparrowos-memory-module/src/memory.c:83-90 | The unsigned subtraction in the split test agrees with the intended test if and only if the block has room for another header; for tighter fits it wraps |
| HeapModel.ExactFitAsWritten | lab3-1-sparrowos-memory-module/src/memory.c:83-104 | The input: allocating the whole heap first. The text splits although nothing is left, the new header starts at the heap's end, and the counter is -40 where the intended one is -16 |
| HeapModel.HugeSizesWrap | lab3-1-sparrowos-memory-module/src/memory.c:219-234 | A size above 2^64 - 8 rounds up to 0: kmalloc succeeds if and only if any block is free, and the block has room for nothing |
| HeapModel.MergeCovers | lab3-1-sparrowos-memory-module/src/memory.c:109-138 | Coalescing covers exactly the same bytes |
| HeapModel.MergeSettles | lab3-1-sparrowos-memory-module/src/memory.c:109-138 | After coalescing no block ends where its list successor begins |
| HeapModel.CoalesceIdempotent | lab3-1-sparrowos-memory-module/src/memory.c:109-138 | A second pass changes nothing, counters included |
| HeapModel.InvCoalesce | lab3-1-sparrowos-memory-module/src/memory.c:109-138 | Coalescing keeps blocks apart, aligned, inside the heap and accounted for |
| HeapModel.InvCarve | lab3-1-sparrowos-memory-module/src/memory.c:237-251 | Splitting, unlinking and marking a block keeps the invariant, the bytes given up by an unsplit block being counted as lost |
| HeapModel.InvMalloc | lab3-1-sparrowos-memory-module/src/memory.c:212-257 | kmalloc keeps the invariant |
| HeapModel.InvFree | lab3-1-sparrowos-memory-module/src/memory.c:262-303 | kfree keeps the invariant |
| HeapModel.InvRealloc | lab3-1-sparrowos-memory-module/src/memory.c:323-356 | krealloc keeps the invariant |
| HeapModel.InvInit | lab3-1-sparrowos-memory-module/src/memory.c:43-78 | memory_init establishes the invariant |
| HeapModel.MallocComplete | lab3-1-sparrowos-memory-module/src/memory.c:212-234 | kmalloc returns NULL if and only if the size is 0 or no free block is large enough even after coalescing |
| HeapModel.MallocOptimal | lab3-1-sparrowos-memory-module/src/memory.c:143-165 | A success takes a smallest sufficient block of the list it searched, the uncoalesced one whenever that has a sufficient block |
| HeapModel.MallocWithin | lab3-1-sparrowos-memory-module/src/memory.c:212-257 | The block handed out lies within memory that was free |
| HeapModel.RunInv | lab3-1-sparrowos-memory-module/src/memory.c:212-356 | Every run of kmalloc, kfree and krealloc keeps the invariant and the heap's ends |
| HeapModel.HeapSafety | lab3-1-sparrowos-memory-module/src/memory.c:212-356 | In every run from memory_init, free and live blocks are pairwise disjoint, 8-aligned and inside the heap, used + free = total - 24 x blocks, and free + live + lost bytes = total |
| HeapModel.AllFreed | lab3-1-sparrowos-memory-module/src/memory.c:296-302 | Once everything is freed the free counter has its initial value if and only if one free block is left |
| HeapModel.FreeCounter | lab3-1-sparrowos-memory-module/src/memory.c:249-250 | The free counter is the free payload plus the lost bytes minus 16 per live block, hence negative if and only if the live headers outweigh the rest |
| HeapModel.FreeCounterUnderflows | lab3-1-sparrowos-memory-module/src/memory.c:249-250 | Three 8-byte allocations in a heap of 152 bytes, each splitting by the text's own test and losing nothing, leave the free counter at -16 |
| HeapModel.LiveUntilFreed | lab3-1-sparrowos-memory-module/src/memory.c:212-356 | A live block keeps address and size until its own pointer is freed or reallocated |
| HeapLaws.MergeCoalesced | lab3-1-sparrowos-memory-module/src/memory.c:109-138 | The coalesced list is the old one cut into runs of touching neighbours, each run one block, in the same order, and no neighbours touch any more |
| HeapLaws.FreeLaw | lab3-1-sparrowos-memory-module/src/memory.c:262-303 | kfree of a live block leaves a coalesced list of exactly the old free bytes and the block's, takes the block off the live ones, and counts: used memory less size + 16, free memory more by that and by 24 for each block joined away |
| HeapLaws.FreeUnknown | lab3-1-sparrowos-memory-module/src/memory.c:262-288 | Any other pointer changes nothing |
| HeapLaws.MallocLaw | lab3-1-sparrowos-memory-module/src/memory.c:212-257 | kmalloc takes the first of the smallest sufficient blocks, of the list as it stands or, if no block suffices, of the coalesced one; a remainder of 32 bytes or more behind its own header takes the block's place, anything less is lost; the counters follow |
| HeapLaws.MallocFails | lab3-1-sparrowos-memory-module/src/memory.c:223-234 | A failing kmalloc only coalesces, and then no block is large enough |
| HeapLaws.RoundTrip | lab3-1-sparrowos-memory-module/src/memory.c:212-303 | Freeing a block right after a splitting allocation restores a coalesced free list, and the free counter, if and only if the block was taken from the head of the list: the freed block becomes the head, and only list neighbours are joined |
| HeapLaws.FreshRoundTrip | lab3-1-sparrowos-memory-module/src/memory.c:43-303 | In a fresh heap an allocation and its free restore both counters, and the one free block if and only if the allocation split it or took all of it |
| HeapLaws.ReallocStays | lab3-1-sparrowos-memory-module/src/memory.c:323-340 | krealloc of a block that is large enough changes nothing and returns its pointer, size 0 frees, a null pointer allocates |
| HeapLaws.ReallocMoves | lab3-1-sparrowos-memory-module/src/memory.c:342-355 | A block that is too small stays live and nothing but coalescing happens when there is no room; otherwise the new block, free before, becomes the first live one, the old one's bytes are free in a coalesced list, and both calls are counted |
| HeapLaws.LiveCounted | lab3-1-sparrowos-memory-module/src/memory.c:212-356 | In every run from memory_init the allocations are the frees plus the live blocks |
| HeapMemory.ListJoin | lab3-1-sparrowos-memory-module/src/memory.c:121-129 | Joining two list neighbours in the first one's header leaves a well-formed list in memory |
| HeapMemory.ListUnlink | lab3-1-sparrowos-memory-module/src/memory.c:187-194 | Writing the predecessor's next unlinks exactly one block |
| HeapMemory.ListPush | lab3-1-sparrowos-memory-module/src/memory.c:170-175 | Pushing a block apart from the list gives a well-formed list |
| HeapMemory.ListSplit | lab3-1-sparrowos-memory-module/src/memory.c:92-100 | The header writes of a split turn the list into the split list, the new header lying inside the old block |
| HeapMemory.UserWrite | lab3-1-sparrowos-memory-module/src/memory.c:254-256 | Any write inside the user's bytes of a live block leaves the free list, all headers and the other blocks intact |
| Allocator.Manager.constructor | lab3-1-sparrowos-memory-module/src/memory.c:43-78 | memory_init formats the aligned region as one free block |
| Allocator.Manager.FindBestFit | lab3-1-sparrowos-memory-module/src/memory.c:143-165 | The list walk with its early exit finds the first of the smallest sufficient blocks, or NULL if there is none |
| Allocator.Manager.JoinAt | lab3-1-sparrowos-memory-module/src/memory.c:121-129 | One merge in memory: the list loses one block, only one header changes |
| Allocator.Manager.CoalesceBlocks | lab3-1-sparrowos-memory-module/src/memory.c:109-138 | The in-place pass ends with exactly the merged list, adds 24 to free_memory per merge, and writes only inside free blocks |
| Allocator.Manager.SplitBlock | lab3-1-sparrowos-memory-module/src/memory.c:83-104 | Splits exactly when the rest is worth a block, takes 24 from free_memory, writes only inside the free block |
| Allocator.Manager.RemoveFromFreeList | lab3-1-sparrowos-memory-module/src/memory.c:180-195 | Unlinks exactly the given block, wherever it is in the list |
| Allocator.Manager.Allocate | lab3-1-sparrowos-memory-module/src/memory.c:236-251 | Split, unlink, header and counters together carve the block as modelled, writing only where memory was free |
| Allocator.Manager.Kmalloc | lab3-1-sparrowos-memory-module/src/memory.c:212-257 | kmalloc on bytes is the model's Malloc, result included; no byte outside free blocks changes |
| Allocator.Manager.LiveAccepted | lab3-1-sparrowos-memory-module/src/memory.c:271-288 | Every live pointer passes kfree's checks and its header holds its size |
| Allocator.Manager.AddToFreeList | lab3-1-sparrowos-memory-module/src/memory.c:170-175 | Puts exactly the given block in front of the list |
| Allocator.Manager.GiveBack | lab3-1-sparrowos-memory-module/src/memory.c:290-302 | Marking, listing, counting and coalescing return the block as modelled |
| Allocator.Manager.Kfree | lab3-1-sparrowos-memory-module/src/memory.c:262-303 | kfree is the model's Free; a rejected pointer changes no byte; afterwards the pointer fails the checks, so an immediate second free is detected and harmless |
| Allocator.Manager.Kcalloc | lab3-1-sparrowos-memory-module/src/memory.c:308-318 | kcalloc is Malloc of the 64-bit product; the returned bytes are all zero; nothing outside free memory changes |
| Allocator.Manager.CopyContent | lab3-1-sparrowos-memory-module/src/memory.c:348-350 | The copy fills the new block with the first bytes of the old one and touches no other byte |
| Allocator.Manager.Grow | lab3-1-sparrowos-memory-module/src/memory.c:342-355 | The slow path allocates, copies and frees; a failure leaves the old block and its contents alone |
| Allocator.Manager.Krealloc | lab3-1-sparrowos-memory-module/src/memory.c:323-356 | The first min(old, new) bytes are at the returned address, a failed grow leaves all live blocks and contents, other live contents never change |
| Allocator.ContentsKept | lab3-1-sparrowos-memory-module/src/memory.c:212-257 | While only free memory is written every live block keeps its contents |
| Allocator.SparedTwice | lab3-1-sparrowos-memory-module/src/memory.c:212-356 | Contents that survive one call and then the rest of a run survive the run |
| Allocator.Manager.Apply | lab3-1-sparrowos-memory-module/src/memory.c:212-356 | Each call on 0 or a live pointer, and kfree of a pointer its checks reject, is one step of the heap model and spares the contents of every live block it is not about |
| Allocator.Manager.ApplyAll | lab3-1-sparrowos-memory-module/src/memory.c:212-356 | Over whole runs on bytes: a live block that no call is about has the same contents at the end |
| AllocatorRuns.ReallocRemembers | lab3-1-sparrowos-memory-module/src/memory.c:342-355 | A moving krealloc takes the known bytes of the block along and keeps those of all others |
| AllocatorRuns.WriteBytes | lab3-1-sparrowos-memory-module/src/memory.c:254-256 | A write of an owner inside a live block is exactly that write and keeps the allocator's invariant |
| AllocatorRuns.Do | lab3-1-sparrowos-memory-module/src/memory.c:212-356 | A call or an owner's write is one step, after which memory holds every byte its owner last wrote |
| AllocatorRuns.DoAll | lab3-1-sparrowos-memory-module/src/memory.c:212-356 | Over any interleaving of calls and owners' writes, every live block holds what its owner last wrote, wherever krealloc moved it |
| AllocatorRuns.WrittenStays | lab3-1-sparrowos-memory-module/src/memory.c:212-356 | A written byte stays known with its value through any run without a write, free or reallocation of its block |
| AllocatorRuns.WriteThenRun | lab3-1-sparrowos-memory-module/src/memory.c:212-356 | In memory: after a write and any run that is not about the block, the block holds the bytes written |
| AllocatorRuns.TrackMoves | lab3-1-sparrowos-memory-module/src/memory.c:323-356 | A successful krealloc of a live block returns the pointer of a live block in which every known byte has the offset and value it had |
| AllocatorRuns.MoveThenRun | lab3-1-sparrowos-memory-module/src/memory.c:323-356 | In memory: after a successful krealloc and any run that is not about the block it returned, that block holds the bytes known of the old one |
| Rpc.TruncDivExact | lab4-2-user-interrupt/examples/rpc_framework.c:47 | The quotient is C's: truncated toward zero, remainder smaller than the divisor and with the dividend's sign |
| Rpc.InvStep | lab4-2-user-interrupt/examples/rpc_framework.c:80-140 | Every read or write of either thread keeps what its position says about the slot |
| Rpc.InvRun | lab4-2-user-interrupt/examples/rpc_framework.c:80-140 | So does every interleaving |
| Rpc.Linearizable | lab4-2-user-interrupt/examples/rpc_framework.c:80-140 | In every interleaving each rpc_call returned the value of its own parameters (CallsAnswered says which), and the server handled exactly the returned calls of a slot, once each and in order, plus at most the one in progress |
| Rpc.ServerCloser | lab4-2-user-interrupt/examples/rpc_framework.c:80-110 | A server step handles a polling call or comes closer to it, stale reads of ready included |
| Rpc.RipeReturns | lab4-2-user-interrupt/examples/rpc_framework.c:133-140 | A handled call returns its value within three steps of its client |
| Rpc.CallCompletes | lab4-2-user-interrupt/examples/rpc_framework.c:80-140 | A polling call completes with the right value within a bounded number of server steps and three steps of its client, whatever other clients do |
| Rpc.CallCompletesInOneScan | lab4-2-user-interrupt/examples/rpc_framework.c:80-140 | That bound is nine server steps per slot |
| Rpc.CallsAnswered | lab4-2-user-interrupt/examples/rpc_framework.c:44-140 | In every interleaving each returned value answers its call: method 0 the sum, 1 the difference, 2 the product, 3 the quotient toward zero or 0 for divisor 0, any other method 0 |
| Rpc.OneAnswer | lab4-2-user-interrupt/examples/rpc_framework.c:44-54 | That determines the answer |
| Rpc.CallsReturnInOrder | lab4-2-user-interrupt/examples/rpc_framework.c:117-140 | The calls a run starts on a slot are those that returned, with their own parameters and in that order, plus the one in progress |
| Rpc.QuietSlots | lab4-2-user-interrupt/examples/rpc_framework.c:80-140 | Between calls a slot is not ready and everything the server handled has returned |
| Sleeping.ChainCut | lab3-2-sparrowos-scheduler/kernel/core/scheduler.c:713-722 | Unlinking the node at the walk's position corrects head, tail and the predecessor's link and leaves the rest of the queue in order |
| Sleeping.SleepQueue.Sleep | lab3-2-sparrowos-scheduler/kernel/core/scheduler.c:503-508 | The process gets its deadline and the last place in the sleep queue |
| Sleeping.SleepQueue.Unlink | lab3-2-sparrowos-scheduler/kernel/core/scheduler.c:713-722 | The node leaves the queue, the others keep their order |
| Sleeping.SleepQueue.CheckSleeping | lab3-2-sparrowos-scheduler/kernel/core/scheduler.c:701-735 | One pass leaves exactly the unexpired processes in order, with right head and tail, and readies exactly the expired ones in order |
| SleepTimes.InvInit | lab3-2-sparrowos-scheduler/kernel/core/scheduler.c:60-138 | scheduler_init: the idle process is current and still in the ready queue it was created into, and that is the invariant's one exception |
| SleepTimes.InvStep | lab3-2-sparrowos-scheduler/kernel/core/scheduler.c:304-556 | A process is current, ready, asleep or blocked and only one of them, the idle process apart, which is also at the head of the ready queue until the first dispatch; after every step: schedule, tick, yield, block, wake up, sleep, requeue, create, terminate |
| SleepTimes.RunsKeepPlaces | lab3-2-sparrowos-scheduler/kernel/core/scheduler.c:60-556 | From initialisation on every other process is in one place at most; the idle process never sleeps or blocks, and while it is queued it is current |
| SleepTimes.StepSleeps | lab3-2-sparrowos-scheduler/kernel/core/scheduler.c:380-408 | Before its wake-up tick a sleeper stays asleep and is charged nothing; that tick makes it runnable |
| SleepTimes.NeverEarlier | lab3-2-sparrowos-scheduler/kernel/core/scheduler.c:494-735 | Over any run, a process that sleeps n >= 1 ticks from tick t is in the sleep queue, uncharged, at every tick before t + n (t + 1 for n = 0) |
| SleepTimes.ExactlyThen | lab3-2-sparrowos-scheduler/kernel/core/scheduler.c:494-735 | The tick that brings the clock to t + n takes it out of the queue and makes it ready or running |
| SleepTimes.AbsentRuns | lab3-2-sparrowos-scheduler/kernel/core/scheduler.c:304-377 | A process that is nowhere becomes runnable, unless its slot is used for a new one, if and only if it is the idle process and a dispatch finds the ready queue empty |
| SleepTimes.TerminatedRunsAgain | lab3-2-sparrowos-scheduler/kernel/core/scheduler.c:215-377 | As written, a terminated process becomes runnable again if and only if it was asleep and the clock reaches its deadline (or the next tick, if that has passed), or it was blocked and is woken, or it is the idle process and a dispatch of the run finds the ready queue empty |
| SleepTimes.TerminatedIdleInput | lab3-2-sparrowos-scheduler/kernel/core/scheduler.c:215-377 | The input: the idle process is terminated right after initialisation, and the next dispatch runs it |
| SleepTimes.TerminatedSleeperWakes | lab3-2-sparrowos-scheduler/kernel/core/scheduler.c:215-261 | So a process terminated right after going to sleep for n ticks runs again if and only if they pass |
| SleepTimes.TerminatedSleeperInput | lab3-2-sparrowos-scheduler/kernel/core/scheduler.c:215-261 | The input, on a reachable state: a sleep of three ticks, a termination, three ticks |
| SleepService.TakeTurns | lab3-2-sparrowos-scheduler/kernel/core/scheduler.c:304-377 | While nobody arrives or leaves, after j scheduling decisions number j mod n of the initial order runs and the others wait behind it in turn |
| SleepService.AloneAlternates | lab3-2-sparrowos-scheduler/kernel/core/scheduler.c:304-377 | A process alone takes turns with the idle process |
| SleepService.ServedInTurn | lab3-2-sparrowos-scheduler/kernel/core/scheduler.c:304-735 | Whoever arrives, sleeps, wakes up or ends: a process with i others before it in the ready queue has the CPU within i + 1 decisions, unless it is ended or sent to the end of the queue itself |
| SleepService.IdleIsLast | lab3-2-sparrowos-scheduler/kernel/core/scheduler.c:304-377 | The idle process gets the CPU if and only if a decision finds nobody ready, the sleepers woken by the same tick included |
| SleepService.PassSplits | lab3-2-sparrowos-scheduler/kernel/core/scheduler.c:701-735 | The pass over the sleep queue splits it into sleepers and woken, both in the order of the queue |
| SleepService.TickWakesInOrder | lab3-2-sparrowos-scheduler/kernel/core/scheduler.c:380-408 | A tick puts exactly the sleepers whose time has come behind the ready processes, in the order they went to sleep |
| SleepService.TickThenYield | lab3-2-sparrowos-scheduler/kernel/core/scheduler.c:380-408 | A tick that reschedules is a plain tick followed by a scheduling decision |
| SleepService.GoesLast | lab3-2-sparrowos-scheduler/kernel/core/scheduler.c:215-556 | Arrivals, sleepers and blocked processes go to the end of their queue; a process that is woken, requeued or ended leaves its place and no other |
| SleepService.ChargedItsTicks | lab3-2-sparrowos-scheduler/kernel/core/scheduler.c:674-698 | Over any run a process is charged exactly the ticks at which it has the CPU |
| Waiting.WaitQueue.Enqueue | lab3-2-sparrowos-scheduler/kernel/core/scheduler.c:434-458 | A blocked process gets the last place in the linked wait queue |
| Waiting.WaitQueue.TakeOut | lab3-2-sparrowos-scheduler/kernel/core/scheduler.c:461-491 | The search along the links finds the process if and only if it is queued, and exactly that one leaves the queue, order kept |
| SleepScheduler.Machine.constructor | lab3-2-sparrowos-scheduler/kernel/core/scheduler.c:60-138 | scheduler_init: clock 0, nobody asleep or blocked, the idle process current and in the ready queue |
| SleepScheduler.Machine.Reschedule | lab3-2-sparrowos-scheduler/kernel/core/scheduler.c:304-377 | Dispatches the head of the ready queue, a plain sequence here, or the idle process; a process that stays runnable goes to the end, the idle one never does |
| SleepScheduler.Machine.SleepProcess | lab3-2-sparrowos-scheduler/kernel/core/scheduler.c:494-519 | The running process sleeps in the linked queue and another one is dispatched |
| SleepScheduler.Machine.TickHandler | lab3-2-sparrowos-scheduler/kernel/core/scheduler.c:380-408 | Clock, time accounting and the walk over the linked sleep queue are the machine's tick |
| SleepScheduler.Machine.BlockProcess | lab3-2-sparrowos-scheduler/kernel/core/scheduler.c:434-458 | The running process, if not the idle one, joins the linked wait queue and another one is dispatched |
| SleepScheduler.Machine.WakeProcess | lab3-2-sparrowos-scheduler/kernel/core/scheduler.c:461-491 | A process found in the linked wait queue leaves it and becomes ready; any other call changes nothing |
| SleepScheduler.Machine.RequeueProcess | lab3-2-sparrowos-scheduler/kernel/core/scheduler.c:544-548 | The queue part of a priority change, on a plain sequence: a ready process goes to the end of the ready queue |
| SleepScheduler.Machine.TerminateProcess | lab3-2-sparrowos-scheduler/kernel/core/scheduler.c:215-261 | The process, the idle one included, leaves the ready queue (a plain sequence here) and the processor, but not the linked sleep or wait queue |
| SleepScheduler.Machine.Apply | lab3-2-sparrowos-scheduler/kernel/core/scheduler.c:304-735 | Refinement: each call on the linked sleep and wait queues is one step of the machine, and the invariant survives it |
| SleepScheduler.Machine.ApplyAll | lab3-2-sparrowos-scheduler/kernel/core/scheduler.c:304-735 | Refinement over whole runs |
| SleepScheduler.Machine.SleepOnTime | lab3-2-sparrowos-scheduler/kernel/core/scheduler.c:494-735 | On the linked queue: a process that sleeps n ticks is out of it, and ready or running, after exactly n ticks (one for n = 0), whatever else happens |
| Numerals.NumeralDenotes | lab3-1-sparrowos-memory-module/kernel/print.c:252-255 | Repeated division produces digits that denote the number, without leading zeros |
| Numerals.SameLengthSameValue | lab3-1-sparrowos-memory-module/kernel/print.c:172-175 | Digit strings of one length that denote the same number are equal, so length and value determine what is printed |
| Numerals.NumeralLength | lab3-1-sparrowos-memory-module/kernel/print.c:199-202 | At most k digits are needed if and only if the number is below the base to the k |
| Numerals.LastDigits | lab3-1-sparrowos-memory-module/kernel/print.c:199-202 | Keeping the last n digits keeps the number modulo the base to the n |
| Numerals.SignedReadsBack | lab3-1-sparrowos-memory-module/kernel/print.c:241-255 | A signed decimal reads back as the number and starts with a minus sign exactly for negative ones |
| Numerals.ValueOfDigit | lab3-1-sparrowos-memory-module/kernel/print.c:164-174 | Digit d is character d of 0123456789abcdef and reads back as d |
| Printing.FillDigits | lab3-1-sparrowos-memory-module/kernel/print.c:165-176 | The digit loop leaves the last nineteen digits and a NUL at the end of the 20-byte buffer, 0 printed as one digit |
| Printing.PrintDec | lab3-1-sparrowos-memory-module/kernel/print.c:190-206 | For every 64-bit v the digits denote v mod 10^19, v itself with no leading zero below 10^19, and are nineteen from 10^19 on |
| Printing.Pad | lab3-1-sparrowos-memory-module/kernel/print.c:178-181 | The padding loop stops at the width or at nineteen digits, a negative width counting as a huge one |
| Printing.PrintHex | lab3-1-sparrowos-memory-module/kernel/print.c:162-185 | After 0x come digits that denote v, exactly max(digits needed, w) of them, w being the width, or 19 for larger and negative widths |
| Printing.Convert | lab3-1-sparrowos-memory-module/kernel/print.c:247-255 | The do-while digit loop never leaves its 20-byte buffer and yields the number's digits |
| Printing.Emit | lab3-1-sparrowos-memory-module/kernel/print.c:257-259 | The copy loop writes the longest prefix that fits and nothing else |
| Printing.EmitSigned | lab3-1-sparrowos-memory-module/kernel/print.c:239-261 | %d and %i write sign and digits, cut off at the end of the buffer |
| Printing.Directive | lab3-1-sparrowos-memory-module/kernel/print.c:234-359 | Each directive writes its text as far as it fits and advances format and arguments by what it used |
| Printing.Vsnprintf | lab3-1-sparrowos-memory-module/kernel/print.c:226-367 | The buffer holds the first min(full length, size - 1) characters of the full text, then NUL, and nothing else changes; the count is returned, which is what section 7.21.6.12 of C11 asks for if and only if the text fits; size 0 writes nothing |
| Printing.StringsRender | lab3-1-sparrowos-memory-module/kernel/print.c:317-325 | Whatever follows, %s renders its string as it stands, and a null pointer as (null) |
| Printing.CharactersRender | lab3-1-sparrowos-memory-module/kernel/print.c:311-315 | Whatever follows, %c renders one character, whose code is the argument modulo 256 |
| Printing.NumbersRender | lab3-1-sparrowos-memory-module/kernel/print.c:239-352 | Whatever follows, %d, %i, %u, %x and %llx render the digits of their argument, sign included |
| Printing.TextRenders | lab3-1-sparrowos-memory-module/kernel/print.c:327-362 | In front of any format, text without directives is rendered as it stands and %% as a percent sign |
| Printing.PlainText | lab3-1-sparrowos-memory-module/kernel/print.c:360-362 | Text without directives is rendered as it stands, %% as a percent sign |
| Printing.NumbersReadBack | lab3-1-sparrowos-memory-module/kernel/print.c:239-352 | What %d, %i, %u, %x and %llx render reads back as the argument |
| Printing.UnsignedLongLongIgnored | lab3-1-sparrowos-memory-module/kernel/print.c:331-352 | %llu, which the kernel's messages use, renders as lu and leaves its argument to the next directive |
| Primality.NothingBelow | lab1-2-process-monitor/examples/sample_scripts/cpu_intensive.c:35-40 | Trial division by 2, 3 and 6k-1, 6k+1 leaves out no divisor below the loop variable |
| Primality.SurvivorsPrime | lab1-2-process-monitor/examples/sample_scripts/cpu_intensive.c:37-41 | A number that survives past its square root is prime |
| Primality.IsPrime | lab1-2-process-monitor/examples/sample_scripts/cpu_intensive.c:32-42 | For every n below 3037000499 squared (2^62 and beyond) the result is 1 exactly for primes, and no 64-bit operation overflows |
| Primality.OverflowsExactlyOnPrimes | lab1-2-process-monitor/examples/sample_scripts/cpu_intensive.c:37 | From that bound up to 2^63 the loop squares a number that does not fit if and only if n is prime |
| Mqtt.PatchConnect | lab5-2-iot-sensor-rtos/src/mqtt_client.c:66-74 | The back-patch of CONNECT: one length byte up to 127; beyond, the continuation bit is lost and the first field byte overwritten |
| Mqtt.PatchPublish | lab5-2-iot-sensor-rtos/src/mqtt_client.c:107-114 | The back-patch of PUBLISH: one length byte up to 127; beyond, two, the second over the first field byte |
| Mqtt.BuildConnect | lab5-2-iot-sensor-rtos/src/mqtt_client.c:36-77 | The buffer holds exactly the packet with the fields in order, nothing behind it changes, and its length is returned |
| Mqtt.BuildPublish | lab5-2-iot-sensor-rtos/src/mqtt_client.c:80-117 | The same for PUBLISH: topic length, topic and payload, lengths cut to 16 bits |
| Mqtt.TooLong | lab5-2-iot-sensor-rtos/src/mqtt_client.c:69-114 | Beyond 127 bytes a receiver rejects the packet of either builder |
| Mqtt.LengthBytesWritten | lab5-2-iot-sensor-rtos/src/mqtt_client.c:66-114 | Beyond 127 the two length bytes hold the low fourteen bits of the length, the first announces the second only in PUBLISH, and the second stands in place of the first field byte |
| Mqtt.BytesOnTheWire | lab5-2-iot-sensor-rtos/src/mqtt_client.c:36-117 | The bytes of the shortest packets, with the keep-alive time 60, and of the length 321 of section 2.2.3 |
| Mqtt.ConnectRoundTrip | lab5-2-iot-sensor-rtos/src/mqtt_client.c:36-77 | A receiver gets the client id back, and the packet is the standard's encoding, if and only if the id has at most 115 bytes (remaining length at most 127) |
| Mqtt.PublishRoundTrip | lab5-2-iot-sensor-rtos/src/mqtt_client.c:80-117 | A receiver gets topic and payload back, and the packet is the standard's encoding, if and only if they have at most 125 bytes together (remaining length at most 127) |
| Mqtt.CallSitesRoundTrip | lab5-2-iot-sensor-rtos/src/main.c:66-97 | The client's own strings round-trip: an id printed into 32 bytes, the 18-byte topic, a payload printed into 100 bytes |

## Left out

- ProcessTable.Scheduler.CreateProcess: takes priorities 0 to 3 only; priority 4 gets slice 0 from line 78 and larger ones a slice that wraps to nearly 2^32, and a process that 352-354 put into the last level is not unlinked by 382.
- SchedulerInvariant.InvCreate: the same priorities.
- ProcessTable.Scheduler.RemoveFromReadyQueue: takes a queued process; what the text does to one that is not queued is the subject of SchedulerAsWritten.StaleRemoval, DispatchAsWritten and TerminateAsWritten.
- Scheduling.Create: PIDs, ticks and counters are unbounded; 32-bit wrap-around is not modelled.
- SchedulerAccounting.RoundRobinRotates: holds as stated for the three policies with one ready queue (FIFO, RR, CFS); under MLFQ levels interleave.
- Allocator.Manager.Kfree: requires that a pointer that is not live fails the checks; the checks cannot tell bytes of a user that look like a header from a header.
- Allocator.Manager.Kcalloc: requires a 64-bit product of at most 2^64 - 8; beyond, rounding up wraps to 0 (HeapModel.HugeSizesWrap) and the clearing runs past the block.
- Allocator.Manager.Grow: requires a size of at most 2^64 - 8 for the same reason.
- Allocator.Manager.Krealloc: requires a size of at most 2^64 - 8 for the same reason, and a pointer that is 0 or live, since the text reads the header without a check.
- Allocator.Manager.Apply: requires sizes of at most 2^64 - 8 in krealloc, and in kfree a pointer that is 0, live or rejected by the checks.
- Allocator.Manager.ApplyAll: runs whose calls pass 0 or live pointers.
- AllocatorRuns.DoAll: the same runs, with writes inside live payloads; kcalloc is a kmalloc followed by a write of zeros.
- Allocator.Manager.constructor: requires a nonempty aligned region that starts above address 0 and ends 24 bytes before the end of memory; the `initialized` flag and calls before memory_init are not modelled.
- Printing.EmitSigned: requires an int that has a negative, so not INT_MIN, whose negation overflows at line 244.
- Printing.Vsnprintf: leaves out %p, unknown and incomplete directives, and INT_MIN for %d, all outside what the formatter is meant for.
- Primality.IsPrime: requires n below 3037000499 squared; from there on Primality.OverflowsExactlyOnPrimes says what happens.
- Mqtt.FormatRoundTrip: CONNECT without will, user name and password; wildcards in topics are not rejected.
- SleepTimes.NeverEarlier: policies with one ready queue; under MLFQ a terminated or requeued process stays queued, since its removal has no body. Reaping and the reuse of a slot that is still in a queue are not modelled.
- SleepScheduler.Machine.RequeueProcess: the new priority and time slice of 536-542 are not modelled.
- SleepScheduler.Machine.Reschedule: the ready queue of this kernel is a sequence; its helpers have no bodies in the repository.
- SleepScheduler.Machine.CreateProcess: takes a slot that is in no queue and not the idle one's; the allocation of process control blocks is not part of this model.
- Process names, registers, vruntime and the average turnaround time: stored or computed, never used for a decision.
- Console output, statistics printing, memory_stats, memory_dump and memory_integrity_check's messages: output only.
- Serial ports, interrupts, context save and restore, trap handling: hardware effects.
- print_bin, Fibonacci and the floating-point kernels: easy or without an exact property.
- WiFi, sensors, displays, user-interrupt system calls, the Python and shell tools: device and operating-system plumbing.
