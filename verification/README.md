# A verified model of the operating-system simulator

A Dafny model of the C operating-system simulator, with proofs about its three
stateful parts: the time-slot barrier, the multi-level scheduler with the CPUs and
the loader, and the two forms of paged memory. `dafny verify dfyconfig.toml` checks
the whole project.

## What is modelled

**The time-slot barrier (`src/timer.c`).** `Barrier.dfy` is a transition system of
the timer thread and any number of devices. A step is one lock acquisition, one
access to the shared fields, one signal or one unlock; both mutexes of a device are
explicit, and so are the wait sets of its condition variables. Spurious wake-ups are
steps. `BarrierProperties.dfy` proves safety, exact time, absence of lost wake-ups
and of deadlock, a bound on the steps to the next tick, and shutdown.
It then shows that every run refines `Slots.dfy`, a machine in which time advances
only when every client waits for exactly the slot that ends; the CPUs and the loader
run on top of that machine.

**The scheduler and the dispatch loop (`src/queue.c`, `src/sched.c`, `src/os.c`,
`src/cpu.c`, `src/sys_killall.c`).** `Queue.dfy` and `Scheduler.dfy` verify the array
loops, in place, against the functions of `ReadyQueue.dfy` (one queue: repeated
dequeuing is *the* stable sort) and `Mlq.dfy` (140 queues: `get_proc` takes the head
of one list kept in dispatch order). `Dispatch.dfy` is a step model in which the
loader and the CPUs interleave freely over those functions and the slot machine;
`Census.dfy` and `DispatchInvariant.dfy` hold its invariant, `DispatchProperties.dfy`
what follows from it. `DispatchOrder.dfy` says which process a CPU takes,
`DispatchRounds.dfy` how long it keeps it and how its loop ends, `DispatchQuanta.dfy` how
many quanta a process takes, and `DispatchStops.dfy` that the simulator can stop.
`DispatchProgress.dfy` has a bound on the slots it takes, and `DispatchSteps.dfy` one on
the steps.

**Both together.** `System.dfy` puts the CPUs and the loader on the threads of
`src/timer.c` themselves: a thread's calls of `next_slot` and `detach_event` run through
the locks and condition variables of `Barrier.dfy`. `SystemProperties.dfy` proves that
every run of it is a run of `Dispatch.dfy` once those steps are hidden, so that all that
is proved there holds of the threads; that it never gets stuck; and a bound on the steps
of all threads after which every process is over.

**Two-level paging (`src/mem.c`).** `Mem.dfy` has the page tables, the frame table and
the RAM as objects that are updated in place; `TwoLevel.dfy` and `MemSpec.dfy` are the
values they stand for. `FlatMemory.dfy` proves that every sequence of allocations,
reads and writes by any processes is answered exactly as by a zero-initialised flat
memory per process.

**The MM_PAGING layer (`src/mm.c`, `src/mm-vm.c`, `src/mm-memphy.c`, parts of
`src/libmem.c`, macros of `include/mm.h` and `include/bitops.h`).** `Bits.dfy` and
`Pte.dfy` define the C operators on 32-bit words bit by bit and prove what the macros
compute. `Memphy.dfy`, `VmArea.dfy` and `Paging.dfy` verify the linked lists, the
packed page-table entries and the byte access in place; `PagingSpec.dfy` is the
machine they implement, `PagedMemory.dfy` proves its properties over whole runs, and
`Regions.dfy` those of the first-fit list of free regions.

Where a C function is given by a value function or a step: `timer_routine` is
`Barrier.TimerDo`; `next_slot` and `detach_event` are `Barrier.DeviceDo` after `Call`
and `Leave`; `cpu_routine` is `Dispatch.CpuDo` and `ld_routine` `Dispatch.LoaderDo`;
`get_mlq_proc` and `put_mlq_proc` are `Mlq.Got` and `Mlq.Put`; the functions of
`src/mem.c` are `MemSpec.Apply`, those of the paging layer `PagingSpec.Apply`;
`get_free_vmrg_area` and `enlist_vm_freerg_list` are `Regions.GetFree` and
`Regions.Enlist`.

## Assumptions

- Memory is sequentially consistent, and `_time` does not wrap around.
- pids are distinct and non-zero, `prio < MAX_PRIO`; a `Pcb` value stands for the
  pointer to it.
- A new page table has `size == 0`; the `malloc` in `src/loader.c:40-41` does not say so.
- `pgd` starts as zeros and the area's list of free regions as NULL, where
  `src/mm.c:228-243` leaves both unset; `init_mm` then enlists one empty region.
- The last node of the free-frame list ends in NULL, also when it is the only one
  (`src/mm-memphy.c:126-128`).
- The arithmetic of the paging layer on `int` and on the break pointer does not
  overflow, and RAM has at most 2^21 bytes, which is what frame numbers of 13 bits
  reach; then every page that is mapped lies within the 4 MB that page numbers reach.
  `PagingSpec.BeyondSpaceAliases` and `Pte.FrameNumberAlias` show what happens beyond.
- In runs of the paging layer, growth by a size of -511 or below, which moves the limits
  back, leaves no resident page beyond them (`PagingSpec.LeavesNothingBehind`). This is
  exactly what keeps the limits in order with every mapped page below them
  (`PagingSpec.LimitsKeptIff`). Without it the next growth gives a resident page another
  frame exactly if one lies within reach (`PagedMemory.RunRemapsIff`), and there are runs
  that get there (`PagedMemory.RemappedAfterRun`). Growth of an area that does not exist,
  which moves the break pointer only, leaves it at or above the area's end and leaves room
  for the frames that are left.
- Sections under `queue_lock` are single steps.
- `malloc` succeeds.

## Where the code differs from what it says

- `get_free_vmrg_area` returns 0 when nothing fits, leaving -1 in both fields of the
  region, and -1 only for an empty list (`src/libmem.c:442-470`); the model does the same.
- `alloc_mem` checks the break pointer in 32-bit arithmetic; alone, that check lets
  sizes whose region passes the end of the word through (`MemSpec.FirstCheckExactIff`),
  such as 2^32 - 1 (`MemSpec.FirstCheckAloneWraps`), and only together with the count of free frames is it exact (`MemSpec.AcceptsIsExact`).
- `inc_vma_limit` moves the break pointer before anything can fail, and frames popped
  for a request that cannot be met in full are lost (`src/mm.c:130-157`).
- The sequential read and write of a device test the access flag the same way round as
  the random ones, so a sequential device always answers -1 (`src/mm-memphy.c:43-44,83-84`).

## Model

| member | source | states |
|---|---|---|
| Barrier.StepKeepsInv | src/timer.c:21-77 | every step of any thread keeps the whole-protocol invariant: lock ownership, the meaning of `done` and `fsh` in each phase of the timer, and the counts |
| BarrierProperties.RunInv | src/timer.c:21-118 | the invariant holds in every state of every interleaving of the timer, the devices and the main thread |
| BarrierProperties.BarrierSafety | src/timer.c:29-53 | `_time` grows by one at a time, and when it goes from t to t+1 every unfinished device has called `next_slot` exactly t+1 times and has announced the end of its slot |
| BarrierProperties.Lockstep | src/timer.c:44-53 | every unfinished device has been released `_time` or `_time`-1 times, so no two differ by more than one |
| BarrierProperties.TimeAtHome | src/timer.c:61-81 | a device outside the timer's functions has called `next_slot` exactly `_time` times, so the `_time` it reads without a lock is its own slot |
| BarrierProperties.TimeMonotone | src/timer.c:45 | `_time` never decreases along a run |
| BarrierProperties.TimeConstantBetweenCalls | src/timer.c:61-81 | from a device's return from `next_slot` to its next call, `_time` does not change, whatever the other threads do |
| BarrierProperties.OneSlotPerCall | src/timer.c:61-81 | a call of `next_slot` returns with `_time` exactly one larger than at entry |
| BarrierProperties.RaceFree | src/timer.c:30-76 | no two threads are ever about to make conflicting accesses to `done`, `fsh` or `_time`, although `done` is written under two different locks and `_time` under none |
| BarrierProperties.NoLostWakeup | src/timer.c:31-75 | a thread in a wait set has a wait predicate that still holds, or its signaller is between the change and the signal |
| BarrierProperties.NoDeadlock | src/timer.c:21-77 | while the timer runs, some thread can step without a spurious wake-up, unless the timer waits for a device that is outside these functions |
| BarrierProperties.SomeStepEnabled | src/timer.c:21-93 | in every state of every run, while any device is unfinished some step is enabled that is not a spurious wake-up |
| BarrierProperties.TickWithinMeasure | src/timer.c:29-45 | once every device has called `next_slot` or is detaching, every interleaving ticks, or exits with all devices finished, within a bound computed from the state plus 33 steps for every spurious wake-up on the way |
| BarrierProperties.ReadyCanGoOn | src/timer.c:29-45 | and until then some thread can always step |
| BarrierProperties.AtMostOneTickAfterLastDetach | src/timer.c:24-93 | in any interleaving, at most one tick follows the last detach |
| BarrierProperties.NoTickAfterStop | src/timer.c:22-93 | no tick follows a state in which `timer_stop` is set and the timer thread is at its loop test |
| BarrierProperties.ExitOnlyWhenAllDetached | src/timer.c:54-93 | the timer thread is at its exit only if every attached device has detached |
| BarrierProperties.StepRefinesSlots | src/timer.c:44-118 | every step is a step of the slot machine or invisible to it |
| BarrierProperties.RunRefinesSlots | src/timer.c:21-118 | what the devices see of any run of the threads is a run of the slot machine |
| Slots.InvKept | src/timer.c:61-81 | in the slot machine a working client has been let into exactly the current slot |
| Queue.Empty | src/queue.c:5-8 | NULL counts as empty; otherwise empty means no contents |
| Queue.Enqueue | src/queue.c:10-18 | appends, or leaves a full queue as it is |
| Queue.BestIndex | src/queue.c:24-31 | the scan ends at the first process of maximal priority |
| Queue.RemoveAt | src/queue.c:36-40 | the left shift removes exactly that entry and keeps the order of the others |
| Queue.Dequeue | src/queue.c:20-43 | returns the first process of maximal priority and leaves the others in order; NULL from an empty or absent queue, which is unchanged |
| ReadyQueue.DrainIsStableSort | src/queue.c:20-43 | repeated dequeuing yields non-increasing priority, and each priority class in insertion order |
| ReadyQueue.DrainIsTheStableSort | src/queue.c:20-43 | a sequence is what draining yields if and only if it is the stable sort by priority |
| ReadyQueue.DrainPermutes | src/queue.c:20-43 | draining loses and invents no process |
| Queue.MoveSurvivors | src/sys_killall.c:21-31 | the first loop ends with the queue empty and the temporary queue holding the drain order without the matching processes; nothing overflows it |
| Queue.Restore | src/sys_killall.c:33-36 | the second loop puts everything back, in the order in which the temporary queue drains |
| Queue.KillAllInQueue | src/sys_killall.c:10-37 | the queue afterwards holds, and drains to, the old drain order with exactly the matching processes left out |
| Queue.KillKeepsOrder | src/sys_killall.c:10-37 | removing processes of one name from the drain order leaves a sequence that drains to itself |
| Queue.KillLeaves | src/sys_killall.c:21-31 | of the name to kill nobody is left, every other process is there as often as before, and the priorities do not increase |
| Scheduler.Scheduler.constructor | src/sched.c:7-15 | 140 empty queues and a running list that share no storage |
| Scheduler.Scheduler.InitScheduler | src/sched.c:27-39 | empties every level and the running list |
| Scheduler.Scheduler.HighestLevel | src/sched.c:50-57 | the downward scan finds the highest non-empty level, or none |
| Scheduler.Scheduler.GetProc | src/sched.c:47-60 | implements the value function that takes the first best process of the highest non-empty level |
| Scheduler.Scheduler.PutMlqProc | src/sched.c:62-72 | enqueues in the level of the process's `prio` and touches no other |
| Scheduler.Scheduler.PutRunningList | src/sched.c:83-86 | the first critical section of `put_proc` and `add_proc` leaves the levels alone |
| Scheduler.Scheduler.PutProc | src/sched.c:78-102 | the process goes to its level whether or not the running list has room |
| Mlq.GotIsHead | src/sched.c:47-60 | `get_proc` returns the head of the dispatch order over all levels and leaves the rest of it; NULL exactly if it is empty |
| Mlq.PutIsInsertion | src/sched.c:62-72 | enqueuing inserts into the dispatch order behind everything the process does not outrank, or changes nothing if the level is full |
| Mlq.OrderRanked | src/sched.c:47-76 | the dispatch order is sorted by prio, then priority |
| Mlq.OrderPosition | src/sched.c:47-60 | an entry stands at the number of entries of higher prio, higher priority in its level, or equal priority before it |
| Mlq.GotHasNobodyAhead | src/sched.c:47-60 | an entry with nobody ahead of it is the one returned |
| Mlq.GotIsMaximum | src/sched.c:47-60 | what is returned has nobody ahead of it: the maximum by prio, priority, and earliest enqueued |
| Mlq.MovesUp | src/sched.c:47-76 | whatever arrives without strictly outranking it, an entry moves up by one with every dequeue |
| Mlq.BoundedBypass | src/sched.c:47-76 | so it is returned after exactly as many dequeues as there were entries ahead of it |
| Cpu.Process.Run | src/cpu.c:61-71 | past the end: status 1 and nothing changes; otherwise exactly the next instruction, and the program counter moves by one |
| Census.StepKeepsCount | src/os.c:53-135 | every step of loader, CPUs and timer keeps each loaded process in exactly one place |
| DispatchInvariant.StepKeepsInv | src/os.c:47-141 | every step keeps the whole invariant: modes of the threads, quantum, program counters, arrivals, and that somebody will still look at a ready process |
| DispatchInvariant.RunInv | src/os.c:47-141 | it holds in every state of every interleaving |
| DispatchProperties.Conservation | src/os.c:53-97 | a loaded process is in exactly one of: a ready level, a CPU (or being put back by it), the loader, finished, dropped; one not loaded is nowhere |
| DispatchProperties.NothingDropped | src/queue.c:12-15 | while at most MAX_QUEUE_SIZE live processes share each prio, no level refuses one |
| DispatchProperties.SmallConfigDropsNothing | src/queue.c:12-15 | in particular if at most MAX_QUEUE_SIZE configured processes share each prio |
| DispatchProperties.ExactlyOnceInOrder | src/cpu.c:64-70 | `pc <= size`, and the instructions executed so far are 0 to pc-1, each once and in order, although reading the instruction and increasing `pc` are separate steps with no lock: no other CPU ever holds the process in between |
| DispatchProperties.FinishTakesItsTime | src/os.c:63-97 | a finished process has executed all its instructions, at most one a slot since its arrival |
| DispatchProperties.PutBackAfterQuantum | src/os.c:70-97 | a process being put back is unfinished and has used exactly `time_slot` calls of `run` since its dispatch |
| DispatchProperties.OneSlotPerRound | src/os.c:53-98 | whenever a CPU is back at the head of its loop it has called `next_slot`, at one of the three places, exactly as often as it has taken the head; a CPU that leaves the loop does so in a round without a call |
| DispatchProperties.RoundsAreSlots | src/os.c:53-98 | between any two visits of the head, the number of steps that take it is the number of steps that call `next_slot` |
| DispatchOrder.RunLine | src/os.c:57-77 | in every step of every run: `get_proc` takes the head of the line of ready processes, or NULL exactly if there is none; a process put back or added joins behind all it does not outrank, or is dropped exactly if its level is full; no other step touches the line |
| DispatchOrder.LineIsSorted | src/sched.c:47-102 | in every state of every run the line is in order of prio, then priority, then of when each process became ready |
| DispatchOrder.JoinsBehindEquals | src/os.c:75 | what is put back or added without being dropped stands behind every ready process that it does not outrank and before every other one |
| DispatchOrder.DispatchesTheFirst | src/os.c:57-77 | what a CPU takes is outranked by no ready process, and every ready process of its rank became ready after it |
| DispatchOrder.MovesUpInRun | src/os.c:53-98 | as long as nobody that outranks it is put in, a ready process moves up by one with every dispatch by any CPU |
| DispatchOrder.BoundedBypass | src/os.c:53-98 | so with n before it in the line it is dispatched by dispatch number n + 1 |
| DispatchRounds.AtMostTheQuantum | src/os.c:72-97 | from when a CPU takes a process until it lets it go, it runs it at most `time_slot` times, and not again once it has run it that often |
| DispatchRounds.LeavesAfterQuantum | src/os.c:72-98 | once it has run it that often, the CPU lets it go with the fourth of its next steps at the latest |
| DispatchRounds.LeavesFinishedOrPutBack | src/os.c:64-77 | a process leaves a CPU finished exactly if its program has ended; otherwise after exactly `time_slot` runs, by joining the ready processes behind all it does not outrank or by being dropped by a full level; so with a time slot below 1 only finished |
| DispatchRounds.AdvancesByRuns | src/os.c:95-96 | while a CPU holds a process, it advances by the runs that CPU makes, and by nothing else |
| DispatchRounds.RoundAfterProcess | src/os.c:64-98 | after a process has been finished or put back the CPU calls `get_proc`; if that gives NULL it detaches when `done` was set at the second test, and calls `next_slot` when not; otherwise it runs the head of the line |
| DispatchRounds.IdleRound | src/os.c:57-62 | a CPU that starts a round without a process and gets none calls `next_slot`, whether `done` is set or not |
| DispatchRounds.NeverCallsAgain | src/os.c:79-99 | a CPU that found no process and `done` set after letting one go never calls `next_slot` again |
| DispatchRounds.DetachesOnlySo | src/os.c:57-99 | a CPU detaches only after letting a process go, finding all levels empty, and finding `done` set, in consecutive steps; so an idle CPU never does |
| DispatchQuanta.QuantaTaken | src/os.c:64-97 | in every run a finished process of n >= 1 instructions has been put back exactly (n - 1) / `time_slot` times: it took n / `time_slot` quanta, rounded up |
| DispatchStops.SomeRunStops | src/os.c:47-141 | for one CPU and one process of at least one instruction, with any time slot, start and ranks, there is a run at whose end both threads have detached and the process is finished |
| DispatchProperties.FinishedForGood | src/os.c:63-68 | a finished process is never again ready, on a CPU or dropped, and is finished once |
| DispatchProperties.ArrivalTimes | src/os.c:112-135 | process i is added at the maximum over j <= i of start_j + (i - j); arrivals strictly increase |
| DispatchProperties.OnlyNextSlotBlocks | src/os.c:53-135 | no CPU and no loader is ever blocked except inside `next_slot` |
| DispatchProperties.NeverStuck | src/os.c:53-141 | while a CPU or the loader is there, some step is enabled |
| DispatchProperties.NobodyLeftBehind | src/os.c:79-138 | when all CPUs have stopped, every configured process has finished or was dropped by a full level |
| DispatchProperties.EveryProcessRunsToItsEnd | src/os.c:47-141 | with at most MAX_QUEUE_SIZE processes per prio, when all CPUs have stopped every process has executed all its instructions, each once, in order |
| DispatchProgress.StepKeepsWork | src/os.c:53-135 | no step adds work once all processes have arrived, and one that does none leaves some CPU that still will in this slot |
| DispatchProgress.EverySlotWorks | src/os.c:53-98 | after the last arrival, a slot that begins with an unfinished process does some of the work before it ends, in every interleaving |
| DispatchProgress.WorkBound | src/os.c:53-98 | so the work left shrinks by at least the number of slots passed since the last arrival |
| DispatchProgress.AllOverInTime | src/os.c:47-141 | from a slot on that the configuration alone determines, every process is finished or was dropped by a full level, although idle CPUs never stop |
| DispatchProgress.AllRunInTime | src/os.c:47-141 | with at most MAX_QUEUE_SIZE processes per prio, every one has by then executed all its instructions, each once, in order |
| DispatchSteps.StepTakesOne | src/os.c:53-135 | every step of a CPU or the loader takes one of the steps that are left in the slot |
| DispatchSteps.StepsTakeTime | src/os.c:53-135 | so in every interleaving k steps have taken the simulator to slot k / (8 * num_cpus + 6), rounded down, at least |
| DispatchSteps.AllOverInSteps | src/os.c:47-141 | from a number of steps on that the configuration alone determines, every process is finished or was dropped by a full level |
| DispatchSteps.AllRunInSteps | src/os.c:47-141 | with at most MAX_QUEUE_SIZE processes per prio, every one has by then executed all its instructions, each once, in order |
| System.StepProjects | src/os.c:47-141 | every step of the threads of both files is a step of the CPUs and the loader over the slot machine, or invisible to them |
| SystemProperties.RunProjects | src/os.c:47-141 | so what the CPUs and the loader see of any run of the threads of both files is a run of module Dispatch |
| SystemProperties.RunOfTimer | src/timer.c:21-118 | and its timer and devices are in a state that a run of module Barrier reaches |
| SystemProperties.NeverStuck | src/os.c:47-141 | as long as a CPU or the loader has not detached, in every state of every run of the threads of both files some thread can step without a spurious wake-up |
| SystemProperties.StepTakesOne | src/timer.c:21-81 | every step of any thread but the tick and the spurious wake-ups takes one of the steps that are left before the next tick |
| SystemProperties.StepsTakeTime | src/timer.c:21-81 | so in every interleaving of all threads the time is at least k / (634 * num_cpus + 449), rounded down, after k steps, not counting 33 steps for each spurious wake-up |
| SystemProperties.AllOverInSteps | src/os.c:47-141 | from a number of steps of all threads on that the configuration and the spurious wake-ups determine, every process is finished or was dropped by a full level |
| SystemProperties.AllRunInSteps | src/os.c:47-141 | with at most MAX_QUEUE_SIZE processes per prio, every one has by then executed all its instructions, each once, in order |
| TwoLevel.OffsetIsRemainder | src/mem.c:25-27 | the offset is the address modulo PAGE_SIZE |
| TwoLevel.FirstIsQuotient | src/mem.c:30-32 | the first-level index is the address divided by 2^15 |
| TwoLevel.SecondIsRemainder | src/mem.c:35-37 | the second-level index is the page number modulo 32 |
| TwoLevel.PhysicalIsSum | src/mem.c:79-81 | shifting the page and or-ing the offset is page * PAGE_SIZE + offset |
| TwoLevel.AddRepresents | src/mem.c:89-115 | mapping the next page appends its frame to the list the table stands for, and overruns neither 32-entry level |
| TwoLevel.TranslateMeaning | src/mem.c:57-86 | `translate` answers exactly for the mapped pages, with frame * PAGE_SIZE + offset |
| Mem.TransTable.Find | src/mem.c:76-84 | the linear search of the second level |
| Mem.PageTable.GetTransTable | src/mem.c:40-52 | the linear search of the first level: the table of the first entry with that index, or NULL |
| Mem.PageTable.AddPageMapping | src/mem.c:89-115 | the table objects stand for the value with the mapping added; the second-level tables stay unshared |
| Mem.Proc.Translate | src/mem.c:57-86 | finds the physical address exactly for the mapped pages, always inside RAM |
| Mem.Memory.constructor | src/mem.c:18-22 | frame table and RAM all zero |
| Mem.Memory.CountFree | src/mem.c:125-130 | the number of free frames |
| Mem.Memory.TakeAndMap | src/mem.c:146-159 | one free frame is claimed, linked behind the previous one, and mapped at the next page |
| Mem.Memory.MapFrames | src/mem.c:142-160 | the loop gives the process the first n free frames, in order, and maps them at consecutive pages |
| Mem.Memory.AllocMem | src/mem.c:117-164 | returns and changes exactly what the machine's `Alloc` says |
| Mem.Memory.ReadMem | src/mem.c:173-181 | returns exactly what the machine's `Read` says |
| Mem.Memory.WriteMem | src/mem.c:183-191 | changes exactly the byte the machine's `Write` says |
| MemSpec.AcceptsIsExact | src/mem.c:122-136 | the two 32-bit checks together hold exactly if the region ends within RAM_SIZE and enough frames are free |
| MemSpec.FirstCheckExactIff | src/mem.c:133 | the first check alone says that the region ends within RAM_SIZE if and only if its end does not pass 2^32 |
| MemSpec.FreeFramesMeaning | src/mem.c:125-130 | the free frames, in ascending order |
| MemSpec.ClaimedMeaning | src/mem.c:142-158 | the claimed frames are numbered from 0 and linked in ascending order, ending in -1; no other entry changes |
| MemSpec.AllOrNothing | src/mem.c:117-164 | success maps exactly ceil(size/PAGE_SIZE) frames that were free at [old bp, new bp) and changes nothing else; failure returns 0 and changes nothing |
| MemSpec.MappingIsInjective | src/mem.c:142-160 | no frame backs two pages, in one process or across processes |
| MemSpec.InUseIffMapped | src/mem.c:142-160 | a frame has a non-zero `proc` exactly if a page of that process is mapped to it |
| MemSpec.StepKeepsInv | src/mem.c:117-191 | every call by any process keeps the invariant of the machine |
| FlatMemory.StepRefines | src/mem.c:117-191 | every call returns what the flat memories return and leaves memories that correspond |
| FlatMemory.RunRefines | src/mem.c:18-191 | so does every sequence of calls from `init_mem` on |
| FlatMemory.ReadReturnsLastWrite | src/mem.c:117-191 | after any run a read succeeds exactly at addresses an allocation of that process returned, with the byte the process last wrote there, or 0 |
| FlatMemory.WriteSucceedsWhenAllocated | src/mem.c:183-191 | after any run a write returns 0 exactly at addresses an allocation of that process returned, and 1 at all others |
| FlatMemory.ChainsLast | src/mem.c:142-158 | the frames of every allocation stay a chain numbered from 0 and ending in -1 under all later calls |
| Bits.NBitsIsLog2 | include/bitops.h:27-33 | NBITS is the binary logarithm, rounded down, of every positive word |
| Bits.BitGenMask | include/bitops.h:24-25 | GENMASK(h, l) has exactly the bits l to h |
| Bits.DivRoundUpIsCeiling | include/bitops.h:8 | on unbounded operands DIV_ROUND_UP is the least multiple count that covers n |
| Bits.DivRoundUpWordIsCeiling | include/bitops.h:8 | on unsigned 32-bit operands it covers n if and only if the sum in it does not wrap around |
| Pte.SetThenGet | include/mm.h:80-81 | reading back a field that SETVAL set gives the value cut to the field's width |
| Pte.SetKeepsOther | include/mm.h:80-81 | setting a field leaves every disjoint field alone |
| Pte.FieldBounded | include/mm.h:81 | GETVAL of bits l to h is (v / 2^l) mod 2^(h-l+1) |
| Pte.OffstOfIsRemainder | include/mm.h:59-92 | for any page size 2^n, PAGING_OFFST is the remainder |
| Pte.PgnOfIsQuotient | include/mm.h:63-93 | and PAGING_PGN the quotient, cut to the width of the bus |
| Pte.SplitRecombines | include/mm.h:10-93 | page number * 256 + offset is the address within the 22-bit bus |
| Pte.PteSetFpnMeaning | src/mm.c:70-78 | the entry is present and not swapped, gives the frame number back cut to 13 bits, and keeps its other bits |
| Pte.FrameNumberRoundTrip | src/mm.c:70-78 | the frame number survives if and only if it is below 8192 |
| Pte.FrameNumberAlias | include/mm.h:40-41 | frame 8192 comes back as frame 0 |
| Pte.PteSetSwapMeaning | src/mm.c:54-63 | a swapped entry is present and swapped, and gives type and offset back cut to 5 and 21 bits |
| Memphy.Device.constructor | src/mm-memphy.c:185-199 | zeroed storage and the frames 0 to size/256 - 1 free |
| Memphy.Device.Format | src/mm-memphy.c:115-141 | -1 and nothing changed for a device smaller than a page, otherwise the list 0, 1, ..., maxsz/pagesz - 1 |
| Memphy.Device.GetFreeFp | src/mm-memphy.c:143-159 | takes the head of the free list, or answers -1 when it is empty |
| Memphy.Device.PutFreeFp | src/mm-memphy.c:169-180 | puts the frame at the head |
| Memphy.Device.Read | src/mm-memphy.c:58-69 | the stored byte on a random-access device, -1 on a sequential one |
| Memphy.Device.Write | src/mm-memphy.c:98-109 | stores exactly one byte on a random-access device, nothing on a sequential one |
| Memphy.SwapCpPage | src/mm.c:203-219 | on random-access devices, also within one, every byte of the page is the old byte of the source page at the same offset, and every other byte is what it was; a sequential destination does not change |
| Memphy.CopyOutAndBack | src/mm.c:203-219 | copying a page out and back restores it, whatever was written over it in between |
| VmArea.GetVmaByNum | src/mm-vm.c:35-56 | the first area whose id is not below the one asked for, NULL if there is none |
| Paging.SetFpnShows | src/mm.c:70-78 | the packed entry stands for the frame, as far as 13 bits hold it |
| Paging.AllocPagesRange | src/mm.c:125-161 | a list of exactly the first frames of the free list, in order; -3000 with the free list emptied; for a negative count, that count and no frame |
| Paging.Mm.VmapPageRange | src/mm.c:83-117 | sets one entry for each page of the range, to the frames of the list in order, and no other entry; returns the region; puts its first page at the head of the list of ranges |
| Paging.Mm.EnlistPgn | src/mm.c:273-282 | puts the page number at the head of the linked list |
| Paging.Pcb.VmMapRam | src/mm.c:172-195 | maps the requested pages to the first free frames, or answers -1 and changes no entry |
| Paging.Pcb.GetVmAreaNodeAtBrk | src/mm-vm.c:73-94 | a new node from the old to the new break pointer, which moves in 32-bit arithmetic |
| Paging.Pcb.ValidateOverlap | src/mm-vm.c:106-115 | -1 exactly for an unknown area or a start below its end, on any list of areas |
| Paging.Pcb.IncVmaLimit | src/mm-vm.c:137-167 | returns and changes exactly what the machine's `Grown` says, in every case and for sizes of either sign |
| Paging.Pcb.PgGetPage | src/libmem.c:198-237 | the frame of a resident page |
| Paging.Pcb.PgGetVal | src/libmem.c:245-266 | returns exactly what the machine's `Get` says |
| Paging.Pcb.PgSetVal | src/libmem.c:274-295 | changes exactly the byte the machine's `Set` says |
| PagingSpec.MapPagesAt | src/mm.c:104-110 | within the space, exactly the pages of the range are set, each to its own frame |
| PagingSpec.BeyondSpaceAliases | include/mm.h:10-93 | addresses 4 MB apart have the same page number |
| PagingSpec.GrownMeaning | src/mm-vm.c:137-167 | what a growth call does in each of its outcomes, for sizes of either sign, and that its overlap check never fires |
| PagingSpec.OverlapRefused | src/mm-vm.c:137-167 | where the area's end has passed the break pointer the call fails and moves only the break pointer |
| PagingSpec.AlignMeaning | include/mm.h:13 | a size is rounded up to whole pages, and is a negative number of pages exactly from -511 down |
| PagingSpec.LimitsKeptIff | src/mm-vm.c:137-167 | a call leaves `vm_end <= bp` with every resident page below `vm_end` if and only if its size leaves every resident page below the new end, for an area that does not exist the break pointer at or above the end |
| PagingSpec.RemapsIff | src/mm-vm.c:137-167 | where free frames are mapped nowhere, after any size of -511 or below, some next growth gives a resident page another frame if and only if a resident page lies from the new end on, within as many pages as there are free frames |
| PagedMemory.RunRemapsIff | src/mm-vm.c:137-167 | so it does in every state of every run, of every process |
| PagedMemory.RemappedAfterRun | src/mm-vm.c:137-167 | on every device of three frames or more, two growths by a page, a size of -511 and a growth by a page give page 5, mapped to frame 1, the frame 2 |
| PagingSpec.StepKeepsInv | src/mm-vm.c:137-167 | every call by any process keeps the invariant: ordered and aligned limits, disjoint ranges, frames neither shared nor both free and mapped, and room in the 4 MB space for the frames that are left |
| PagedMemory.MappedForGood | src/mm.c:104-110 | once mapped, a page keeps its frame for the rest of the run |
| PagedMemory.GrowthMeaning | src/mm-vm.c:137-167 | in a run, whose sizes of either sign leave no resident page behind, a growth call passes the overlap check, moves the limits by the size rounded to pages, and succeeds exactly if the area is number 0 or below, the size is above -511 and enough frames are free; it then maps pages none of which was mapped before |
| PagedMemory.GrowthIsDisjoint | src/mm-vm.c:73-167 | in every state of every run: `vm_end <= bp`, both aligned; a page is resident exactly if one successful call mapped it, and only one; no frame is mapped twice or both mapped and free |
| PagedMemory.FramesAccounted | src/mm.c:125-161 | in every state of every run each frame is free, mapped by one page, or was lost by a call that could not be met in full; the numbers add up |
| PagedMemory.NothingLostIff | src/mm.c:150-156 | all frames are free or mapped if and only if no call has found some frames, but fewer than it asked for |
| PagedMemory.GetReturnsLastSet | src/libmem.c:234-295 | every read of a resident page in every run returns the byte its own process last wrote there, or 0, from inside the device |
| VmArea.Area.GetFree | src/libmem.c:440-471 | the loop on the linked list, cut or unlinked in place: the list holds what first fit leaves, and the result is what it grants |
| VmArea.GetFreeVmrgArea | src/libmem.c:436-471 | the same on the area found by number |
| VmArea.Area.Enlist | src/libmem.c:32-46 | 0 and the element at the head, or, for an empty one, -1 and nothing changed; into an empty list it brings whatever hangs on it |
| Regions.AvailIsLength | src/libmem.c:451 | the `int` holding the available size is right if and only if the region is below 2 GB |
| Regions.GetFreeTakesFirst | src/libmem.c:448-465 | the result is the front of the first region large enough, the ones before it are untouched, and it leaves the list exactly when it is used up |
| Regions.GetFreeNothingFits | src/libmem.c:442-470 | when no region is large enough the list is unchanged; from an empty list the status is -1, otherwise 0 with -1 in both fields of the result |
| Regions.EnlistMeaning | src/libmem.c:32-46 | a region that is not empty becomes the head with status 0, an empty one is refused with -1 |
| Regions.ConservesIffWithin | src/libmem.c:451-464 | a request that is met, of any size and on any list of ordered regions, conserves the space at every address if and only if what is granted ends within the region it is taken from |
| Regions.ConservesIffNonNegative | src/libmem.c:451-464 | which it does for every size that is not negative and, when the regions are below 2 GB, for no other |
| Regions.CutConserves | src/libmem.c:453-464 | granted front and remaining list cover what the list covered, with the same total size |
| Regions.RunConserves | src/libmem.c:436-471 | over any run of requests, insertions and releases, granted and free regions cover every address as often as what was there and what was inserted, and the sizes sum up |
| Regions.RunStaysDisjoint | src/libmem.c:436-471 | granted and free regions, of any size, are pairwise disjoint at the end of every run that starts from and inserts disjoint regions |

## Left out

- The bodies of the threads of `src/timer.c` and `src/os.c` are steps of transition systems over values, because they interleave; object identity of devices and processes is not modelled there.
- Paging.Pcb.PgGetPage: requires a resident page. The swap-in path (`src/libmem.c:203-231`) uses page numbers as frame numbers and copies from RAM to swap both times, so no memory it preserves could be stated.
- Paging.Pcb.PgGetVal: requires a resident page, for the same reason.
- Paging.Pcb.PgSetVal: requires a resident page, for the same reason.
- Paging.Pcb.IncVmaLimit: one memory area, as `init_mm` makes it, and no 32-bit overflow.
- VmArea.GetFreeVmrgArea: requires that the area exists; the source dereferences NULL if it does not.
- VmArea.Area.Enlist: requires an element that is not on the list; one that is would close a cycle.
- Memphy.SwapCpPage: requires a random-access source for a random-access destination; otherwise the copied byte is undefined in the source.
- Scheduler.Scheduler.InitScheduler: leaves out `slot[]`, which is never consulted, and the queues `ready_queue` and `run_queue`, which MLQ_SCHED does not use.
- Scheduler.Scheduler.PutProc: leaves out the three queue pointers stored in the process, which only `__sys_killall` reads.
- Cpu.Process.Run: the effect of an instruction is a parameter.
- DispatchProperties.OnlyNextSlotBlocks: a section under `queue_lock` is one step, so waiting for that lock is not a state; no section waits for anything else, so the lock is always released.
- PagingSpec.GrownMeaning: no 32-bit overflow.
- `find_victim_page`: it pops the range that was mapped last.
- `__alloc` and `__free`: growth returns the old `sbrk` while mapping starts at the old `vm_end`, and `__free` enlists the symbol-table slot it then resets.
- `free_pcb_memph` (its test is the wrong way round), `init_pte`, the printing functions of `src/mm.c`.
- The sequential reads and writes of `src/mm-memphy.c`, which are reached only when they answer -1.
- `running_list` beyond its own contents: it fills up silently and the scheduler never dequeues it.
- Termination of an idle CPU: it takes the `continue` at `src/os.c:61` without testing `done`; the bounds are on the work done. No fairness across priority levels is claimed, since selection is strict.
- `__sys_killall` and killing as a step of the concurrent scheduler: it takes no lock.
- `free_mem`, which does nothing, and the register wrappers of `src/cpu.c:13-59`.
- Parsing, printing, the system-call table, thread creation and joining, `malloc` failure, `src/paging.c`, and the branch without MLQ_SCHED.
