# A verified model of btlos

btlos simulates a small multi-processor operating system. CPU threads and a loader thread
advance in lockstep with a timer thread, take processes from a multi-level queue, and run one
instruction per time slot; each process has a virtual memory made of regions, pages and frames.
This project models that system in Dafny and proves what it guarantees.

`dafny verify dfyconfig.toml` checks everything.

## The model

**Threads and time.** `Barrier.dfy` is a step system for the timer and any number of devices:
one step is one lock operation, one access to `done`, `fsh` or `_time`, or one condition-variable
operation. Every interleaving is allowed, and sleepers may wake without a signal.
`BarrierTheorems.dfy` proves lockstep, the absence of lost wakeups and of deadlock, and a bound on
the steps between two ticks; `BarrierExit.dfy` how the timer ends.

**Scheduling.** `ProcQueue.dfy` and `Scheduler.dfy` are the array queues and the multi-level queue
with their loops, updated in place; they are proved to compute the closed forms of
`MultiLevelQueue.dfy`. `Fairness.dfy` proves quotas per round and bounded waiting for those closed forms.

**The whole simulation.** `Os.dfy` puts the CPU and loader threads on top of the barrier and the
multi-level queue. Their own steps between two barrier calls happen at the barrier's program point
`Work`. `OsInv.dfy` holds the invariant and its proof for each step. `OsTheorems.dfy` draws the
conclusions about shutdown, ownership, load times and progress, `OsQuantum.dfy` about what a CPU does
with a process from fetch to give-up, and `OsFairness.dfy` carries bounded waiting over. `OsCompletion.dfy`
proves that every process completes by a deadline computed from the configuration, unless a queue refused
it; `OsOverload.dfy` shows when queues do refuse processes. `OsIdle.dfy` shows when the program does not
end, and `OsTermination.dfy` a class of configurations in which it ends in every run.

**Memory.** `Regions.dfy` is the free-region scan on values, with its closed form;
`VirtualMemory.dfy` is allocation and release with what they keep over all runs; `Allocator.dfy`
is the code on linked nodes, proved to compute both. `Lru.dfy` is the list of recently used pages,
`MemPhy.dfy` the storage device with its frame list and the frame copy, `Pte.dfy` the frame number
in a page table entry. `LinkedList.dfy`, `Sequences.dfy` and `Options.dfy` are shared.

A process is named by its number, which stands for the pointer to its `pcb_t`.

### Assumptions

- Memory is sequentially consistent.
- `get_proc`, `put_proc` and `add_proc` are atomic. The source announces this ("Use lock to
  protect the queue", src/sched.c:113) but holds the lock only around the dequeue.
- No instruction faults; a fault ends the program (src/cpu.c:171-180).
- The clock and the counters do not overflow, and address arithmetic stays below 2^31.
- `init_mm` finds an empty list pointer and an empty page list, as it intends; the source leaves both unset.
- History variables (`slots` of a device; `place`, `log`, `addedAt`, `from`, `since` of the
  simulation; `pages` of the memory; `taken` of a storage device) record what happened and influence no step.

### Where the code and its own description differ

- `get_free_vmrg_area` is described as first-fit. Its loop does not stop at a fit, so it cuts every
  free region down to its length modulo the size and returns the last block. `Regions.FirstFitIff`
  and `VirtualMemory.ConservedIff` say exactly when this is a first-fit search and when no byte is
  lost; `VirtualMemory.FirstFitFails` is a run where it is neither.
- That routine does not return for a size of 0: `Regions.ScanEndsIff`, `VirtualMemory.ZeroSizeNeverReturns`.
- A CPU that reaches its loop head without a process never looks at `done` again, so the program
  need not end although all work is done: `OsIdle.IdleForever`, `OsIdle.NoJobsNoEnd`.
- `find_victim_page` frees the only node of a one-element list and leaves the head pointing to it:
  `Lru.RunTracks` says exactly which histories avoid that.
- `pg_getpage` means to bring a page in from swap, but both its copies go from RAM to swap: `MemPhy.SwapPages`.
- `PAGING_FPN` reads other bits than `pte_set_fpn` writes: `Pte.RoundTripIff`.
- `enqueue` drops a tenth process silently, and so does `put_mlq_proc` with a priority out of range.
  The simulation models the loss; `OsTheorems.LossNeedsOverfullPriority` excludes it priority by
  priority, and `OsOverload.OverloadLoses` says when it cannot be avoided.

## Model

| member | source | states |
|---|---|---|
| Barrier.StepInv | src/timer.c:26-88 | every step of the timer, of any device and of `main` keeps the protocol invariant: locks, flags, slot counts, sleepers |
| BarrierTheorems.Lockstep | src/timer.c:26-94 | in every run, completed slot counts of live devices differ by at most one, and a device using its slot sees a clock equal to its own count |
| BarrierTheorems.ClockMovesOnlyAtTheBarrier | src/timer.c:53-54 | the clock moves by one, only by the timer, only while every live device waits inside `next_slot` for this tick |
| BarrierTheorems.NoLostWakeup | src/timer.c:40-44 | in every run, a sleeper whose condition already holds still has its signal to come, from a thread that cannot be blocked |
| BarrierTheorems.NoDeadlock | src/timer.c:26-110 | while a thread is unfinished, some thread can take a step that is not a spurious wakeup |
| BarrierTheorems.StepLowersRank | src/timer.c:26-110 | between ticks every step lowers a rank; a spurious wakeup raises it by at most three |
| BarrierTheorems.RankBounded | src/timer.c:26-110 | the rank is linear in the number of devices |
| BarrierTheorems.NoEndlessSlot | src/timer.c:26-110 | the number of steps between two ticks is bounded by the rank and the spurious wakeups |
| BarrierTheorems.LocksFreeAtTheEnd | src/timer.c:144-159 | when `main` is done, all locks that `stop_timer` destroys are free and nobody sleeps |
| BarrierExit.LastTick | src/timer.c:26-68 | once every device has detached, at most one more tick happens in any continuation; none if the timer has counted them all in this round or finds `timer_stop` set first |
| BarrierExit.TimerEndsAlone | src/timer.c:64-68 | once all device threads are gone, the timer ends by its own steps, after exactly the ticks still to come, also if `timer_stop` is never set |
| ProcQueue.Queue.Empty | src/queue.c:11-17 | true exactly for the empty sequence |
| ProcQueue.Queue.Enqueue | src/queue.c:19-28 | appends, or changes nothing when nine entries wait |
| ProcQueue.Queue.Dequeue | src/queue.c:48-67 | the shifting loop removes and returns the first entry, reads stay inside the array |
| ProcQueue.FirstInFirstOut | src/queue.c:19-67 | over any history, accepted entries are the delivered ones followed by the waiting ones, at most nine |
| MultiLevelQueue.SkipKeepsGet | src/sched.c:150-179 | passing a queue that cannot be served changes neither the choice nor the result of `get_proc`, and the loop is one turn closer to its end |
| MultiLevelQueue.CursorSkipsOnlySpentQueues | src/sched.c:148-174 | the cursor leaves a priority only when it is empty or has used its full quota |
| MultiLevelQueue.ChoiceIsLeast | src/sched.c:124-180 | `get_proc` serves the least priority from the cursor on with a process and quota left; if there is none, it starts a new round at the least priority with a process |
| Scheduler.Scheduler.constructor | src/sched.c:75-92 | all queues empty, all slots zero, cursor at priority 0 |
| Scheduler.Scheduler.QueueEmpty | src/sched.c:58-73 | true exactly when all queues are empty |
| Scheduler.Scheduler.ResetSlots | src/sched.c:47-55 | all slot counters and the cursor are zero, the queues unchanged |
| Scheduler.Scheduler.ServeCurrent | src/sched.c:159-168 | takes the first process under the cursor and counts its slot, nothing else changes |
| Scheduler.Scheduler.NextQueue | src/sched.c:150-179 | moves the cursor on and starts a new round at priority 0 |
| Scheduler.Scheduler.Turn | src/sched.c:124-180 | one turn either serves as the closed form says or passes a queue and comes one turn closer |
| Scheduler.Scheduler.GetProc | src/sched.c:108-181 | the `while (1)` loop ends and returns process, cursor and slots of the closed form, after exactly the number of turns it predicts, at most 280 minus the cursor |
| Scheduler.Scheduler.PutProc | src/sched.c:183-222 | appends to the queue of the priority; dropped when that is full or the priority out of range |
| Fairness.RoundQuota | src/sched.c:144-173 | over any calls, between two resets priority `p` is served at most `140 - p` times, and its slot counter is that number |
| Fairness.GetShortensWait | src/sched.c:108-181 | every `get_proc` shortens the wait of each process that stays queued |
| Fairness.PutKeepsWait | src/sched.c:183-222 | no put lengthens the wait of a queued process |
| Fairness.DispatchedWithinWait | src/sched.c:108-222 | a process is handed out within its wait, after exactly those before it in its queue, under arbitrary interleaved puts |
| Fairness.BoundedWaiting | src/sched.c:108-222 | a process at position `k` of any priority is dispatched within `(k + 2) * 9870` calls of `get_proc` |
| OsInv.StepInv | src/os.c:55-188 | every step of every CPU, the loader, the timer and `main` keeps the invariant of the whole simulation |
| OsInv.CpuActInv | src/os.c:63-137 | every branch of `cpu_routine` keeps it |
| OsInv.LdActInv | src/os.c:159-187 | every branch of `ld_routine` keeps it |
| OsInv.QueuesTake | src/os.c:79-92 | fetching a process removes it from its queue and from no other |
| OsInv.QueuesPut | src/os.c:95-101 | putting a process back or adding it places it exactly once, or drops it |
| OsInv.MoveCpuDrain | src/os.c:112-117 | a CPU that stops is never the one a waiting process depends on |
| OsInv.LogAppend | src/cpu.c:121-131 | `run` executes the instruction at `pc` and advances it by one, in a slot in which the process has not run yet |
| OsTheorems.ShutdownComplete | src/os.c:55-188 | once all CPUs have stopped, all processes were added, all queues are empty and every process has run its whole code in order, or was refused because of its own priority |
| OsTheorems.LossNeedsOverfullPriority | src/queue.c:19-28 | a process is dropped only if its own priority is out of range or at least ten processes share it; other priorities do not matter |
| OsOverload.NoPlaceForAll | src/queue.c:19-28 | in any state, more unfinished processes of one priority than its queue and the CPUs hold have lost one |
| OsOverload.OverloadLoses | src/queue.c:19-28 | a priority with more processes than that, too long to finish before loading ends, loses one in every run that is long or cannot go on |
| OsOverload.QueueFullLossOccurs | src/queue.c:19-28 | for any number of CPUs, any priority in range and any time slice there is a run in which a full queue drops a process |
| OsTheorems.OutOfRangeIsLost | src/sched.c:183-222 | a process with a priority out of range is lost when added and never runs |
| OsTheorems.ExactlyOnePlace | src/os.c:75-102 | a loaded process is at one position of the queue of its priority, or on one CPU, or ended |
| OsTheorems.LoadTimeLaw | src/os.c:159-182 | process 0 is added in its start slot, every other at its start or one slot after its predecessor, whichever is later |
| OsTheorems.AddsOnTime | src/os.c:165-182 | when `add_proc` is about to be called, the clock shows that slot |
| OsTermination.LoadedOnTime | src/os.c:159-182 | process `j` has been added exactly from the slot of the load-time law on |
| OsTermination.DoneOnTime | src/os.c:184-187 | `done` is set in the slot after the last add, or in slot 0 without processes, whatever the CPUs do |
| OsQuantum.QuantumLaw | src/os.c:86-102 | whenever a step takes a process off its CPU, exactly min(time slice, rest of the code) instructions were executed since its dispatch, on that CPU, one in each consecutive slot |
| OsQuantum.GivesUpIff | src/os.c:86-102 | at its loop head a CPU gives its process up if and only if that quantum is used, and the process has ended if and only if its code has |
| OsQuantum.QuantumLeft | src/os.c:102-136 | a CPU about to run a dispatched process has part of the quantum left |
| OsQuantum.DispatchLaw | src/os.c:75-136 | from the step that fetches a process to the step that gives it up, its `pc` advances by exactly the quantum, in every interleaving |
| OsQuantum.NoProcessNoTime | src/os.c:75-102 | at its loop head a CPU without a process has `time_left` 0 |
| OsQuantum.OneInstructionPerSlot | src/os.c:133-136 | a process executes at most one instruction per slot over all CPUs, in the order of its code, each once |
| OsQuantum.NoSlotWasted | src/os.c:95-136 | when a slot ends, every CPU with a process has executed an instruction of it in that slot, unless the process has none |
| OsQuantum.TakesWhatThereIs | src/os.c:75-102 | a CPU without a process takes the one `get_proc` returns, and gives the slot up at its loop head exactly when all queues are empty |
| OsQuantum.QueuedHasWork | src/os.c:86-102 | a process in a queue has instructions left, or none at all |
| OsFairness.BoundedWaiting | src/sched.c:108-222 | in every interleaving of the simulation a process at position `k` of a queue is on a CPU within `(k + 2) * 9870` calls of `get_proc` by all CPUs |
| OsTheorems.NoDeadlock | src/os.c:55-188 | no reachable state with an unfinished thread is stuck |
| OsTheorems.NoEndlessSlot | src/os.c:55-188 | all threads together take boundedly many steps per slot |
| OsTheorems.StuckIff | src/os.c:55-188 | a run cannot go on, spurious wakeups aside, exactly when all threads have finished |
| OsIdle.IdleForever | src/os.c:75-85 | when all work is done, a CPU that is idle at its loop head stays there in every continuation, and the program never finishes |
| OsIdle.NoJobsNoEnd | src/os.c:75-85 | with CPUs and no processes, no run ever finishes |
| OsIdle.StopsUnlessIdle | src/os.c:75-85 | when all work is done and `done` is set, a CPU can still stop if and only if it is past its loop head |
| OsIdle.IdleIsReached | src/os.c:75-85 | a run that reaches such a state with an idle CPU |
| OsTermination.StopsThisSlot | src/os.c:112-117 | once `done` is set, a CPU whose fetch comes back empty has stopped by the next tick |
| OsCompletion.TickCompletion | src/os.c:63-137 | a tick after the last load finds the remaining work smaller than at the tick before |
| OsCompletion.CpuActCompletion | src/os.c:63-137 | no branch of `cpu_routine` increases the remaining work, and none leaves it unchanged without somebody still due to decrease it in this slot |
| OsCompletion.EveryProcessCompletes | src/os.c:55-188 | when the clock is past a deadline computed from the configuration, every process has executed its whole code, or was refused because of its own priority |
| OsCompletion.EveryLongRunCompletes | src/os.c:55-188 | every run with more than a computed number of steps, in any interleaving, has completed every process that was not refused |
| OsCompletion.EnoughStepsAre | src/os.c:55-188 | that number is linear in the number of CPUs times the deadline |
| OsCompletion.EveryFullRunCompletes | src/os.c:55-188 | every run that is long or cannot be extended has completed every process that was not refused |
| OsCompletion.FullRunExists | src/os.c:55-188 | every configuration has such a run, without any spurious wakeup |
| OsTermination.EveryRunEnds | src/os.c:55-188 | with at least as many long enough processes as CPUs, in queues that can hold them, every run in every interleaving has boundedly many steps |
| OsTermination.FinishingRun | src/os.c:55-188 | such a configuration has runs in which every thread finishes, with every process completed that was not refused |
| Regions.CarveClosed | src/mm-vm.c:834-874 | the scan leaves each region its length modulo the size and returns the last block of the last region that fits |
| Regions.FoundIff | src/mm-vm.c:834-879 | it succeeds exactly when some free region is long enough, and yields exactly `size` bytes |
| Regions.ResultIs | src/mm-vm.c:834-874 | the result is the last whole block of the last region that is long enough |
| Regions.RemainderIsFree | src/mm-vm.c:834-874 | what is left of each region is still free: all of it if too short, else its length modulo the size |
| Regions.CarveInside | src/mm-vm.c:834-874 | every resulting region lies inside an old free region |
| Regions.CarveApart | src/mm-vm.c:834-874 | disjoint free regions stay disjoint, also from the result |
| Regions.CarveAccount | src/mm-vm.c:834-874 | exactly the blocks cut off leave the free list |
| Regions.NoByteLostIff | src/mm-vm.c:834-874 | no free byte is lost if and only if one block is cut off |
| Regions.FirstFitIff | src/mm-vm.c:803-808 | the routine is the announced first-fit search if and only if at most one block of the size is free |
| Regions.ScanEndsIff | src/mm-vm.c:834-874 | the loop ends if and only if the size is positive or the list is empty |
| VirtualMemory.AllocRegionInv | src/mm-vm.c:92-164 | every `__alloc` keeps regions disjoint and below `sbrk`; a successful one gives exactly `size` bytes, touches no other symbol, and stores the start of the region if it stores an address |
| VirtualMemory.AllocAnswer | src/mm-vm.c:92-164 | it fails exactly when no free region fits and the pages served do not cover what is missing; it stores no address exactly on failure and when the space below `vm_end` suffices |
| VirtualMemory.AllocAboveSbrk | src/mm-vm.c:122-163 | `sbrk` and `vm_end` stay if a free region fits; else `vm_end` moves by the least number of pages, also on failure, and a new region starts at the old `sbrk` |
| VirtualMemory.FreeRegionInv | src/mm-vm.c:172-229 | every `__free` keeps that, succeeds exactly for a symbol with a region, which becomes the first free region, and else changes nothing |
| VirtualMemory.RegionsStayApart | src/mm-vm.c:92-229 | so after any run of allocations and frees |
| VirtualMemory.NoSharedByte | src/mm-vm.c:92-229 | no address belongs to two regions, live or free |
| VirtualMemory.AllocThenFree | src/mm-vm.c:92-229 | freeing what was just allocated puts exactly its bytes on the free list |
| VirtualMemory.AllocLeaks | src/mm-vm.c:92-164 | the bytes that a successful `__alloc` makes unreachable: what the symbol had, and every block cut off but the last |
| VirtualMemory.ConservedIff | src/mm-vm.c:92-229 | over any run every byte below `sbrk` stays live or free if and only if each successful allocation found its symbol without a region and at most one block of its size free |
| VirtualMemory.FirstFitFails | src/mm-vm.c:803-874 | allocating twice a size, freeing it and allocating the size returns the upper half and loses the lower one, where first fit would return the lower and keep the upper |
| VirtualMemory.ZeroSizeNeverReturns | src/mm-vm.c:834-874 | after any run, a request for 0 bytes does not return |
| VirtualMemory.AllocPageInvIff | src/mm-vm.c:122-163 | `vm_end` stays page-aligned, less than a page above `sbrk`, with all pages requested, if and only if `__alloc` succeeds |
| VirtualMemory.PageGrowth | src/mm-vm.c:719-755 | over any run of successful allocations the pages requested are those of the addresses from 0 up to `vm_end`, in order; up to 2^22 bytes these are pages 0, 1, 2, ..., each once |
| Allocator.Mm.constructor | src/mm.c:356-386 | no symbols, one empty free region |
| Allocator.Mm.Enlist | src/mm-vm.c:24-39 | a non-empty region becomes the new head, an empty one is refused |
| Allocator.Mm.TakeOverNext | src/mm-vm.c:849-861 | cloning the next node removes exactly the used-up region from the list |
| Allocator.Mm.CutAt | src/mm-vm.c:837-869 | cuts one block off the region at the cursor, in all three cases |
| Allocator.Mm.GetFreeVmrgArea | src/mm-vm.c:809-880 | the loop over the nodes computes the scan |
| Allocator.Mm.VmapPageRange | src/mm.c:103-169 | requests the pages one after the other until one is refused |
| Allocator.Mm.IncVmaLimit | src/mm-vm.c:719-755 | moves `vm_end` by the size first, then requests the whole pages the size needs; a refusal leaves it moved |
| Allocator.Mm.AllocTop | src/mm-vm.c:120-163 | takes the gap below `vm_end` if it suffices, else grows by whole pages |
| Allocator.Mm.Alloc | src/mm-vm.c:92-164 | computes the specified allocation on the heap structure |
| Allocator.Mm.Free | src/mm-vm.c:172-229 | computes the specified release |
| Lru.LruList.EnlistPgnNode | src/mm.c:418-449 | the relinking moves the page to the front and keeps the order of the others |
| Lru.LruList.FindVictimPage | src/mm-vm.c:764-795 | returns the last page and removes it; the list is usable afterwards if and only if it did not have exactly one page |
| Lru.RunTracks | src/mm.c:418-449 | after any history the list is usable if and only if no eviction met exactly one resident page; it then holds exactly the resident pages, each once, most recently accessed first |
| Lru.VictimIsLeastRecent | src/mm-vm.c:757-795 | after any history without such an eviction the victim is the resident page whose last access is oldest |
| Lru.StaleAfterOnePage | src/mm-vm.c:775-781 | one access and one eviction leave a dangling head, for good |
| MemPhy.Device.Format | src/mm-memphy.c:166-194 | the free frames are 0 up to the number of frames; the only frame of a one-frame device keeps an unset link |
| MemPhy.Device.GetFreeFp | src/mm-memphy.c:204-221 | hands out the first free frame, or fails on an empty list |
| MemPhy.Device.PutFreeFp | src/mm-memphy.c:229-241 | the frame becomes the first free one and is no longer taken |
| MemPhy.Device.MvCsr | src/mm-memphy.c:25-49 | the cursor ends at the offset, or at 0 for an offset outside the device |
| MemPhy.Device.Read | src/mm-memphy.c:59-101 | the byte at the address in both modes; outside the device an error in random mode, an unspecified byte in sequential mode |
| MemPhy.Device.Write | src/mm-memphy.c:111-157 | changes exactly the addressed byte in both modes, an error outside the device |
| MemPhy.FramesStayPartitioned | src/mm-memphy.c:204-241 | over any gets and puts of taken frames, each frame is free once or taken, and none is lost |
| MemPhy.FramesAfterFormat | src/mm-memphy.c:166-241 | from a format on, over any gets and puts of taken frames, every frame of the device is free once or taken, and none is lost |
| MemPhy.FormattedInOrder | src/mm-memphy.c:179-221 | after a format with `n` frames successive calls hand out frame 0, 1, 2, ... up to the last, and then fail |
| MemPhy.PutThenGet | src/mm-memphy.c:204-241 | a frame given back is the next one handed out, and taking it again undoes the put |
| MemPhy.SwapCpPage | src/mm.c:332-349 | for any devices and modes the destination frame becomes the source frame and no other byte changes |
| MemPhy.CopyFrameFrames | src/mm.c:332-349 | every other frame keeps its contents |
| MemPhy.SwapPages | src/mm-vm.c:331-341 | the two copies of `pg_getpage` for a full RAM leave RAM as it is: the wanted page is not brought in |
| MemPhy.VictimSavedIff | src/mm-vm.c:331-341 | after them the victim's contents are in its frame on swap if and only if the second copy goes elsewhere or brings the same contents; only those two frames of swap change |
| Pte.WhatIsWritten | src/mm.c:84-93 | writing sets the present bit, clears the swapped bit, puts 13 bits of the number into the low bits and keeps all others |
| Pte.WhatIsReadBack | src/mm.c:84-93 | the reader returns two bits of the frame number that was written |
| Pte.RoundTripIff | include/mm.h:70-110 | a frame number survives the round trip if and only if it is zero |

## Left out

- The interleavings inside `get_mlq_proc`: it is one atomic step of `Os.dfy`, as stated under Assumptions.
- The effect of instructions on memory: in `Os.dfy` an instruction only advances `pc` and is logged; the memory operations are modelled in the memory modules.
- `pg_getpage`, `pg_getval`, `pg_setval`, `__read`, `__write`: a page request is an event that the paging layer serves or refuses. The free-frame path never stores the entry back (src/mm-vm.c:296-300) and swap-in copies in the wrong direction (`MemPhy.SwapPages`), so contents are not preserved through them.
- `attach_event`: the initial state has all devices attached, in any order of the list.
- Allocator.Mm.Alloc: sizes from 2^31 on, which turn negative in the source, and symbols from 30 on, which lie outside the table, are excluded; so is a size of 0, with which the call does not return (`VirtualMemory.ZeroSizeNeverReturns`).
- VirtualMemory.AllocRegionInv: excludes the same sizes and symbols as `Allocator.Mm.Alloc`.
- Allocator.Mm.GetFreeVmrgArea: a size of 0 is excluded because the loop does not end with it (`Regions.ScanEndsIff`).
- Allocator.Mm.Enlist: a region whose link is already set is excluded when the list is empty, because it would bring its successors along; the source only passes regions without a link.
- Allocator.Mm.Free: symbol 30, which the range check lets through although the table ends at 29, is excluded because the source reads outside the table.
- VirtualMemory.FreeRegionInv: excludes symbol 30 as `Allocator.Mm.Free` does.
- MemPhy.SwapCpPage: frames that do not lie inside their device are excluded; for them the source writes bytes that it has not read.
- `free_pcb_memph`, `alloc_pages_range`, `enlist_framephy`, `init_pte`, `pte_set_swap`, several memory areas, `validate_overlap_vm_area`: unused, stubbed or deprecated.
- Parsing of configuration and program files, printing, failing `malloc`.
- `mem.c`, `paging.c` and the test framework in `ext`.
