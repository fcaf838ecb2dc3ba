# The locOS: a verified model

The locOS is a simulated operating system in C. A clock thread ticks; on every tick it executes one
instruction of a four-opcode processor on every occupied hardware thread. A scheduler thread sweeps
the hardware threads, saves the contexts of processes whose quantum is over, puts them back into a
queue, and starts others by Round Robin, by virtual deadline (BFS), or by forty static priority
levels. A loader turns text files, written by a program generator, into processes with page tables
in a simulated physical memory.

This project models that system in Dafny and proves what it promises about whole runs.

## How the model is built

The clock's tick and the scheduler's activation both run under one mutex, so the system is a state
machine with two atomic steps, and a run is any sequence of them (`Scheduler.Run`). The files
follow the program:

| file | models |
|---|---|
| Arith.dfy | the C arithmetic used: 32-bit words, truncating division, two's complement |
| Memory.dfy | physical memory, frame bitmap, page tables, address translation |
| Process.dfy | process control blocks and the circular queue with its BFS removal |
| Machine.dfy | hardware threads, cores, the processor, a core's share of a tick |
| InstructionSet.dfy | what one tick does to a running process, by the digits of its instruction |
| Scheduler.dfy | the scheduler's decisions and the two steps, as functions on values |
| Decisions.dfy, Trace.dfy | those decisions in numbers: deadlines, places, who is requeued and started in what order; what the trace reports |
| Kernel.dfy | the same as objects that update their fields, proved equal to the functions |
| Loader.dfy, ElfFile.dfy, FileRules.dfy | building processes from programs; parsing program files; what the parser makes of each line |
| Prometheus.dfy | the program generator |
| Boot.dfy | start-up: from files to a kernel about to run |
| Handshake.dfy | the clock and timer threads' condition variables |
| Population.dfy, Conservation.dfy | who is in the system; nobody is lost or duplicated while the load fits |
| Overload.dfy | one activation at any load: what is taken in, who is left waiting, when a thread idles |
| OverloadRuns.dfy, OverloadStarts.dfy, OverloadTally.dfy | runs of loads that do not fit, from the states start-up hands over; which loads are safe in every run |
| Solo.dfy, Transparency.dfy | one process alone; time-sharing is invisible |
| Termination.dfy, Lifetimes.dfy, Marks.dfy | everything completes; time to live and page-table marks against cycles received |
| RoundRobinFairness.dfy, BfsFairness.dfy, BfsWaiting.dfy, PriorityDispatch.dfy | the promises of each policy |
| GeneratedRuns.dfy, EndToEnd.dfy | what a generated program computes, alone and on the system |
| WholeSystem.dfy | from draws through files, start-up and turns of clock and scheduler to final memory |

The C code that updates state in place is modelled by classes with the same fields and loops
(`Process.ProcessQueue`, `Memory.PhysicalMemory`, `Machine.Core`, `Kernel.Queues`,
`Kernel.Hardware`, `Kernel.Kernel`, `Loader.Loader`). Each method's postcondition gives the whole new
state through a function on values; the theorems are about those functions.

## The main results

A load fits (`Conservation.Fits`) when the processes are no more than the ready queue's capacity (Round
Robin), no more than half of it plus one (BFS), or have legal priorities and fill no level beyond its
capacity (priorities). Start-up guarantees this for Round Robin only; `Boot.WhenLoadFits` and
`Boot.WhenPrioritiesFit` give the exact conditions for the other two.

- `Transparency.TimeSharingIsTransparent`: under any topology and any interleaving, each process's program
  counter, instruction register, sixteen registers and virtual memory are those of its image run alone for
  exactly the cycles it received. Every load start-up delivers is covered except one that overfills a BFS queue,
  priority loads that do not fit as long as the preemption routine has nothing to replace (`Overload.RoutineIdle`).
- `WholeSystem.GenerateLoadAndRun`: under Round Robin, in either sync mode and with one or more ticks
  between activations, for all draws whose files fit, the files are written, parsed, loaded, time-shared and
  executed until every process has completed, and each one's memory holds its code unchanged and its data
  folded block by block modulo 2^32. `WholeSystem.GeneratedFilesCompute` says the same of every policy for a
  load that fits.
- `Conservation.ProcessConservation`, `Termination.AllComplete`, `RoundRobinFairness.WaitBounded`,
  `BfsFairness.BoundedOvertaking`, `BfsWaiting.BfsWaitBounded` and `PriorityDispatch.ActivationIsOptimal`: with
  a load that fits no process is lost, the system finishes, and each policy keeps its promise.
- `OverloadStarts.BfsSafeIff` and `OverloadTally.PrioritiesSafeIff`: for every capacity, the BFS loads of a given
  size and the priority loads of a given draw of legal priorities that start-up can deliver lose nobody in any
  run if and only if they fit. `WholeSystem.GenerateTooManyAndRun` runs the objects from draws to the loss.
- `Marks.MarksAndLives`: in every interleaving a process's page-table entries are marked dirty for exactly the pages
  its own cycles have stored to, and an executing process has no life left if its program has reached EXIT and its
  initial life less its cycles otherwise.
- `Loader.Loader.CreateThenDestroy`: loading a program and destroying its page table restores the frame
  bitmap and its count, whether the load succeeds or fails.

Where the code meets its promise only under a condition, the exact condition is proved and a failing
input given:

| promise | holds exactly when | failing input |
|---|---|---|
| BFS selection takes out one process | chosen offset plus size is at most capacity plus one (`Conservation.SelectTakesOneIff`) | `Process.FullRingLoses` |
| no run of a BFS load loses a process | it is at most half the queue plus one (`OverloadStarts.BfsSafeIff`) | `OverloadStarts.GeneratedCrowdLoses` |
| an expired process goes back to its queue | the queue has a place for it (`Conservation.RequeueKeepsIff`) | `OverloadRuns.PrioritiesLoseBeyondLevel` |
| no run of a load of given priorities loses a process | no priority is drawn more often than its level has places (`OverloadTally.PrioritiesSafeIff`) | `OverloadTally.OverdrawnIsLost`, `OverloadStarts.GeneratedLevelLoses` |
| an activation leaves no thread idle while somebody waits | under priorities, all arrivals are taken in or the levels fill the free threads (`Overload.WorkConservingIff`) | `OverloadStarts.LevelBusyIff` |
| an activation starts the most urgent, as many as it has threads for | the levels take in every arrival, or hold enough for every free thread and no arrival left over is more urgent than the last one started (`Overload.OptimalIff`) | `OverloadStarts.LessUrgentCanStart` |
| the first activation takes in every arrival | the load fits the levels (`Overload.FirstActivationEmptiesIff`) | `OverloadStarts.LessUrgentCanStart` |
| the preemption routine is not called | nobody is left in the ready queue, or a hardware thread is free (`Overload.PreemptsIff`) | `OverloadRuns.SecondPreempts` |
| the scan finds the first minimum | -1 does not occur before the last entry as the least deadline (`Process.ScanIsSound`) | `Process.SentinelMisleads` |
| the loader stays inside its buffer | the data address does not lie past the words of the file (`ElfFile.OverrunIff`) | `Prometheus.NoWordsOverrun` |
| the clock comes back from a tick | the timer was waiting for it (`Handshake.ClockComesBackIff`) | `Handshake.FirstTickCanBeLost` |

The failing loads are states that the loading loop hands over (`OverloadStarts.Delivered`): of files with a
text section and no words, and for all generated programs that do not end within the first quantum. The
generator's default of fifty programs is more than forty levels of two places can be sure to hold.

The sentinel is safe in every state reachable with legal priorities from any load that start-up accepts:
under clock sync (`BfsFairness.DeadlinesNonNegative`, `BfsFairness.ScansSoundUnderClock`) and under timer sync
with the quantum as the timer's interval (`BfsFairness.TimerDeadlinesNonNegative`,
`BfsFairness.ScansSoundUnderTimer`) every scan chooses the first minimum. Only the bound of the shift that
follows depends on the load.

## Where code and documentation differ

The model follows the code.

- README.md:28 and docs/MEMORIA.md:123-133 say that a TLB speeds up translation; `sys/memory.c:188-215` never consults it.
- docs/SCHEDULER.md:96 and 109-115 describe a queue sorted by deadline, with the deadline computed when the
  process is created; the code keeps arrival order, scans for the minimum, and sets the deadline at the first dispatch.
- docs/SCHEDULER.md:133 calls the priority policy preemptive; with all processes loaded before the scheduler
  starts and no level loaded beyond its capacity, the preemption routine is never called
  (`Conservation.PreemptionNeverReached`).
- The comment at sys/process.c:840-842 says that the levels together have no more places than the ready queue; that
  holds exactly from eighty places on (`Decisions.LevelPlaces`).
- docs/MEMORIA.md:350-359 says that the page table and its frames are freed when a process ends;
  `sys/process.c:616-620` only drops the pointer.
- docs/MEMORIA.md:328 says that assignment sets the program counter to 0; `sys/machine.c:216-222` restores it.

## Model

| member | source | states |
|---|---|---|
| Process.ScanIsSound | sys/process.c:360-371 | the scan with -1 as "none yet" picks the earliest entry of least deadline if and only if it is not the case that -1 occurs before the last entry with nothing below it |
| Process.ShiftOutRemoves | sys/process.c:379-388 | when chosen offset plus size is at most capacity plus one, the shift loop removes exactly the chosen entry and keeps the order of the rest |
| Process.ShiftOutLoses | sys/process.c:379-388 | beyond the bound the loop loses the front entry along with the chosen one, doubles one other, and keeps the order of the rest |
| Process.ShiftOutExact | sys/process.c:379-388 | for distinct entries the loop is the removal if and only if the bound holds; beyond it the front entry is gone |
| Process.FullRingLoses | sys/process.c:379-388 | in a full ring of three with the last entry chosen, the front entry is lost and the next one doubled |
| Process.SentinelMisleads | sys/process.c:360-371 | with deadlines -1 and 3 the scan chooses the 3 |
| Process.ShiftAlwaysFits | sys/process.c:379-388 | the bound holds whatever entry is chosen exactly when the queue is at most half full plus one |
| Process.ShiftedIsShiftOut | sys/process.c:379-388 | the slot-by-slot shift round the end of the ring has the effect on the queue's contents that the value-level removal describes |
| Process.ProcessQueue.Enqueue | sys/process.c:113-123 | appends at the rear, refuses and changes nothing exactly when full |
| Process.ProcessQueue.Dequeue | sys/process.c:126-136 | takes the oldest entry and leaves the rest in order; nothing from an empty queue |
| Process.ProcessQueue.RemoveMinDeadline | sys/process.c:355-391 | returns the entry the scan chooses and leaves the ring holding what the shift loop leaves |
| Memory.PhysicalMemory.constructor | sys/memory.c:7-57 | kernel frames reserved and counted, user frames free, memory zero |
| Memory.PhysicalMemory.AllocateFrame | sys/memory.c:68-82 | hands out the lowest free user frame and counts it; with none free returns 0 and changes nothing |
| Memory.PhysicalMemory.FreeFrame | sys/memory.c:85-95 | frees an allocated user frame, ignores kernel, free and out-of-range ones, and the count stays the number of set bits |
| Memory.PhysicalMemory.AllocateKernelSpace | sys/memory.c:106-123 | bump allocation against the 32-bit sum the code compares; the mark never moves back exactly when an accepted size stays within the kernel area without wrapping |
| Memory.PhysicalMemory.CreatePageTable | sys/memory.c:144-171 | a fresh range of kernel words with every entry empty; other entries untouched |
| Memory.PhysicalMemory.DestroyPageTable | sys/memory.c:174-183 | frees the frames of exactly the present entries |
| Memory.AllocateManyMarks | sys/memory.c:68-82 | successive allocations give distinct user frames that were free, and set exactly their bits |
| Memory.AllocateThenFree | sys/memory.c:68-95 | freeing the frames of any number of allocations gives the bitmap back |
| Loader.FreeingUndoesLoading | sys/memory.c:174-183 | the frames of a table's present entries are the ones its load allocated, in order, so freeing them gives back the bitmap from before the load |
| Loader.Loader.CreateThenDestroy | sys/loader.c:224-334 | creating, filling and destroying a page table restores bitmap and count of allocated frames, whether the load succeeded, ran out of frames, or got no table |
| Memory.TranslateIsWord | sys/memory.c:188-215 | shift, mask and division of a mapped byte address lead to the word of the page's frame |
| Memory.ReadSeesView | sys/memory.c:218-230 | a mapped load returns the word the process's view shows at the address |
| Memory.AddressesExclusive | sys/memory.c:188-215 | different words of one process, or words of two processes, never share a physical word |
| Memory.ProcessesAboveKernel | sys/memory.c:7-57 | no word of a process lies in the kernel's area, where the page tables are |
| Memory.StoreIsLocal | sys/memory.c:233-250 | a mapped store changes one word of one process's view, keeps the isolation invariant and every other view |
| Memory.StoreMarks | sys/memory.c:233-250 | a store to a loaded page sets the dirty and accessed bits of that page's entry; its frame and flags, every other entry and the frame bitmap stay as they were |
| Memory.UnmappedAccess | sys/memory.c:188-250 | an access to a page that is not loaded reads or writes physical word 0, and a store marks the absent entry all the same |
| Memory.PhysicalMemory.MmuWriteWord | sys/memory.c:233-250 | the store as code: memory word, dirty and accessed bits, nothing else |
| Machine.Core.Assign | sys/machine.c:196-247 | the next slot gets the process with its saved registers; slots stay compact |
| Machine.Core.Remove | sys/process.c:623-641 | clearing and shifting in place removes one thread, keeps the order, leaves the rest idle |
| Machine.Core.ExecuteInstructionCycle | sys/machine.c:418-480 | one fetch, decode, execute on live registers and memory, skipped for a terminated process |
| InstructionSet.LoadTick | sys/machine.c:352-363 | with 0RAAAAAA fetched, one tick puts the word at AAAAAA into register R, moves on by four, takes one from the life, and changes nothing else |
| InstructionSet.StoreTick | sys/machine.c:368-378 | with 1RAAAAAA it writes register R to AAAAAA |
| InstructionSet.AddTick | sys/machine.c:383-397 | with 2RXY0000 it puts the sum of X and Y modulo 2^32 into R |
| InstructionSet.ExitTick | sys/machine.c:402-415 | with F as first digit it terminates the process with no life left and the program counter where it was |
| InstructionSet.UnknownTick | sys/machine.c:474-478 | with any other first digit it terminates the process, which keeps what is left of its life |
| InstructionSet.IdleTick | sys/machine.c:418-435 | a stopped process, or one without a page table, only ages |
| Machine.Core.Tick | sys/clock.c:48-73 | the null-skipping loop over all slots ages and executes exactly the occupied ones, once each, in order |
| Solo.CycleIsSoloStep | sys/machine.c:418-480 | a cycle on the shared machine is one step of the process alone, and no other process's view moves |
| Scheduler.PutTakesSlot | sys/machine.c:196-247 | starting a process uses up exactly one free hardware thread |
| Decisions.OffsetIsShare | sys/process.c:670-672 | a hundred offsets lie within a hundred of quantum times priority, on the side of zero |
| Decisions.RequeuedByUrgency | sys/process.c:645-678 | of two processes that one activation puts back under BFS the more urgent never gets the later deadline |
| Decisions.SweepRequeues | sys/process.c:645-678 | everyone waiting after a sweep was waiting before or comes from an expired thread, its registers saved, its counter cleared, its deadline the clock plus its share |
| Decisions.QuantumRules | sys/process.c:607-645 | a process leaves its thread when it has stopped, when its life is over, or at the activation that completes its quantum, under timer sync the first one |
| Decisions.ActivationStarts | sys/process.c:738-775 | after an activation every hardware thread has the process it had, one activation older, or one that was waiting, with its registers restored and, the first time under BFS, a deadline of the clock plus its share |
| Decisions.LevelPlaces | sys/process.c:842-850 | a level has a fortieth of the ready queue's places, rounded down, and two below eighty; all levels together have no more places than the ready queue if and only if that has eighty |
| Decisions.LevelRules | sys/process.c:427-444 | a process gets a place if and only if its priority is -20 to 19 and the level of that number has one of these places left; it goes to the rear |
| Decisions.ReadyRules | sys/process.c:113-123 | under the other policies it gets a place if and only if the ready queue is not full, at the rear |
| Decisions.TransferInOrder | sys/process.c:715-735 | the transfer takes arrivals from the front into their levels, in order, up to the first that has no place, which becomes the last in the ready queue |
| Decisions.OrderAt | sys/process.c:583-590 | the sweep meets a thread after those of the cores before and of the later slots of its own |
| Decisions.OneActivationPerTick | sys/process.c:556-565 | under clock sync a second activation in the same tick does nothing |
| Decisions.StepsApart | sys/clock.c:32-77 | only a tick moves the clock, by one, and it leaves the queues alone; an activation leaves the memory alone |
| Trace.LiveOrReported | sys/process.c:607-626 | with a load that fits, at any moment of any run each process of the load is live or has been reported as completed, exactly once |
| Trace.ReportsAreCounted | sys/process.c:607-626 | at any load the completed counter is the number of these reports |
| Kernel.Queues.EnqueueToScheduler | sys/process.c:427-444 | routes by policy, refuses a bad priority or a full queue and then changes nothing |
| Kernel.Queues.SelectNextProcess | sys/process.c:349-424 | the policy's choice leaves its queue and only its queue; nothing and no change when nobody is ready |
| Kernel.Queues.TransferArrivals | sys/process.c:715-735 | arrivals go to their level in order until one is refused, which goes back to the rear |
| Kernel.Hardware.CanExecute | sys/machine.c:179-193 | true exactly when some core has a free hardware thread |
| Kernel.SweepQueuesAppend | sys/process.c:583-706 | sweeping two groups of threads one after the other is sweeping them together |
| Kernel.Kernel.SweepCore | sys/process.c:590-703 | the backward loop with in-place removal handles every thread of the core exactly once and keeps the survivors in order |
| Kernel.Kernel.Sweep | sys/process.c:583-706 | the nested loops handle every executing process exactly once, core by core |
| Kernel.Kernel.DispatchReady | sys/process.c:738-775 | the loop starts processes until none is ready or no hardware thread is free |
| Kernel.Kernel.Activate | sys/process.c:550-775 | the whole activation on queues, cores and memory objects is one step of the state machine |
| Kernel.Kernel.Tick | sys/clock.c:32-77 | the whole tick on those objects is the other step |
| Population.OrderKept | sys/process.c:590-703 | after the sweep the survivors are met in the order they were met before |
| Population.TickPointwise | sys/clock.c:48-73 | a tick leaves every thread in its slot with one unit of life less or its program ended |
| Population.ActivateEach | sys/process.c:583-775 | what sweep, save, requeue and dispatch keep for one process, an activation keeps for all |
| Conservation.RequeueSucceeds | sys/process.c:678 | with a load that fits the requeue whose result the code ignores is never refused |
| Conservation.RequeueKeepsIff | sys/process.c:678 | an expired process stays in the system if and only if its queue has a place for it |
| Conservation.SweepSettles | sys/process.c:583-706 | with a load that fits, what was queued or executing is afterwards queued, executing or counted as completed, and nothing else |
| Conservation.TransferEmptiesReady | sys/process.c:715-735 | with a load that fits every arrival reaches its level and the ready queue is left empty |
| Conservation.TransferKeepsAll | sys/process.c:715-735 | at any load the transfer loses and doubles nobody |
| Overload.TransferEmptiesIff | sys/process.c:715-735 | the transfer empties the ready queue if and only if every arrival's priority is legal and no level is asked to hold more than its capacity |
| Overload.FirstActivationEmptiesIff | sys/process.c:715-775 | from start-up the first activation empties the ready queue if and only if the load fits |
| Overload.PreemptsIff | sys/process.c:715-727 | an activation calls the preemption routine if and only if somebody still waits in the ready queue and the sweep left no hardware thread free |
| Conservation.SelectTakesOne | sys/process.c:349-424 | every policy's selection takes out exactly one process, the one it returns, under BFS with a load that fits |
| Conservation.SelectTakesOneIff | sys/process.c:349-424 | for distinct pids selection takes out exactly the process it returns, under BFS if and only if offset plus size is at most capacity plus one; otherwise the front process is lost and another doubled |
| Conservation.ReadyHalfFull | sys/process.c:379-388 | within the BFS load the shift loop's bound always holds |
| Conservation.DispatchMoves | sys/process.c:738-775 | the dispatch loop moves processes from queues to threads and loses none, under BFS with a load that fits |
| Conservation.ActivateConserves | sys/process.c:583-775 | with a load that fits, exactly the terminated and the out-of-life leave in an activation |
| Conservation.ProcessConservation | sys/process.c:534-775 | with a load that fits, in every run the live pids are distinct, were all loaded, and with the completed ones add up to the load |
| Conservation.NobodyDoubled | sys/process.c:534-775 | in every run of any load but an overfull BFS queue the live pids are distinct and were all loaded; for priorities that do not fit, as long as the preemption routine has nothing to replace |
| OverloadRuns.BfsLosesBeyondHalf | sys/process.c:379-388 | for every capacity, quantum of at least 5 and sync mode: more than half the queue plus one, all executing, the first urgent; when the first quantum ends the last to arrive is gone, another is on two threads, and nobody has completed |
| OverloadRuns.PrioritiesLoseBeyondLevel | sys/process.c:678 | for every capacity and priority: more processes of it than its level holds, on one thread; when the first quantum ends the first to arrive is gone without having completed |
| OverloadRuns.FirstTransferFills | sys/process.c:715-735 | from start-up a load of one priority fills a fortieth of the ready queue's places, two at the least, in the order of arrival, and the others stay in the ready queue |
| OverloadRuns.SecondPreempts | sys/process.c:715-727 | with that load the second activation enters the preemption branch and the first does not |
| OverloadRuns.UniformConservesIff | sys/process.c:715-775 | a load of one priority on an idle core: the first activation leaves no thread idle while somebody waits if and only if the level holds them all or fills every thread |
| OverloadRuns.UniformOptimalIff | sys/process.c:715-775 | the same activation starts the most urgent if and only if the same holds, so also when arrivals no more urgent are left over |
| OverloadStarts.TextOnlyIsDelivered | sys/kernel.c:496-527 | files with a text section and no words, as many as the ready queue holds and of any priorities, are loaded and handed over |
| OverloadStarts.BfsSafeIff | sys/process.c:355-391 | for every capacity and number of processes: all BFS loads of that size that start-up can deliver lose and double nobody in any run if and only if they are at most half the queue plus one |
| OverloadTally.PrioritiesSafeIff | sys/process.c:645-678 | for every capacity and every draw of legal priorities: all loads of these priorities, in whatever order they arrive and on whatever machine, lose and double nobody in any run if and only if none is drawn more often than its level has places |
| OverloadTally.OverdrawnIsLost | sys/process.c:678 | for every draw in which one is, some order of arrival and machine lose a process within three turns, nobody having completed and the preemption routine having changed nothing |
| OverloadTally.PrioritiesSafeInPlaces | sys/process.c:842-850 | the same in numbers: no priority is drawn more often than a fortieth of the ready queue's places, two at the least |
| OverloadTally.ActivationDrops | sys/process.c:645-678 | at any load and on any topology, an activation that finds an expired process with its level full loses that process |
| OverloadTally.LevelSafeIff | sys/process.c:645-678 | in particular all loads of one priority are safe if and only if their level holds them |
| OverloadStarts.LevelBusyIff | sys/process.c:715-775 | none of these loads leaves a thread of a core idle while one waits after the first activation if and only if their level holds them |
| OverloadStarts.LessUrgentCanStart | sys/process.c:715-775 | a start-up state whose first activation starts a process of priority 0 and leaves one of priority -20 in the ready queue, so that the most urgent are not started |
| OverloadStarts.GeneratedCrowdLoses | sys/process.c:379-388 | for all generated files, start-up's BFS load beyond half the queue plus one loses the last to arrive when the first quantum ends, if no program is over by then |
| OverloadStarts.GeneratedLevelLoses | sys/process.c:678 | for all generated files, start-up's load of one priority beyond its level loses the first to arrive when its first quantum ends, if its program is not over by then |
| WholeSystem.GenerateTooManyAndRun | sys/kernel.c:348-613 | the whole pipeline as objects under BFS with too many programs: draws are written to files, loaded and run, and the last process is gone while another is on two threads |
| Conservation.PreemptionNeverReached | sys/process.c:715-727 | with all processes loaded beforehand and no level loaded beyond its capacity, the branch that calls the preemption routine is never entered |
| Transparency.TickIsFlat | sys/clock.c:48-73 | the nested loops over cores are one pass over all threads, memory threaded through |
| Transparency.ActivateTransparent | sys/process.c:645-678 | saving and restoring contexts keeps every process where its own run is |
| Transparency.TimeSharingIsTransparent | sys/process.c:576-775 | for every load but an overfull BFS queue, in every state of every interleaving each process's context and memory are those of its image run alone for the cycles it received; for priorities that do not fit, as long as the preemption routine has nothing to replace |
| Termination.TickDrains | sys/clock.c:58-63 | a tick takes at least one unit of life from each executing process |
| Termination.ActivateIsWorkConserving | sys/process.c:738-775 | with a load that fits, after an activation nobody waits or every hardware thread is busy |
| Overload.WorkConservingIff | sys/process.c:715-775 | at any load, after an activation nobody waits or every hardware thread is busy if and only if the policy has no levels, or every arrival is taken in, or the levels hold at least as many as there are free threads; of the code when the preemption routine is idle |
| Termination.TurnDrains | sys/process.c:607-775 | with a load that fits, while anyone is live a turn of one tick or more uses up life |
| Termination.AllComplete | sys/process.c:607-643 | with a load that fits, under all three policies, both sync modes and any positive number of ticks between activations, everything completes within the initial sum of lives plus one turn |
| Lifetimes.TtlCountsCycles | sys/process.c:61-66 | for every load but an overfull BFS queue, at any moment of any run a process not yet stopped has its initial life less its cycles to live, never below zero; for priorities that do not fit, as long as the preemption routine has nothing to replace |
| Lifetimes.LeavesOnlyWhenServed | sys/process.c:607-643 | with a load that fits, in every run a process leaves only when its program has stopped or it has had its life in cycles |
| Lifetimes.LeavesExactlyOnTime | sys/process.c:607-643 | with a load that fits and one activation per tick it leaves after exactly the smaller of the two |
| Marks.MarksAndLives | sys/memory.c:245-246 | for every load but an overfull BFS queue, at any moment of any run the entries of each process are those it was handed over with, marked for exactly the pages its cycles have stored to, and an executing process has no life left once its program has reached EXIT, else its initial life less its cycles |
| Marks.DirtyIffStored | sys/memory.c:233-250 | in the same states an entry is dirty if and only if its page has been stored to, and it keeps its frame |
| Marks.ExitEndsLife | sys/machine.c:402-415 | in the same states an executing process whose program has reached EXIT is terminated with no life left |
| RoundRobinFairness.DispatchTakesPrefix | sys/process.c:738-775 | dispatch takes a prefix of the ready queue, one process for each free hardware thread |
| RoundRobinFairness.TurnMovesUp | sys/process.c:583-775 | everyone still waiting moves up by as many places as hardware threads changed hands |
| RoundRobinFairness.WaitBounded | sys/process.c:583-775 | the process at ready index p is dispatched within quantum * (p / T + 1) activations on T hardware threads |
| RoundRobinFairness.FairFromTheStart | sys/process.c:583-775 | with a load that fits, under every policy the waiting bounds' premises hold after the first activation and after every later one |
| BfsFairness.DeadlinesNonNegative | sys/process.c:667-676 | in every clock-sync state reachable with legal priorities from any load start-up accepts, a queued deadline is 0 or at least 1 and was set no later than the last activation |
| BfsFairness.TimerDeadlinesNonNegative | sys/timer.c:25-43 | the same bound on deadlines when activations come from a timer whose interval is the quantum |
| BfsFairness.ScansSoundUnderClock | sys/process.c:360-371 | in every such state every scan of the next activation chooses the first minimum of the queue it finds |
| BfsFairness.ScansSoundUnderTimer | sys/process.c:360-371 | the same when activations come from that timer |
| BfsFairness.SelectsFirstMinimum | sys/process.c:355-391 | with such deadlines and a load that fits, selection removes the first minimum and keeps the order of the rest |
| BfsFairness.BoundedOvertaking | sys/process.c:645-678 | with legal priorities and a load that fits, while a process waits every other process is dispatched at most once |
| BfsWaiting.BfsWaitBounded | sys/process.c:645-775 | with a load of n processes that fits on T hardware threads, a process found waiting is dispatched within quantum * ((n - 1) / T + 1) further turns |
| PriorityDispatch.DispatchTakesMostUrgent | sys/process.c:393-416 | one activation starts, in order, as many of the most urgent processes as there are free hardware threads |
| PriorityDispatch.DispatchIsOptimal | sys/process.c:738-775 | nobody left queued is more urgent than anybody started, equals leave first in first out, and the loop stops only for want of a process or a thread |
| PriorityDispatch.ActivationIsOptimal | sys/process.c:715-775 | with a load that fits, every activation of every reachable state starts the most urgent of all that are queued after its sweep and leaves nobody in the ready queue |
| Overload.OptimalIff | sys/process.c:715-775 | at any load, in every reachable state an activation starts as many as it has free threads for, none less urgent than anybody left in a level or in the ready queue, if and only if the levels take in every arrival, or hold enough for every free thread and no arrival left over is more urgent than the last one started; of the code as long as the preemption routine is idle |
| Handshake.StepsAreLocal | sys/clock.c:26-83 | no step of one thread moves the other, except that a tick wakes a waiting timer and an examination a waiting clock |
| Handshake.ClockAndTimerInLockstep | sys/timer.c:11-50 | in every run the timer examines each tick before the next one, and its interrupts are exactly the interval apart |
| Handshake.StuckForever | sys/clock.c:76-80 | once a tick's broadcast has found no timer waiting the clock never ticks again |
| Handshake.TickAnsweredIff | sys/clock.c:76-80 | a tick is answered if and only if the timer was already waiting for it |
| Handshake.ClockComesBackIff | sys/clock.c:76-80 | some run brings the clock back to take the next tick if and only if the timer was waiting for this one |
| Handshake.FirstTickCanBeLost | sys/timer.c:14-18 | the first tick can come before the timer waits, and then the clock never ticks again |
| Memory.EmptyEntry | sys/memory.c:157-168 | an entry of a new table is writable, for the user, not loaded, not touched |
| Loader.PagesTight | sys/loader.c:218-221 | the pages for a number of bytes are just as many as hold them; past the last whole page of 32 bits the sum wraps to none |
| Loader.PagesOfTight | sys/loader.c:243-253 | a program gets just the pages from address 0 to the end of its later segment |
| Loader.SegmentsInPlace | sys/loader.c:291-321 | every word of data lies at its address, every word of code at its own unless data lies there, zeros elsewhere |
| Loader.LoadPageIsPrivate | sys/loader.c:269-289 | taking a free frame for a page keeps the isolation invariant and every loaded process's view |
| Loader.LoadPageExtendsView | sys/loader.c:269-322 | the page just filled is appended to the process's view |
| Loader.FrameAvailableIff | sys/memory.c:68-82 | a frame can be had exactly when the count is below the number of frames |
| Loader.Loader.FillPage | sys/loader.c:286-321 | clearing, copying code and copying data leave in each word what the header assigns to it, segments that straddle pages included |
| Loader.Loader.CreateProcess | sys/loader.c:224-334 | succeeds exactly when table and frames can be had; then every word of every page reads as the header says and no entry has been touched; in either case earlier processes' views are intact and freeing the present entries' frames gives the bitmap back |
| ElfFile.PrintThenValue | programs/prometheus/prometheus.c:58-90 | a printed hexadecimal number has the value printed |
| ElfFile.PrintWidth | programs/prometheus/prometheus.c:58-90 | a number that fits prints in exactly the width asked for |
| ElfFile.ScanPrinted | sys/loader.c:81-102 | printed digits followed by anything else scan back to their value |
| FileRules.DigitsInBothCases | sys/loader.c:91-97 | the letters A to F stand for 10 to 15 in either case, and the printed ones are capitals |
| FileRules.NoNumber | sys/loader.c:91-97 | a line that does not start with a digit, after blanks, has no number |
| FileRules.ScanIgnoresCase | sys/loader.c:91-97 | a number reads the same in capitals and in small letters |
| FileRules.InertLinesIgnored | sys/loader.c:81-173 | a line without a section name and without a number may stand anywhere in a file without changing the parse |
| FileRules.EarlyLinesIgnored | sys/loader.c:81-173 | lines before the first section line do not count, numbers or not |
| FileRules.WordsCounted | sys/loader.c:82-98 | the first pass counts the words behind the first text line, modulo 2^32 |
| FileRules.WordsCollected | sys/loader.c:149-170 | the second pass collects the words behind the first line that starts with a dot, whatever it names, as far as the buffer goes |
| FileRules.SizesOf | sys/loader.c:109-118 | code reaches up to a data section behind the text and is everything without one; the sizes add up to the counted words |
| FileRules.LastAddress | sys/loader.c:82-90 | the address of a section is the last one a line gives for it |
| FileRules.DataFirstMisread | sys/loader.c:82-197 | words between a data line and the first text line are not counted but collected, so they are loaded in place of the code and as many at the end are dropped |
| ElfFile.SecondPassFindsAll | sys/loader.c:151-173 | the second pass collects the words the first one counted, as far as the buffer goes |
| ElfFile.BufferIsFilled | sys/loader.c:109-141 | even when the data size wraps, the buffer holds exactly the counted words and the second pass fills it |
| ElfFile.CopiesInsideIff | sys/loader.c:192-197 | both copies out of the buffer stay inside it if and only if the data address does not lie past the words |
| ElfFile.ParsedSegmentsDisjoint | sys/loader.c:109-118 | code and data of a parsed program have the header's sizes and never overlap |
| ElfFile.ParsedLife | sys/loader.c:126-132 | the time to live is three ticks a word, as a 32-bit product, within 10 and 100; a product past the positive half counts as negative |
| ElfFile.OverrunIff | sys/loader.c:109-197 | a file makes the loader read past its buffer if and only if its data address lies more words behind the text than the file has words; every other file with a text line parses |
| Prometheus.TruncatedFileOverrunsIff | sys/loader.c:109-197 | a generated file cut short does so if and only if the cut falls within the code |
| Prometheus.NoWordsOverrun | sys/loader.c:109-197 | the smallest program's two section lines without any words do so |
| ElfFile.LoadProgram | sys/loader.c:44-206 | the two loops over the file compute the parse |
| Prometheus.Emit | programs/prometheus/prometheus.c:49-91 | the generator's loops write the file of its draws, offsets wrapping at the end of the data |
| Prometheus.MemoryDecodes | sys/machine.c:325-337 | decoding a load or store word gives the opcode, register and 24-bit address it was made of |
| Prometheus.AddDecodes | sys/machine.c:325-347 | decoding an addition gives its three registers |
| Prometheus.WordsSpell | programs/prometheus/prometheus.c:64-90 | each emitted line reads as the word it means |
| Prometheus.BlockSpelled | programs/prometheus/prometheus.c:64-83 | a block is four lines of eight digits: loads into R and R + 1 from data words K and K + 1, their sum into R + 2, a store to K + 2, registers modulo 16 and data words modulo their number |
| Prometheus.TextSpelled | programs/prometheus/prometheus.c:58-59 | the text line says 000000 |
| Prometheus.DataSpelled | programs/prometheus/prometheus.c:60-61 | the data line says in six digits where the code ends |
| Prometheus.FileRoundTrip | sys/loader.c:81-196 | for all draws the loader recovers exactly the code and data, addresses and life |
| GeneratedRuns.BlockRuns | sys/machine.c:352-400 | four instructions add two data words into a third modulo 2^32 and change nothing else in memory |
| GeneratedRuns.ReachesBlock | sys/machine.c:418-480 | after 4i cycles exactly i blocks have had their effect |
| GeneratedRuns.GeneratedProgramRuns | sys/machine.c:402-480 | after any number of cycles: within its pages, code unchanged, EXIT in cycle 4b + 1 and not before, then the folded data |
| GeneratedRuns.GeneratedStaysInPages | sys/memory.c:200-206 | no generated program ever uses an address outside its pages |
| GeneratedRuns.EnoughPages | sys/loader.c:243-252 | the pages the loader computes cover code and data, and one less would not |
| EndToEnd.LifeSuffices | sys/loader.c:126-132 | the life is enough to reach EXIT exactly for programs of at most 100 code words |
| EndToEnd.ShortProgramsRunToExit | sys/process.c:607-643 | with a load that fits, under every interleaving such a program leaves only after its EXIT, with its data folded |
| EndToEnd.CyclesOnLeaving | sys/clock.c:56-70 | with a load that fits and one activation per tick it gets one cycle a word, and a longer one exactly 100 |
| EndToEnd.LongProgramsAreCut | sys/process.c:607-643 | with such a load a longer program's memory is where 100 instructions of its run leave it, before its EXIT |
| EndToEnd.AllProgramsCompute | sys/clock.c:32-77 | from the booted state with a load that fits to completion, in either sync mode, every process ends with its code intact and its data folded |
| WholeSystem.GeneratedFilesCompute | sys/clock.c:32-77 | from start-up on generated files with a load that fits, a hundred turns a program and one more, of any positive number of ticks each, complete all of them, each file's process showing its result |
| WholeSystem.GenerateLoadAndRun | sys/kernel.c:348-613 | the whole pipeline as objects under Round Robin in either sync mode: draws are written to files, loaded and run, and every file's process shows its result |
| Boot.LoadFile | sys/kernel.c:505-518 | a file yields a queued process with the priority drawn for it exactly when it parses and table, frames and queue have room; the others are untouched either way |
| Boot.LoadPrograms | sys/kernel.c:496-527 | the processes handed over are apart in memory, distinct, at the start of their own image and of the priority drawn for their file; when all files fit none is left out |
| Boot.WhenLoadFits | sys/process.c:113-116 | after start-up the load bound holds for Round Robin always, for BFS exactly up to half the queue plus one |
| Boot.WhenPrioritiesFit | sys/process.c:427-444 | under the priority policy it holds exactly when the drawn priorities are legal and none is drawn more often than its level has places |
| Boot.StartsLegal | sys/loader.c:121-124 | with draws in the legal range every queued process has a legal priority and deadline 0 |
| Boot.StartUpIsAccepted | sys/kernel.c:496-613 | whatever the load, start-up delivers an idle system of distinct processes, each at the start of its own program with its life ahead and its pages untouched |
| Boot.StartUpIsBooted | sys/kernel.c:496-613 | for a load that fits start-up delivers the state the theorems about runs start from, legal priorities and deadlines included |
| Boot.StartUpOfGenerated | sys/kernel.c:496-613 | for generated files it delivers the premises of the end-to-end theorems |
| Boot.StartSystem | sys/kernel.c:348-527 | memory, ready queue, machine, scheduler and loader share nothing and start idle; under the priority policy there are forty levels, each of a fortieth of the ready queue's places and two at the least |

## Left out

- Kernel.Queues.TransferArrivals: records that the branch calling `preempt_lower_priority_processes` (sys/process.c:491-529) was entered, but not what the routine does; it shifts the copies of PCBs and not the hardware threads, so no state of the model describes its effect.
- Kernel.Kernel.Activate: has the same gap when somebody still waits in the ready queue and no hardware thread is free, and no other (`Overload.PreemptsIff`); when the arrival is no more urgent than the least urgent process running, the routine changes nothing.
- Conservation.NobodyDoubled: for a priority load that does not fit, this and with it `Transparency.TimeSharingIsTransparent`, `Lifetimes.TtlCountsCycles`, `Overload.OptimalIff` and `Overload.WorkConservingIff` describe the code until an arrival more urgent than a running process finds no thread free (`Overload.PreemptsIff`); what the preemption routine then does is not modelled.
- OverloadStarts.TextOnlyIsDelivered: a file without words makes the loader ask `malloc` for 0 bytes (sys/loader.c:141-148, 176-190), for which the C standard also allows a null pointer; the model takes the pointer to be non-null. The failing loads of `OverloadStarts.BfsSafeIff` and `OverloadTally.PrioritiesSafeIff` are of such files; those of generated files are not.
- Memory.PhysicalMemory.CreatePageTable: a page count whose 32-bit sum with the allocation mark wraps; the C code then writes past its memory, and its one caller never asks for more than 2^20 pages.
- The process generator thread (sys/process.c:143-327): the kernel disables it.
- `remove_process_from_core` (sys/machine.c:253-298): nothing calls it.
- The TLB and `mmu.enabled`: reset on assignment and never consulted.
- The legacy array of PCB copies in each core: written, never read by the code modelled here.
- PCB pointers: a PCB is a value owned by the one queue slot or hardware thread that holds it, so a stale pointer left in a slot is not represented.
- CPUs: the loops over CPUs and their cores run over one list of cores in the same order.
- Page tables: entries are kept apart from the memory words of the kernel area, one entry a word; a page number past the kernel area counts as not present. Bit-field layout is not modelled.
- Addresses outside a process's pages: the transparency theorems assume that the solo run stays in its pages; this is proved for generated programs.
- Signed overflow: ADD wraps, as two's complement hardware does; the C standard leaves it undefined.
- Counters: the clock, quantum times priority, and the number of completed processes are unbounded integers.
- ElfFile.LoadProgram: signs, a `0x` prefix and numbers of more than sixteen digits are not read as `sscanf` reads them, and a line is what one `fgets` call returns.
- What the C code does after reading past its buffer: the model reports the overrun and start-up skips the file.
- Destroying a page table: no code calls `destroy_page_table` (sys/memory.c:174-183); `Loader.Loader.CreateThenDestroy` says what it would restore.
- Handshake.ClockAndTimerInLockstep: one timer, no spurious wakeups, no shutdown, and none of the extra broadcasts of the priority policy.
- Shutdown, signals, command line, printing, file access, thread creation and failing `malloc`.
- Random draws are parameters: priorities at load, registers, offsets, sizes and data in the generator.
- Program names, `mm.code` and `mm.data`: stored, never used to execute.
