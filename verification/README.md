# Models of a teaching kernel and its simulators, in Dafny

The repository holds a small 32-bit kernel and, beside it, programs that simulate what a kernel
does.  This project models four parts of it and proves what they are meant to guarantee:

* the **process and paging simulator**: seven queues of processes, a short-term scheduling policy,
  page replacement between memory frames and disk, one fixed sequence of sub-steps per tick;
* the **bounded buffer** shared by producer and consumer threads over one mutex and two condition
  variables;
* the **memory managers** of the kernel: a bitmap of 2^20 physical blocks, and a mapper that edits
  two-level page tables through a recursive window;
* the **line editor** of the kernel shell and its tokens.

`dafny verify dfyconfig.toml` checks everything.

## How it is built

A part that changes state in place is a class whose methods follow the source's loops and
branches; every method is tied to a function on values that says what it computes, and the
theorems are about those functions and the runs they generate.

| file | contents |
|---|---|
| Widths | the range of a 32-bit unsigned number |
| Seqs, Processes | the downward erase loops; pages, processes and getPage |
| PageReplacement | FIFO, LRU, CLOCK: specification, in-place versions, conservation |
| SchedulingPolicies | RR, PRIORITY, SD, LOTTERY, and any other policy as "some index is moved" |
| SimState | the simulator's state and each sub-step as a function; ticks and runs |
| SimFlow | how any sum over the processes moves in a tick |
| SimInvariants, SimTermination, SimAccounting, SimPaging, SimFrames, SimRoundRobin | the theorems about runs |
| SimTimes, SimResponse | when a process was admitted and first ran, and what the statistics make of it |
| SimPasses, SimPlaces | what a pass does with pages; where processes go at the start, on arrival and after a block |
| SimWedge | the exact condition on the input under which the simulation ends |
| Simulator | the simulator itself, in place (module Simulation) |
| Modular, BoundedBuffer | remainders along a counter; threads as a step relation |
| Bitwise, PhysicalMemory, VirtualMemory | C's bitwise operators, the bitmap, the page tables |
| KernelBoot, PageMapper | the address space vmmngr_init leaves; the mapper in place, through its pointers |
| ShellEditor | the line editor and the tokens |

Four fields record history and influence nothing: `Page.touched` (tick of the last hit or load),
`Process.readmitted` (came back from suspension), `State.terminated` (the processes that have
left) and `State.misjudged` (LRU evicted a frame touched two ticks or more after one that stayed).
`State.exited` records that the program ended itself because a page was on neither list.  The last
two are proved never to be set, `exited` on well-formed input.

Results about the code that a reader may not expect:

* Termination does not hold in general.  Under a limit of m, n jobs of which b block always end
  if and only if b < m or n <= m (`SimWedge.EndsIffFewBlockOrFewJobs`); jobs that are all submitted at
  time 0 end as well (`SimTermination.CannotWedgeEnds`).  The alternative is the wedged state, and no
  run does anything else (`SimTermination.FinishesOrWedges`).
* The 32-blocks-at-once path of `pmmngr_toggle_range` is wrong for every start that is not at a
  128 KiB boundary once 32 blocks are concerned (`PhysicalMemory.ExactIffAlignedOrShort`); the repository's
  README.md:35 speaks of 4 KiB alignment, the model follows the code.
* `pmmngr_init` toggles the kernel range instead of reserving it, so on usable entries the free
  blocks are the right ones if and only if the entries offer the whole kernel range
  (`PhysicalMemory.InitFreesExactlyIffKernelOffered`); `PhysicalMemory.EmptyMapFreesKernel` is an input
  that misses it.
* `map_page` does not clear a new table, so the other pages of its 4 MiB fault if and only if the
  block it got holds no stale present bit (`VirtualMemory.FreshTableIsCleanIff`);
  `KernelBoot.StaleWordIsMapped` is an input that misses it.
* The boot code does not clear the directory; `KernelBoot.RecursiveMapIsSoundIff` says exactly which
  left-over entries do harm.
* A pass that drops an expired page looks for the next one even if its first use is still ahead: it
  counts a miss and loads nothing (`SimPasses.PassMisses`).
* A line of 50 characters or more is dropped unparsed (`ShellEditor.TypedLine`).

## Model

| member | source | states |
|---|---|---|
| SimTermination.FinishesOrWedges | kernal/Process_scheduling/Simulate.cpp:152-191 | every run under every work-conserving policy reaches EmptyQueue or the wedged state (limit reached by blocked processes, nothing ready or running, somebody waiting) within a number of ticks fixed by its first state |
| SimTermination.FinishesIffNeverWedges | kernal/Process_scheduling/Simulate.cpp:164-191 | given that many ticks, a run has reached EmptyQueue if and only if no state of it was wedged |
| SimTermination.WedgedForever | kernal/Process_scheduling/Simulate.cpp:124-131 | a wedged state stays wedged whatever arrives: a blocked process may leave only while nobody waits |
| SimTermination.WedgedAlong | kernal/Process_scheduling/Simulate.cpp:124-131 | the same along a whole run: every state after a wedged one is wedged |
| SimTermination.CannotWedgeTick | kernal/Process_scheduling/Simulate.cpp:152-191 | "nobody still to come, and nobody blocked while somebody waits", "no more processes than the limit" and "fewer processes than the limit are blocked or may still block" are each kept by a tick and each rule out wedging |
| SimTermination.CannotWedgeEnds | kernal/Process_scheduling/Simulate.cpp:152-191 | from a start that meets one of these conditions every run that has had the time ends, whatever a work-conserving policy does |
| SimTermination.EndsOrWedged | kernal/Process_scheduling/Simulate.cpp:164-191 | any run that has had the time stands at EmptyQueue or at the wedge |
| SimTermination.ProgressTick | kernal/Process_scheduling/Simulate.cpp:164-191 | any tick of a state that is neither finished nor wedged lowers the measure of remaining execution, block time, time to arrival, live processes and the idle bit |
| SimWedge.EndsIffFewBlockOrFewJobs | kernal/Process_scheduling/Simulate.cpp:152-191 | the exact condition on the input: under a limit of m, n jobs of which b have a block time end for all times, pages and work-conserving policies if and only if b < m or n <= m |
| SimWedge.ManyBlockersWedge | kernal/Process_scheduling/Simulate.cpp:124-131 | the input that shows it, for every m <= b <= n with m < n, every replacement algorithm and every number of frames: well-formed jobs whose simulation wedges under round robin, m that block for long and others that arrive when those are blocked |
| SimInvariants.FullTestAgreesIffWithinLimit | kernal/Process_scheduling/Simulate.cpp:31-34 | the unsigned test of isSysFull equals the signed one that was meant if and only if the level has not passed the limit |
| SimInvariants.LevelAtEverySubStep | kernal/Process_scheduling/Simulate.cpp:164-182 | running + ready + blocked stays within the limit after every sub-step of a tick |
| SimInvariants.SoundTick | kernal/Process_scheduling/Simulate.cpp:164-191 | a tick keeps the invariant: level bounded, at most one running process, memory within its frames, _cpuIdle exactly when nothing runs |
| SimInvariants.SoundRun | kernal/Process_scheduling/Simulate.cpp:164-191 | the invariant holds in every state of every run |
| SimInvariants.RunningProcessInRange | kernal/Process_scheduling/Simulate.cpp:181-184 | after the policy is asked the processor is idle if and only if runningProcess is empty, so runningProcess[0] is in range when it is read |
| SimInvariants.ProcessesConserved | kernal/Process_scheduling/Simulate.cpp:59-145 | whatever is summed over all queues and the terminated processes by process identity is unchanged by a tick: nobody is lost, doubled or renamed |
| SimInvariants.ProcessesConservedRun | kernal/Process_scheduling/Simulate.cpp:164-191 | the same from the first state of a run to any other |
| SimInvariants.ExactlyOnePlace | kernal/Process_scheduling/Simulate.cpp:59-145 | a process counted once is in exactly one position of exactly one of the seven queues or among the terminated |
| SimAccounting.EveryJobInOnePlace | kernal/Process_scheduling/Simulate.cpp:152-191 | with distinct PIDs, in every state of every simulation a PID is somewhere if and only if it is a job's, and then in one place only |
| SimFlow.FlowTick | kernal/Process_scheduling/Simulate.cpp:164-191 | if no single move of a process raises a weight, no tick raises the sum of it over all queues; in the strict form arrivals, running and advancing blocks each lower it |
| SimAccounting.ProcessorTimeAccounted | kernal/Process_scheduling/Simulate.cpp:177-190 | when a simulation ends, ticks minus idle ticks are the execution times of all jobs (one tick for a job without any) plus one per job with a block time |
| SimAccounting.OutstandingTick | kernal/Process_scheduling/Simulate.cpp:91-122 | a tick takes exactly one from the processor ticks outstanding if a process was running, and none otherwise |
| SimAccounting.ServiceIsExecution | kernal/Process_scheduling/Simulate.cpp:51-57 | at the end accumulated service is the execution time of all jobs, and turnaround is waiting plus service |
| SimAccounting.StatisticsTick | kernal/Process_scheduling/Simulate.cpp:51-57 | at every tick turnaround = waiting + service, and service = execution time of the terminated |
| SimAccounting.WaitingTimeNonNegative | kernal/Process_scheduling/Process.cpp:100-102 | a process that terminates without ever having been re-admitted from suspension has a waiting time of zero or more, in every simulation |
| SimRoundRobin.BoundedWait | kernal/include/ProcessSchedulingAlgorithms.h:132-153 | under round robin the process at position p of the ready queue at the end of a tick gets the processor within 2(p+1) ticks, whatever arrives or unblocks |
| SimRoundRobin.TurnLength | kernal/include/ProcessSchedulingAlgorithms.h:132-153 | a turn lasts two ticks if that much is left to run and one otherwise, and a process with time left then stands last in line |
| SimRoundRobin.SettledAfterFirstTick | kernal/Process_scheduling/Simulate.cpp:181-189 | what BoundedWait asks of its starting state holds after every tick from a startable state |
| SimRoundRobin.SimulationsAreStartable | kernal/Process_scheduling/Simulate.cpp:152-160 | every simulation starts in a startable state, whatever the input |
| SimRoundRobin.BoundedWaitInSimulations | kernal/Process_scheduling/Simulate.cpp:152-191 | so in every simulation under round robin, after any tick, position p of the ready queue is served within 2(p+1) ticks |
| SimRoundRobin.TickTurns | kernal/Process_scheduling/Simulate.cpp:164-191 | one tick under round robin: the turn goes on, or the head of the ready queue gets it and the rest moves up, or nobody is ready |
| SimRoundRobin.BeforeAppends | kernal/Process_scheduling/Simulate.cpp:115-129 | before the policy is asked the ready queue has only grown at its end, and the running process is still there exactly if it has time and quantum left |
| SimPaging.PagesAlwaysFound | kernal/include/PageReplacementAlgorithms.h:13-112 | with distinct PIDs, matching page pids and non-empty page lists, in every simulation under FIFO, LRU and CLOCK: the exit for a missing page is never taken, memory never exceeds its frames, and every page of a ready or running process with execution left is in memory or on disk |
| SimFrames.FramesBelongToTheLive | kernal/Process_scheduling/Simulate.cpp:84-122 | in every state of every such simulation every frame in memory belongs to a ready or running process: whoever blocks, is suspended or terminates takes its frames along |
| SimPaging.PagedTick | kernal/Process_scheduling/Simulate.cpp:164-191 | page coverage is kept by a tick, in spite of getPage erasing pages and RemovePages erasing frames |
| SimPaging.LruEvictsStale | kernal/include/PageReplacementAlgorithms.h:40-73 | no call of LRU in any simulation, at an admission or for the running process, evicts a frame that was touched two ticks or more after a frame that stays |
| SimPasses.WantedPageIsIn | kernal/Process_scheduling/Simulate.cpp:184-186 | in every simulation on well-formed input, after any pass: if the running process has time left and its first page is alive and its use has begun, that page is in a frame; the pass counted one hit if it was there when the policy was asked and one miss otherwise; a hit leaves the frame marked and stamped with the next tick, a load marked under CLOCK and stamped under LRU |
| SimPasses.PagesGoInTurn | kernal/Process_scheduling/Process.cpp:67-85 | in every simulation, a process that comes to the processor with time left keeps its page list but for a first page that has begun and expired; one that stays on it loses a tick of its first page's life, and the page if that was the last |
| SimPasses.PassHits | kernal/Process_scheduling/Simulate.cpp:72-79 | a pass that looks for a key in memory counts a hit, stamps and marks the first frame with that key and leaves every other frame and the disk |
| SimPasses.PassMisses | kernal/Process_scheduling/Simulate.cpp:80-81 | otherwise it counts a miss and loads the page if its use has begun; for a page that has moved up before its first use the miss is counted and nothing is loaded |
| SimPasses.PassDrops | kernal/Process_scheduling/Simulate.cpp:69-71 | whatever is wanted, the list loses exactly an expired first page, and if no live page is looked for nothing is counted or moved |
| SimPasses.PassRests | kernal/Process_scheduling/Simulate.cpp:184 | a pass over an idle processor, or a process with no time left, touches no page and no counter |
| SimPasses.LastAdmittedLoads | kernal/Process_scheduling/Simulate.cpp:169-175 | after the admission loop the process admitted last has its first page in memory, if that page has a life |
| SimTimes.AdmitsInOrder | kernal/Process_scheduling/Simulate.cpp:169-175 | as many as there is room for leave the head of the waiting queue for the end of the ready queue, in order, with the present as submission time and nothing else changed |
| SimTimes.ReadmitsInOrder | kernal/Process_scheduling/Simulate.cpp:142-145 | the same for the suspended while nobody waits |
| SimTimes.StampsAreEntries | kernal/include/ProcessSchedulingAlgorithms.h:15-31 | in every state of every simulation whoever is ready, running or blocked carries as submission time the tick in which it last entered the ready queue, 0 if it was ready from the start |
| SimTimes.TurnaroundIsSinceEntry | kernal/Process_scheduling/Process.cpp:96-106 | whoever terminates in a tick was running, with the ticks since that entry as turnaround time and those less its execution time as waiting time |
| SimResponse.ResponseIsToFirstTurn | kernal/Process_scheduling/Process.cpp:96-98 | under every policy the response time of a process, wherever it is, is the time from its last entry before its first turn to that turn, and -1 before it |
| SimResponse.StatisticsAreSums | kernal/Process_scheduling/Simulate.cpp:51-57 | in every state the accumulated waiting, response and turnaround times are the sums over the terminated |
| SimPlaces.StartPlaces | kernal/Process_scheduling/Simulate.cpp:36-49 | the start in full: of the jobs submitted at 0 as many as the limit allows are ready and the others wait, in input order, with all their pages on disk; the others are still to come; every process has the fields of its job |
| SimPlaces.ArrivesWhenDue | kernal/Process_scheduling/Simulate.cpp:59-67 | nobody arrives before its submission time and nobody due stays behind |
| SimPlaces.BlocksCountDown | kernal/Process_scheduling/Simulate.cpp:124-139 | block times fall by one a tick; a blocked process whose block is over becomes ready if nobody waits and stays otherwise, a suspended one becomes ready-suspended in any case |
| SimPlaces.OnlyBlocksCountDown | kernal/Process_scheduling/Simulate.cpp:124-139 | and nobody else joins or leaves those queues there |
| SimPlaces.EveryProcessIsAJob | kernal/Process_scheduling/Simulate.cpp:152-191 | in every state of every simulation each process has the name, priority and execution time of one of the jobs |
| PageReplacement.ReplaceConservesPages | kernal/include/PageReplacementAlgorithms.h:13-112 | each replacement conserves the multiset of page identities over memory and disk and keeps memory within n frames |
| PageReplacement.ReplaceFinds | kernal/include/PageReplacementAlgorithms.h:13-112 | a wanted page that is on disk is found and is in memory afterwards, stamped with the present under LRU and with its reference bit under CLOCK; a page without life is never loaded |
| PageReplacement.ReplacePlaces | kernal/include/PageReplacementAlgorithms.h:20-110 | a loaded page goes behind the others while there is room, and under LRU and CLOCK to the place of the frame it replaces, the others staying where they are |
| PageReplacement.ClockEvictsFirstUnreferenced | kernal/include/PageReplacementAlgorithms.h:86-102 | CLOCK on a full memory passes at most n frames, evicts the first unreferenced one from the normalised hand on (the one under the hand if all are referenced) and clears exactly the bits it passed |
| PageReplacement.FifoEvictsInLoadOrder | kernal/include/PageReplacementAlgorithms.h:16-30 | FIFO on a full memory, over any sequence of hits and loads at any times: memory is a window of n keys that moves on by one for every load, so k loads evict the k frames that have been there longest and hits change nothing |
| PageReplacement.ClockStepsUnique | kernal/include/PageReplacementAlgorithms.h:86-102 | the number of frames passed is determined: all before are referenced and the next is not |
| PageReplacement.LruVictimUnique | kernal/include/PageReplacementAlgorithms.h:49-50 | the LRU victim is determined: least stamp, frame 0 if it has that, otherwise the last frame that has |
| PageReplacement.LruVictim | kernal/include/PageReplacementAlgorithms.h:48-50 | the downward scan finds that frame |
| PageReplacement.FindPage | kernal/include/PageReplacementAlgorithms.h:16-18 | the first position whose value and pid match, or the length of the list |
| PageReplacement.Frames.Search | kernal/include/PageReplacementAlgorithms.h:16-18 | the search loop of all three algorithms computes it |
| PageReplacement.Frames.RunFifo | kernal/include/PageReplacementAlgorithms.h:13-37 | FIFO on the two lists in place, outcome included |
| PageReplacement.Frames.RunLru | kernal/include/PageReplacementAlgorithms.h:40-73 | LRU on the two lists in place: the loop evicts the unique LRU victim |
| PageReplacement.Frames.Sweep | kernal/include/PageReplacementAlgorithms.h:86-91 | the endless loop of CLOCK ends from any hand position and any bits, at the frame the specification names |
| PageReplacement.Frames.RunClock | kernal/include/PageReplacementAlgorithms.h:74-112 | CLOCK on the two lists and the persistent hand in place |
| PageReplacement.Frames.Run | kernal/Process_scheduling/Simulate.cpp:172-186 | the call through the algorithm pointer |
| SchedulingPolicies.LotteryProportional | kernal/include/ProcessSchedulingAlgorithms.h:93-122 | for non-negative priorities and fewer than 2^31 - 1 tickets in all, the range in which the source reduces its random number to 0..total, process k wins exactly 10 * (priority + 1) of these draws, the first process one more |
| SchedulingPolicies.LotteryWinner | kernal/include/ProcessSchedulingAlgorithms.h:98-112 | every draw has a holder, and process k wins exactly the draws in its interval under the first-match scan of the overlapping ranges |
| SchedulingPolicies.TicketsDoNotWrap | kernal/include/ProcessSchedulingAlgorithms.h:98-102 | below 2^32 tickets the ranges are the running sums of the priorities |
| SchedulingPolicies.Cpu.Run | kernal/Process_scheduling/Simulate.cpp:181-182 | every policy is work conserving: it fails only on an empty ready queue, and otherwise moves exactly one process to the empty running list, setting its response time on its first turn; and each of RR, PRIORITY, SD and LOTTERY moves the process it should, with its quantum |
| SchedulingPolicies.Cpu.RunRR | kernal/include/ProcessSchedulingAlgorithms.h:132-153 | RR in place: the head of the queue moves, with quantum 2 |
| SchedulingPolicies.Cpu.RunPriority | kernal/include/ProcessSchedulingAlgorithms.h:65-91 | PRIORITY in place: the first process of maximal priority moves |
| SchedulingPolicies.Cpu.RunSD | kernal/include/ProcessSchedulingAlgorithms.h:155-173 | SD in place: the head moves, with the limit divided by the queue length as quantum |
| SchedulingPolicies.Cpu.DealTickets | kernal/include/ProcessSchedulingAlgorithms.h:98-102 | the ticket loop, in 32-bit arithmetic |
| SchedulingPolicies.Cpu.RunLottery | kernal/include/ProcessSchedulingAlgorithms.h:93-129 | LOTTERY in place for any draw: the first holder moves, process 0 if there is none |
| SchedulingPolicies.Cpu.Move | kernal/include/ProcessSchedulingAlgorithms.h:117-121 | the common end of the policies: response time set once, one process moved |
| SchedulingPolicies.TicketsKeepJobs | kernal/include/ProcessSchedulingAlgorithms.h:98-121 | handing out tickets changes nothing about the jobs themselves |
| Processes.GetPageSettles | kernal/Process_scheduling/Process.cpp:67-85 | after a call of getPage that returned a live page every further call returns one and the same page and changes nothing; that page is no page when the call had dropped an expired one and the next first use is ahead |
| Processes.GetPageDrops | kernal/Process_scheduling/Process.cpp:67-85 | getPage removes the first page exactly when its use has begun and it has no life left, changes nothing else, and returns the head of what remains exactly if that is alive and the old head's use had begun |
| Seqs.TakenIsReversed | kernal/Process_scheduling/Simulate.cpp:60-64 | what a downward erase loop moves out leaves in reverse order: simultaneous arrivals and unblocks change places |
| Simulation.Simulator.constructor | kernal/Process_scheduling/Simulate.cpp:8-28 | a new simulator is in the initial state |
| Simulation.Simulator.IsSysFull | kernal/Process_scheduling/Simulate.cpp:31-34 | the unsigned test |
| Simulation.Simulator.StartProcess | kernal/Process_scheduling/Simulate.cpp:36-49 | submission time 0 goes to ready or, if full, to waiting, with its pages on disk; any other time to incoming |
| Simulation.Simulator.TerminateProcess | kernal/Process_scheduling/Simulate.cpp:51-57 | the four accumulated times |
| Simulation.Simulator.CheckIncomingQueue | kernal/Process_scheduling/Simulate.cpp:59-67 | the downward erase loop performs SimState.Arrive: due processes enter waiting in reverse order, the others keep theirs |
| Simulation.Simulator.PageInMemory | kernal/Process_scheduling/Simulate.cpp:69-82 | true without effect if nothing runs or no page is wanted; a hit stamps and marks the first match; otherwise a miss |
| Simulation.Simulator.FindFrame | kernal/Process_scheduling/Simulate.cpp:72-74 | its loop, with getPage called afresh each time, finds the first match and leaves the process as it is |
| Simulation.Simulator.RemovePages | kernal/Process_scheduling/Simulate.cpp:84-88 | the downward erase loop leaves exactly the frames of other processes, in order |
| Simulation.Simulator.CheckRunningProcess | kernal/Process_scheduling/Simulate.cpp:91-122 | in place, SimState.CheckRunning: block, suspend, terminate, preempt or run on |
| Simulation.Simulator.EndTurn | kernal/Process_scheduling/Simulate.cpp:96-114 | the branches for a process with no time left |
| Simulation.Simulator.CheckBlockedOnly | kernal/Process_scheduling/Simulate.cpp:124-131 | first loop: all block times count down; those over leave in reverse order, only while nobody waits |
| Simulation.Simulator.CheckBlockedSuspended | kernal/Process_scheduling/Simulate.cpp:132-138 | second loop: the same without the condition |
| Simulation.Simulator.CheckReadySuspendedQueue | kernal/Process_scheduling/Simulate.cpp:142-145 | the loop performs SimState.Readmit, whose effect is SimTimes.ReadmitsInOrder |
| Simulation.Simulator.EmptyQueue | kernal/Process_scheduling/Simulate.cpp:147-150 | the loop condition of the simulation |
| Simulation.Simulator.StartProcesses | kernal/Process_scheduling/Simulate.cpp:159-160 | the loop over the input |
| Simulation.Simulator.AdmitWaiting | kernal/Process_scheduling/Simulate.cpp:169-175 | the admission loop performs SimState.Admit, whose effect is SimTimes.AdmitsInOrder and SimPasses.LastAdmittedLoads |
| Simulation.Simulator.Schedule | kernal/Process_scheduling/Simulate.cpp:181-182 | the policy call when nothing runs; under RR the exact dispatch |
| Simulation.Simulator.TouchPages | kernal/Process_scheduling/Simulate.cpp:184-186 | paging of the running process performs SimState.Touch, whose effect is SimPasses.PassHits, PassMisses, PassDrops and PassRests |
| Simulation.Simulator.Advance | kernal/Process_scheduling/Simulate.cpp:184-190 | paging and the three counters |
| Simulation.Simulator.Tick | kernal/Process_scheduling/Simulate.cpp:164-191 | one pass of the loop is a tick of the specification |
| Simulation.Simulator.Loop | kernal/Process_scheduling/Simulate.cpp:164-191 | from a state that cannot wedge the loop ends at EmptyQueue within the measure, through a run of the specification |
| Simulation.Simulator.StartSimulation | kernal/Process_scheduling/Simulate.cpp:152-191 | on well-formed input that cannot wedge (all submitted at 0, or no more jobs than the limit, or fewer jobs than the limit with a block time): it ends within the measure, no page is missing, processor time and service add up |
| Simulation.Simulator.Watch | kernal/Process_scheduling/Simulate.cpp:152-191 | on any input, well-formed or not: any number of passes of the loop is a run of the specification, and once there have been as many as the measure it has ended or is wedged |
| BoundedBuffer.BufferIsFifo | kernal/Thread/pro_con.c:71-98 | in every interleaving consumed is a prefix of produced, the rest is the circular window from out to in, in = produced mod size, out = consumed mod size, count = produced - consumed within 0..size |
| BoundedBuffer.NoDeadlock | kernal/Thread/pro_con.c:68-103 | in every interleaving of at least one producer and one consumer, spurious wake-ups included: no wake-up is lost, the threads are never all parked, and some thread can move by itself |
| BoundedBuffer.FreeSupply | kernal/Thread/pro_con.c:72-80 | with the mutex free and a thread parked, the items (or the room) it waits for do not exceed the woken threads of its role |
| BoundedBuffer.NeverAllParked | kernal/Thread/pro_con.c:68-103 | producers and consumers together are never all parked |
| BoundedBuffer.InvStep | kernal/Thread/pro_con.c:68-103 | every step of every thread keeps mutual exclusion, the FIFO window and the wake-up bound for both roles |
| BoundedBuffer.InvRun | kernal/Thread/pro_con.c:68-103 | so does every interleaving |
| BoundedBuffer.ItemsKeepMoving | kernal/Thread/pro_con.c:68-103 | with n threads, among any 4n + 5 consecutive steps without a spurious wake-up an item changes hands |
| BoundedBuffer.TransferWithin | kernal/Thread/pro_con.c:68-103 | a stretch without a transfer is bounded by the rank of its first state plus three steps per spurious wake-up |
| Modular.ModIsRemainder | kernal/Thread/pro_con.c:77 | the remainder by repeated subtraction, in which the buffer's counters are stated, is that of the % operator |
| BoundedBuffer.CircularBuffer.Produce | kernal/Thread/pro_con.c:76-78 | the producer's critical section in place |
| BoundedBuffer.CircularBuffer.Consume | kernal/Thread/pro_con.c:94-96 | the consumer's critical section in place |
| PhysicalMemory.ExactIffAlignedOrShort | kernal/mem/phymem.c:109-129 | pmmngr_toggle_range flips exactly the blocks of the outward-rounded range if and only if the start's block is the first of its word (128 KiB alignment) or fewer than 32 blocks are concerned |
| PhysicalMemory.ToggleFlips | kernal/mem/phymem.c:117-128 | the exact effect for every start: whole words from the start's word on, then a tail; a block under both is flipped back |
| PhysicalMemory.RangeWithoutWrap | kernal/mem/phymem.c:109-118 | a range that ends at 4 GiB, where the end wraps to 0, covers what it should |
| PhysicalMemory.InitOnUsableMap | kernal/mem/phymem.c:37-53 | on usable, disjoint entries a block is free after pmmngr_init if and only if it is offered or in the kernel's 4 MiB, but not both |
| PhysicalMemory.FreeIffUsableMemory | kernal/mem/phymem.c:44-52 | in the fields of the entries: outside the kernel's 4 MiB a block is free after pmmngr_init if and only if an entry of type 1 with a zero high half and a start of 1 MiB or more covers it; entries of other types may lie anywhere |
| PhysicalMemory.OtherTypesStayUsed | kernal/mem/phymem.c:46 | a map without entries of type 1 frees nothing outside the kernel's 4 MiB |
| PhysicalMemory.InitFreesExactlyIffKernelOffered | kernal/mem/phymem.c:37-53 | so the free blocks are the offered ones less the kernel's if and only if the map offers the whole kernel range |
| PhysicalMemory.EmptyMapFreesKernel | kernal/mem/phymem.c:37-53 | an input that misses it: a map without entries leaves the kernel's own first block free |
| PhysicalMemory.InitParity | kernal/mem/phymem.c:37-53 | for any map at all: a block is free if and only if an odd number of toggles covers it |
| PhysicalMemory.LowMemoryStaysUsed | kernal/mem/phymem.c:44-52 | nothing below 1 MiB is ever freed as long as no entry goes round 4 GiB |
| PhysicalMemory.AllocateTakesLowest | kernal/mem/phymem.c:55-70 | an allocation takes the lowest free block, and with block 0 reserved returns null exactly when nothing is free |
| PhysicalMemory.FreeGivesBack | kernal/mem/phymem.c:72-81 | a free succeeds exactly on the first address of a block in use; an unaligned address and a double free are rejected with no change |
| PhysicalMemory.AllocatorRefinesSet | kernal/mem/phymem.c:55-81 | over any run of allocations and frees of outstanding blocks, reserved, outstanding and free blocks partition all 2^20 |
| PhysicalMemory.NeverHandedOutTwice | kernal/mem/phymem.c:55-81 | an allocation in any run returns the lowest block neither reserved nor outstanding, or null exactly if there is none |
| PhysicalMemory.Manager.GetLowestBit | kernal/mem/phymem.c:83-93 | the lowest clear bit, 0xff if there is none |
| PhysicalMemory.Manager.ExtractBit | kernal/mem/phymem.c:95-98 | the bit, by shift and mask |
| PhysicalMemory.Manager.ToggleOne | kernal/mem/phymem.c:104-107 | one block flipped in place |
| PhysicalMemory.Manager.ToggleBetween | kernal/mem/phymem.c:109-129 | the loop in place, addresses wrapping at 2^32 |
| PhysicalMemory.Manager.Init | kernal/mem/phymem.c:37-53 | pmmngr_init in place |
| PhysicalMemory.Manager.AllocateBlock | kernal/mem/phymem.c:55-70 | the search by words finds the lowest free block; the branch for bit == 0xff is never taken |
| PhysicalMemory.Manager.FreeBlock | kernal/mem/phymem.c:72-81 | in place, both refusals included |
| PhysicalMemory.FlipAll | kernal/mem/phymem.c:121 | XOR with all ones flips every bit of a word |
| PhysicalMemory.ToggleBlockFlips | kernal/mem/phymem.c:104-107 | toggling a block changes the state of that block and no other |
| VirtualMemory.MapPageTranslates | kernal/mem/virtmem.c:87-125 | for any page outside the top 4 MiB map_page succeeds if and only if the table exists or a block is free; then the page walks to the requested frame, present and writable; otherwise nothing changes |
| VirtualMemory.MapPageKeepsOthers | kernal/mem/virtmem.c:97-125 | if the table was there, every other page keeps its translation |
| VirtualMemory.MapPageWithFreshTable | kernal/mem/virtmem.c:99-109 | if the table is new, every page of another slot keeps its translation except the slot's window page, which shows the new table; the other pages of the slot read whatever the uncleared block holds |
| VirtualMemory.FreshTableIsCleanIff | kernal/mem/virtmem.c:99-109 | so the page asked for is the only one mapped in its slot if and only if no other word of the block handed out has its present bit set |
| KernelBoot.StaleWordIsMapped | kernal/mem/virtmem.c:61-76 | an input that shows it: boot tables, one 15 MiB entry at 1 MiB and one stale odd word in the first free block, and vmmngr_init maps a page nobody asked for |
| VirtualMemory.MapKeepsSoundIff | kernal/mem/virtmem.c:87-125 | for every page: map_page keeps the tables safe if and only if the page is outside the top 4 MiB or the given frame can stand as that slot's table (for the last page: is the directory) |
| VirtualMemory.FreshTableKeepsWritable | kernal/mem/virtmem.c:105-108 | the PDE_WRITABLE branch is dead: a fresh directory entry keeps the writable flag it had |
| VirtualMemory.TablesStaySafe | kernal/mem/virtmem.c:78-161 | over any run of map_page, alloc_page, free_page, remove_identity_map and block allocations and frees of data frames, the present directory entries, the directory itself among them, name pairwise distinct frames marked in use |
| VirtualMemory.TablesNeverHandedOut | kernal/mem/virtmem.c:151-161 | so no allocation in such a run returns a page table or the directory |
| VirtualMemory.AllocPageTakesLowest | kernal/mem/virtmem.c:151-161 | alloc_page fails exactly when nothing is free, and otherwise leaves the entry present, naming the lowest free block, with its other flags, and every other word as it was |
| VirtualMemory.FreePageGivesBack | kernal/mem/virtmem.c:143-149 | free_page leaves an absent entry alone, and makes a present one absent with its frame and flags kept and its block free |
| VirtualMemory.FreeUndoesAlloc | kernal/mem/virtmem.c:143-161 | free_page after alloc_page restores the bitmap, leaves the entry absent and changes no other word |
| VirtualMemory.FreeUndoesTranslation | kernal/mem/virtmem.c:143-161 | if the entry was absent before, every translation is restored |
| VirtualMemory.FreeAfterAllocUnmaps | kernal/mem/virtmem.c:143-161 | if it was present, the page is lost |
| PageMapper.WindowReaches | kernal/mem/virtmem.c:111-114 | a pointer into the recursive window reaches exactly entry i of the table its slot names, and a write through it does not move it |
| VirtualMemory.WindowTranslates | kernal/mem/virtmem.c:127-141 | the window page of a slot shows the slot's table if it has one and faults otherwise |
| PageMapper.WindowPointer | kernal/mem/virtmem.c:111-114 | the OR of PAGE_TABLE and the shifted slot, plus the entry offset, is that pointer |
| PageMapper.TableIndex | kernal/mem/virtmem.c:112 | the shift and mask pick the entry of the page |
| VirtualMemory.RemoveIdentityMapUnmaps | kernal/mem/virtmem.c:78-85 | afterwards the lowest 4 MiB and their window page fault, and every other page keeps its translation |
| KernelBoot.RecursiveMapIsSoundIff | kernal/mem/virtmem.c:127-141 | from the boot tables set_recursive_map makes the tables safe if and only if the directory entries the boot code did not write, where present, name frames in use other than block 0 and the boot tables, and no frame twice |
| PageMapper.BootDirectoryReached | kernal/mem/virtmem.c:127-133 | before that the directory entry is reached through the identity map |
| KernelBoot.InitMarksBootBlocks | kernal/mem/phymem.c:37-53 | the directory and both boot tables, below 1 MiB, are in use after pmmngr_init |
| KernelBoot.KernelAddressSpace | kernal/mem/virtmem.c:61-76 | after pmmngr_init and vmmngr_init, if those other entries are harmless: the tables safe, low memory identity mapped, the kernel's 4 MiB at 0xc0000000 with the VGA page among them, the stack page mapped if and only if its table was there or a block was free for it |
| VirtualMemory.SettingTheFrame | kernal/mem/virtmem.c:171-173 | entry_set_frame replaces the frame and keeps the flags |
| VirtualMemory.SettingPresent | kernal/mem/virtmem.c:163-165 | entry_set_attrib on the present flag |
| VirtualMemory.SettingWritable | kernal/mem/virtmem.c:163-165 | entry_set_attrib on the writable flag |
| VirtualMemory.ClearingPresent | kernal/mem/virtmem.c:167-169 | entry_clear_attrib on the present flag |
| VirtualMemory.EntryIsPresent | kernal/mem/virtmem.c:175-178 | the mask tests the flag the processor reads |
| VirtualMemory.EntryIsWritable | kernal/mem/virtmem.c:180-183 | likewise for the writable flag |
| VirtualMemory.EntryPhysical | kernal/mem/virtmem.c:185-188 | the mask leaves the frame address |
| VirtualMemory.TableEntryKeepsFlags | kernal/mem/virtmem.c:114-124 | the entry written keeps all its flags above the lowest two |
| PageMapper.Mapper.SetEntry | kernal/mem/virtmem.c:116-124 | frame, then present, then writable, through a virtual pointer |
| PageMapper.Mapper.AllocatePage | kernal/mem/virtmem.c:151-161 | alloc_page through any pointer that its own write does not move |
| PageMapper.Mapper.ReleasePage | kernal/mem/virtmem.c:143-149 | free_page through any such pointer |
| PageMapper.Mapper.SetUpRecursiveMap | kernal/mem/virtmem.c:127-141 | set_recursive_map through the boot pointer, which then changes |
| PageMapper.Mapper.MakeTable | kernal/mem/virtmem.c:97-109 | the first half of map_page; every access is mapped and the dead branch is shown dead |
| PageMapper.Mapper.FillEntry | kernal/mem/virtmem.c:110-124 | the second half, through the window |
| PageMapper.Mapper.MapOne | kernal/mem/virtmem.c:87-125 | map_page for every address below the last page, unaligned arguments rounded down: no access through the window faults, and memory and bitmap become what the specification says |
| PageMapper.Mapper.DropIdentityMap | kernal/mem/virtmem.c:78-85 | remove_identity_map through the window |
| PageMapper.Mapper.Init | kernal/mem/virtmem.c:61-76 | vmmngr_init |
| ShellEditor.Shell.EditLine | kernal/kernel/kshell.c:44-105 | for every sequence of non-zero keys the loop, its index tricks included, refines an overwrite-mode editor of a text and a cursor: buffer gap-free and zero-terminated, index = cursor, screen from the prompt shows the text and the screen cursor is prompt + index, given 50 cells of room |
| ShellEditor.Shell.Erase | kernal/kernel/kshell.c:72-96 | backspace deletes exactly the character before the cursor, in the buffer and on the screen |
| ShellEditor.Shell.SlideTail | kernal/kernel/kshell.c:80-87 | the inner loop moves the tail down by one, redraws it with a blank behind it and restores the cursor |
| ShellEditor.Shell.MoveLeft | kernal/kernel/kshell.c:48-59 | the left key |
| ShellEditor.Shell.MoveRight | kernal/kernel/kshell.c:60-71 | the right key stops at the end of the text |
| ShellEditor.TypedShows | kernal/kernel/kshell.c:102-104 | a typed character replaces the one under the cursor or extends the text |
| ShellEditor.TypedLine | kernal/kernel/kshell.c:45-105 | a line typed straight through reaches the parser as it is if and only if it is shorter than 50 characters; otherwise it is dropped |
| ShellEditor.EditedLine | kernal/kernel/kshell.c:48-104 | a text, any number of left and right keys and a character: the character under the cursor is replaced, or the text extended behind its end if there is room, and that line is entered |
| ShellEditor.ErasedLine | kernal/kernel/kshell.c:48-97 | the same with a backspace: the line is entered without the character before the cursor |
| ShellEditor.NextRowIsBelow | kernal/driver/dadio.c:40-48 | a newline goes to the start of the next of the 25 rows, and from the last to the first |
| ShellEditor.FlushClearsIffGapFree | kernal/kernel/kshell.c:144-151 | stopping at the first zero clears the whole buffer if and only if it has no gap |
| ShellEditor.Shell.FlushCommandBuffer | kernal/kernel/kshell.c:144-151 | the loop in place |
| ShellEditor.Shell.FlushTokenBuffer | kernal/kernel/kshell.c:152-159 | the loop in place |
| ShellEditor.Shell.Putc | kernal/driver/dadio.c:108-132 | what putc does to the cells and the cursor |
| ShellEditor.Shell.ExtractToken | kernal/kernel/kshell.c:124-142 | token n of the line, cut to 25 characters, or nothing if there are fewer tokens |
| ShellEditor.TokenCut | kernal/kernel/kshell.c:136-140 | what is left in the token buffer are the first 25 characters of the token, all of it if it is shorter |
| ShellEditor.Shell.FindToken | kernal/kernel/kshell.c:127-134 | the pointer walk stops where token n starts, or tells that there is none |
| ShellEditor.Shell.CopyWord | kernal/kernel/kshell.c:136-140 | the copying loop |
| ShellEditor.TokensAreWords | kernal/kernel/kshell.c:124-142 | the tokens are not empty, hold no space and together are the line without its spaces |
| ShellEditor.Shell.StringCompare | kernal/kernel/kshell.c:396-406 | true if and only if the two strings are equal up to their first zero; the first needs none if the second ends before it does |

## Left out

- PageReplacementAlgorithm_OPTIMAL (kernal/Process_scheduling/Simulate.cpp:264-313): it copies from disk without erasing and reads runningProcess[0] at admission when nothing may be running, so conservation does not hold for it.
- HRRN's ratio and FEEDBACK's levels (kernal/include/ProcessSchedulingAlgorithms.h:34-63, 175-213): policy OTHER moves an arbitrary index with an arbitrary quantum, which covers their choice, and the edits they make to waitingTime and timesExecuted are allowed by the specification of a policy but not computed.
- CalcStatistics, getResults, DebugLog and Clear: percentages, printing and resetting.
- Pacing by the wall clock and srand/rand: every pass of the loop is a tick, and the lottery's draw is any number.
- Times are whole ticks: the source stores them as double and compares them only with whole numbers; fractional input is not modelled.
- Integer widths of the simulator: counters, quantum and times are unbounded; the unsigned test of isSysFull and the 32-bit tickets are modelled with their wrap-around.
- Processes and pages are values, because the source keeps them by value in its vectors; there is no aliasing to lose.
- Admission of a process with an empty page list reads past the end of the list in the source; here it loads no page, and SimPaging.PagesAlwaysFound asks for non-empty lists.
- exit(1) inside a page replacement sets State.exited and the model goes on; the runs after it are not those of the program.
- Simulation.Simulator.StartSimulation: stated for input that cannot wedge, because a method must end and on other input the source's loop need not; Simulation.Simulator.Watch runs the same loop on every input for a given number of passes.
- Simulation.Simulator.Loop: likewise from a state that cannot wedge.
- Simulation.Simulator.TouchPages: also tests that a process is running where the source relies on it; SimInvariants.RunningProcessInRange shows that the test never matters.
- SchedulingPolicies.LotteryProportional: asks for fewer than 2^31 - 1 tickets in all, because the source casts their number to int before it adds one and reduces the random number; LotteryWinner, for a given draw, holds up to 2^32 tickets, where the ranges wrap.
- main.cpp and FileManager.h: file input; the jobs are parameters.
- The header of pro_con.c is not part of this model: the size of the buffer is any number from 1 on, the counters start at 0.
- Fairness of the threads and the one-second sleeps of kernal/Thread/pro_con.c: which enabled step comes next is arbitrary.
- BoundedBuffer.CircularBuffer.Produce: covers the critical section after the while test; the waiting around it is in the step relation.
- The address map at 0x1000 that the boot loader writes: its entries are a parameter.
- TLB, CR3 loads, interrupts and the processor's own setting of accessed and dirty flags: the walk reads memory as it is.
- Writes to mapped data pages: a run in VirtualMemory.TablesStaySafe does not include stores that happen to hit a page table.
- PageMapper.Mapper.Init: asks that the directory entries the boot code leaves uncleared (boot/stage2/pagingsetup.asm:34-38) be harmless in the sense of KernelBoot.RecursiveMapIsSoundIff; from other tables its accesses are not followed.
- PageMapper.Mapper.MapOne: for addresses below the last page, where the first write takes away the window through which the next would go; what a call there does to the tables is VirtualMemory.MapKeepsSoundIff.
- The size check at the end of vmmngr_init and its endless loops (kernal/mem/virtmem.c:64-75): a failing first map is reported instead.
- entry_set_attrib and entry_clear_attrib with flags other than present and writable: never called so.
- putc and monitor_puts without colours, and monitor_puts beyond its treatment of a newline.
- ShellEditor.Shell.EditLine: one line at a time, from any screen with 50 cells behind the prompt; the source does not check for room and writes past the text screen without it.
- Printing a token of 25 characters, which has no terminator, and the shell's commands, name and prompt.
- printhex, printint, drivers, FAT12, worst_fit.c, memory_alloc.c, thread.c and the boot code: hardware plumbing, input loops or table look-ups.
