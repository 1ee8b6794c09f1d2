# miniEuler kernel: verified models

Dafny models of the parts of this AArch64 teaching kernel that hold state worth reasoning about, with
proofs that need no bound on sizes, runs or interleavings. `dafny verify dfyconfig.toml` checks the project.

## What is modelled

**Page tables** (`Bits`, `MmuFormat`, `TcrFormat`, `PageTables`, `Regions`, `Wrap`, `MapSteps`, `Mmu`, `MmuSetup`,
`MmuReach`).
`Mmu.Ctrl` is `g_mmu_ctrl` with the pool as an array of 64-bit words and the code's own loops. The hardware
side is written down separately: `MmuFormat.Decode` reads a descriptor by bit position and
`PageTables.Translate` walks the tables, as section D5.3 of Arm DDI 0487 (section D8.3 in later issues)
describes; the two sides share no definition. Both granules and every start level are covered. The main
result is that tables that are built mean the region list: what is mapped and what is left alone on every
return, how many tables it can take, and that a walk of any other address does not change. `MmuSetup.MmuInit`
goes from reserved words to finished tables.

**Tasks and semaphores** (`Queues`, `KernelSpec`, `KernelInv`, `KernelCalls`, `TaskLife`, `KernelTheorems`,
`SemTheorems`, `MutexUse`, `Witnesses`, `Kernel`, `IntrusiveList`, `KernelLists`). `Kernel.Sys` holds control blocks in
arrays and queues in linked rings, and is updated in place; each method is proved to change the state as a function of
`KernelSpec` says, and to keep the rings whole and apart. `KernelSpec.Next` is one kernel call, `KernelSpec.After` a whole
run of calls, and the theorems are about those: what a call returns and what it changes, without naming those functions
(`KernelCalls`), which queue a task is in, who runs, where priorities come from, what becomes of tasks that end, conservation
of tokens, order of service, and priority inheritance.
`KernelSpec.Allowed` says what callers must keep to: priorities up to 63, handles of tasks that exist, the
scheduler started once and before tasks pend or exit, an idle task that does neither pend nor exit, and
timeouts that are 0 or forever (other timeouts have a theorem of their own). A context switch is an assignment
to the running task. `IntrusiveList` and `KernelLists` are the rings: circular lists through `prev` and `next`, one
node for each task shared by all of them.

**The bounded buffer** (`RingSpec`, `RingInv`, `RingTheorems`, `RingOnKernel`, `RingEnds`). Producers, consumers and
readers of the statistics as step machines, one C statement a step, with any ring size, any number of tasks, any quotas and
any interleaving. Its semaphores are the object that `SemTheorems.KernelRefinesQueue` shows the kernel's
counting semaphores to be, and `RingOnKernel` puts the tasks on the kernel itself: every run of their statements
and of any other kernel calls projects to a run of the step machines; when the idle task runs, it is over.

**The formatter** (`CStrings`, `FormatSpec`, `FormatTheorems`, `FormatMeaning`, `FormatReading`, `Printf`).
`FormatSpec.Render` is the text of a format without any buffer; `FormatReading` and `FormatMeaning` say how a directive's
characters are read and what it then prints; `Printf` is the C code, storing characters below `end` and counting on past
it, with widths, precisions and sizes that must stay an `int`.

**Console input** (`ShellSpec`, `ShellTheorems`, `Shell`, `ShellLoop`, `ShellOnKernel`). The receive interrupt and the shell
task share a ring of 272 bytes and a semaphore; interrupts come between any two steps of the shell. `ShellLoop` is
the loop that pends, reads, edits and dispatches, and `ShellOnKernel` puts interrupt and task on the kernel.

## What the proofs found

- A post that finds no waiter restores its caller's priority but does not reschedule
  (`src/kernel/sem/prt_sem.c:367-377`). `KernelTheorems.MostUrgentRunsUnless` gives the exact condition under
  which the most urgent ready task does not run afterwards; `Witnesses.NestedPostStrands` is a run from power-on in
  which it happens, with a second mutex held; `KernelTheorems.WhoRuns` and `WhoRunsOverRuns` say how it goes on from
  there. With mutexes used without nesting it cannot happen (`MutexUse.ReachableMutex`,
  `MutexUse.DisciplinedFromBoot`).
- Restoring looks at the waiters of the posted semaphore only, and at their raised priorities
  (`src/kernel/sem/prt_sem.c:116-137`): `SemTheorems.PostPriority` says exactly when a post gives the owner its own
  priority back; `Witnesses.BoostStays` is a run from power-on after which a task keeps a boost and owns nothing.
- A hand-off does not raise the new owner (`src/kernel/sem/prt_sem.c:319-320`). `MutexUse.HandOffInversion`
  says exactly when the new owner is as urgent as those still waiting; `Witnesses.FifoHandOffInverts` is a
  run from power-on, without nesting, after which it is not. `PRT_SemCreate` makes FIFO semaphores only, so the
  repository's own demonstrations are on that side of the condition.
- A pend with a timeout queues the caller and returns with it still running
  (`src/kernel/sem/prt_sem.c:287-290`): `KernelTheorems.TimedPendKeepsRunning`, `Witnesses.TimedPendRunsOn`.
- For a 64K granule and 40 or 42 address bits the code picks start level 1, which is not the level the
  hardware would start at, and then refuses the granule with 3 (`src/bsp/mmu.c:296-301`):
  `Regions.StartLevelIsExact`.
- The width of addresses is always measured on the shipped table, also when another list is mapped
  (`src/bsp/mmu.c:41-43`): regions past the reach of the root are then found at their remainder. `MmuReach.ReachIsExact`
  says exactly when the tables mean the list; `MmuReach.FarGigabyteIsAtZero` is a list for which they do not.
- The pool's fill pointer moves even when there is no room (`src/bsp/mmu.c:165-169`), so after -1 every later
  table is refused too; what is mapped stays intact.
- `%lb` of a number with more than 32 bits overruns the scratch buffer of `print_number`:
  `FormatTheorems.DigitsFit`, `Printf.FitsIsExact`, `Printf.LongBinaryOverruns`. No other directive can.
- Precision 0 drops every digit, not only that of zero, and a width cuts strings
  (`src/bsp/vsnprintf_s.c:275`, `src/bsp/vsnprintf_s.c:466`): `FormatTheorems.IntegerReadsBack`,
  `FormatTheorems.PrecisionZeroDrops`, `FormatTheorems.StringLength`, `FormatTheorems.WidthCuts`.
- The comment in `src/bsp/vsnprintf_s.c:309` promises the number of characters written; the code returns the length of
  the whole text, stored or not: `Printf.VsnprintfS`.
- Reading a number in a format overflows `int` exactly above the largest `int` less 48, because '0' is taken off last
  (`src/bsp/vsnprintf_s.c:52`): `Printf.AtoiIsExact`, `Printf.WideFieldLeavesInt`. Negating the least `int` as a width
  (`src/bsp/vsnprintf_s.c:380-384`) and padding with one of the four largest precisions can overflow too:
  `Printf.PrintNumber`, `Printf.SmallPrecisionStaysInt`.
- Erasing on a full line removes a character that was accepted, because the one typed after it was dropped:
  `ShellTheorems.EraseUndoes`, `ShellTheorems.EraseLosesOnFullLine`.
- With more than 272 unread bytes the shell reads the newest byte on a slot instead of the next one:
  `ShellTheorems.FetchExact`, `ShellTheorems.OverrunReadsLater`.
- With a negative size the formatter bounds nothing and cuts the distance to the last address to an `int`
  (`src/bsp/vsnprintf_s.c:335-339`), so whether the terminator is stored depends on the buffer's address:
  `Printf.VsnprintfS` and `Printf.EndAddress` say exactly when, `Printf.KernelMemoryNeverEnds` that it never is in the
  memory of the shipped map.

## Model

| member | source | states |
|---|---|---|
| `MmuFormat.BlockSizeIsShift` | src/bsp/mmu.c:96-103 | the size of an entry at each level is the power of two that the shift computes, for both granules |
| `MmuFormat.MaskIsOutputField` | src/bsp/mmu.h:80-81 | masking a descriptor with the table-address mark selects exactly the address field that the hardware follows |
| `MmuFormat.TablePointerRoundTrip` | src/bsp/mmu.c:182-186 | an aligned table address below 2^48, made into a table descriptor, comes back from masking, from the type test, and from the hardware's decoding |
| `MmuFormat.LeafRoundTrip` | src/bsp/mmu.c:205-210 | a block or page descriptor decodes to the output address and attributes it was made from, when the attributes avoid address and type bits |
| `PageTables.TablesFormATree` | src/bsp/mmu.c:153-187 | in a consistent pool a table is referenced by at most one entry, the root by none, and every referenced table is aligned, inside the pool, and one level down |
| `PageTables.TablesAreDisjoint` | src/bsp/mmu.c:153-180 | entries of different tables are different words |
| `PageTables.WalkFollowsPath` | src/bsp/mmu.c:106-150 | the hardware walk and the software descent reach the same entry |
| `PageTables.SetLeaf` | src/bsp/mmu.c:205-210 | writing a leaf maps the addresses of its slot, and the walk of every other address is unchanged |
| `PageTables.LinkTable` | src/bsp/mmu.c:194-204 | hanging a zeroed table below an invalid entry changes no translation and keeps the pool consistent |
| `Regions.DisjointUnion` | src/bsp/mmu.c:310-315 | for regions disjoint after rounding to blocks the list means their union, whatever the order |
| `Regions.RoundUpBounds` | src/bsp/mmu.c:232-256 | the size that is mapped is the least multiple of the block that covers the region |
| `Regions.VaBitsIsLeast` | src/bsp/mmu.c:46-66 | the chosen address width is the least possible one that holds every region |
| `Regions.StartLevelIsExact` | src/bsp/mmu.c:288-302 | the start level covers that width, and a shorter walk would not, exactly unless the granule is 64K and the width 40 or 42 |
| `Mmu.IndexIsMask` | src/bsp/mmu.c:119-125 | shift and mask compute the table index of an address |
| `Mmu.Ctrl.constructor` | src/bsp/mmu.c:30 | a zeroed control block for any pool |
| `Wrap.PathWraps` | src/bsp/mmu.c:117-147 | an address past what the root table covers is looked up as its remainder within that reach |
| `MmuReach.TranslateWraps` | src/bsp/mmu.c:117-147 | and the hardware's walk translates it as that remainder |
| `Mmu.Ctrl.FindPte` | src/bsp/mmu.c:106-150 | for every address and level: the entry of the level on the path of the address, or NULL exactly when the path ends above it or there is no such level below the root |
| `Mmu.Ctrl.CreateTable` | src/bsp/mmu.c:153-180 | the next table of the pool, zeroed, and nothing else written; NULL exactly when the pool ends before it; the fill pointer moves in both cases |
| `Mmu.Ctrl.HangTable` | src/bsp/mmu.c:196-203 | an invalid entry comes to point at a new zeroed table, or -1 and no word changes |
| `Mmu.Ctrl.AddMapPteProcess` | src/bsp/mmu.c:189-213 | at the leaf level one word is written; above it at most one zeroed table is linked; -1 leaves every word as it was |
| `Mmu.Ctrl.MapBlock` | src/bsp/mmu.c:234-251 | one block: mapped on 0; on -1 and -3 translation is as before; new tables stay within what the block's path allows |
| `Mmu.Ctrl.AddMap` | src/bsp/mmu.c:216-259 | -2 exactly when the level is not below the start level; on 0 every address of the rounded region, as it comes to lie within the root's reach, is mapped to phys plus offset with the attributes; on every return all other addresses translate as before; -3 only at an address already mapped by a coarser leaf; -1 only when the pool has less room than the table budget |
| `Mmu.ProgressMeaning` | src/bsp/mmu.c:232-256 | what holds between two blocks: a prefix of whole blocks is mapped, the rest is unchanged, and the tables made are within the budget |
| `Mmu.BudgetMeaning` | src/bsp/mmu.c:228-256 | a region takes at most one table for each distinct slot its range touches on the levels from the start level to above its own |
| `TcrFormat.TcrFields` | src/bsp/mmu.c:68-77 | nothing joined into the control register overlaps: cut by bit position, every field reads back as it was put in, for both granules and every width |
| `Mmu.Ctrl.GetTcr` | src/bsp/mmu.c:33-88 | the width for the highest end of a region, its encoding, and a register value whose fields are 64 minus that width, write-back cacheable inner shareable walks, the granule and the encoding |
| `Mmu.Ctrl.MapRegions` | src/bsp/mmu.c:310-315 | on every return the tables mean a prefix of the list and the part of the next region that was mapped; the whole list exactly on 0; -2 exactly for a level not below the start level, -3 only where an earlier region's leaf is too coarse, -1 only when the pool has less room than the table budget of the list, overlaps or not; so a disjoint list for which there is room always gives 0 |
| `Mmu.Ctrl.BuildTables` | src/bsp/mmu.c:304-315 | the same from an empty pool, and 1 exactly when not even the root table fits |
| `Mmu.Ctrl.SetupPgtables` | src/bsp/mmu.c:273-320 | the same with width and start level computed from the measured list, whatever list is mapped; 3 exactly for a 64K granule with more than 36 bits |
| `MmuReach.ReachIsExact` | src/bsp/mmu.c:41-43 | the tables mean the mapped list itself exactly when each of its regions starts within the reach of the level that the measured list gave |
| `MmuReach.FarRegionIsElsewhere` | src/bsp/mmu.c:119-128 | otherwise a region is found at an address where the list has nothing |
| `MmuReach.FarGigabyteIsAtZero` | src/bsp/mmu.c:14-28 | the shipped list measured and a gigabyte at 2^39 mapped: address 0 leads there |
| `MmuSetup.MapIsBuildable` | src/bsp/mmu.c:14-28 | the shipped list is disjoint and needs three tables |
| `MmuSetup.MapIsIdentity` | src/bsp/mmu.c:14-28 | the shipped list means the identity on two gigabytes, read by bit position: memory-type index of the byte 0x00 (device) below 1 GiB and of 0xFF (write-back cacheable) from there to 2 GiB, not shareable and inner shareable, access flag set, readable and writable by the kernel, not execute-never |
| `MmuSetup.MmuInit` | src/bsp/mmu.c:342-349 | from a reserved pool to tables with that meaning, attributes included; no caller has more to provide than the pool and its address |
| `MmuSetup.MmuSetup` | src/bsp/mmu.c:322-338 | the shipped set-up succeeds; hardware walks give the identity below 2 GiB, with those attributes by bit position and the bytes of the attribute register they select (`src/bsp/mmu.h:8-20`), and fault from there to 4 GiB |
| `IntrusiveList.ListObject.constructor` | src/include/prt_list_external.h:11-15 | a new node is a ring of its own |
| `IntrusiveList.ListLowLevelAdd` | src/include/prt_list_external.h:22-29 | a node squeezed between neighbours of a ring gives the ring with the node in that place |
| `IntrusiveList.ListAdd` | src/include/prt_list_external.h:32-35 | behind the list head: the queue with the new task in front |
| `IntrusiveList.ListTailAdd` | src/include/prt_list_external.h:38-41 | in front of a node: the queue with the new task before it, and for the list head at the end |
| `IntrusiveList.ListDelete` | src/include/prt_list_external.h:51-57 | the queue without the task, the others in order, the node's pointers cleared |
| `IntrusiveList.ListEmpty` | src/include/prt_list_external.h:60-63 | true exactly when no task is queued |
| `IntrusiveList.MoveToTail` | src/kernel/sem/prt_sem.c:171-198 | a task moved from one ring to the end of another: both remain whole |
| `IntrusiveList.ListTailAddAmong` | src/include/prt_list_external.h:38-41 | linking a node leaves every disjoint ring a ring |
| `IntrusiveList.ListAddAmong` | src/include/prt_list_external.h:32-35 | the same at the front |
| `IntrusiveList.ListDeleteAmong` | src/include/prt_list_external.h:51-57 | the same for taking a node out |
| `IntrusiveList.HighestWaiterPriority` | src/kernel/sem/prt_sem.c:23-39 | the traversal ends and returns the least priority number of the ring's tasks, 255 for none |
| `IntrusiveList.FirstLessUrgent` | src/kernel/sem/prt_sem.c:183-194 | the node of the first waiter that is less urgent, or the list head |
| `IntrusiveList.HighestSet` | src/include/prt_task_external.h:222-241 | the traversal ends and returns the first most urgent task of the ring |
| `IntrusiveList.AppendKeepsHighest` | src/include/prt_task_external.h:222-241 | appending changes the choice exactly when the new task is strictly more urgent |
| `KernelLists.Lists.constructor` | src/kernel/task/prt_task_init.c:317-366 | disjoint rings that hold the queues of the state after initialisation |
| `KernelLists.Lists.LinkBefore` | src/include/prt_list_external.h:38-41 | a task that is in no list is put at a place of one; all lists stay disjoint rings and the others hold what they held |
| `KernelLists.Lists.LinkFront` | src/include/prt_list_external.h:32-35 | the same at the front |
| `KernelLists.Lists.Unlink` | src/include/prt_list_external.h:51-57 | a task leaves whichever list its node is in, and the others hold what they held |
| `KernelLists.Lists.ReadyAdd` | src/kernel/task/prt_task.c:13-22 | for a task in no queue, the lists hold the queues of the state that KernelSpec gives |
| `KernelLists.Lists.ReadyDel` | src/kernel/task/prt_task.c:27-36 | the same for a task on the run queue |
| `KernelLists.Lists.Highest` | src/include/prt_task_external.h:222-241 | the traversal of the run queue's ring finds the cached task |
| `KernelLists.Lists.LeastPriority` | src/kernel/sem/prt_sem.c:23-39 | the traversal of a wait list's ring finds its least priority number |
| `KernelLists.Lists.Enqueue` | src/kernel/sem/prt_sem.c:179-194 | the running task's node goes in front of the first less urgent waiter in priority mode, to the end in FIFO mode |
| `KernelLists.Lists.Dequeue` | src/kernel/sem/prt_sem.c:203-210 | the first waiter's node leaves the wait list |
| `KernelLists.Lists.Any` | src/include/prt_list_external.h:60-63 | whether a list holds a task |
| `KernelLists.Lists.TakeFree` | src/kernel/task/prt_task_init.c:129-141 | the first node of the free list is taken |
| `KernelLists.Lists.PutBack` | src/kernel/task/prt_task_init.c:225-229 | and put back at the front when there is no stack |
| `Queues.FirstMinIs` | src/include/prt_task_external.h:222-241 | the cached task is in the queue, everything before it is less urgent, nothing after it more urgent |
| `Queues.MinPrioIs` | src/kernel/sem/prt_sem.c:23-39 | the highest waiter priority is a waiter's, and no waiter is more urgent |
| `Queues.InsertSorted` | src/kernel/sem/prt_sem.c:171-198 | inserting a waiter by priority keeps the list sorted |
| `Kernel.Sys.constructor` | src/kernel/task/prt_task_init.c:317-366 | after initialisation every control block and semaphore is free, the two tables hold the first stack blocks, the zombie runs, and all invariants hold |
| `Kernel.Sys.SetHighest` | src/include/prt_task_external.h:222-241 | the pass over the run queue's ring sets the cache to the first most urgent task |
| `Kernel.Sys.MakeReady` | src/kernel/task/prt_task.c:13-22 | a task that is in no queue is ready, at the tail of the run queue, and the cache is right again |
| `Kernel.Sys.Unready` | src/kernel/task/prt_task.c:27-36 | a task of the run queue is off it and the cache is right again |
| `Kernel.Sys.ChangePriority` | src/kernel/sem/prt_sem.c:67-89 | a new priority, with a ready task requeued, keeps every task in its queue |
| `Kernel.Sys.FindHighestWaiterPriority` | src/kernel/sem/prt_sem.c:23-39 | the least priority number in the wait list, 255 when it is empty |
| `Kernel.Sys.PriorityInherit` | src/kernel/sem/prt_sem.c:45-89 | the owner is raised to the most urgent of waiter and wait list, if that is more urgent |
| `Kernel.Sys.PriorityRestore` | src/kernel/sem/prt_sem.c:95-148 | a raised owner falls to the most urgent waiter of this semaphore or to its own priority |
| `Kernel.Sys.Reschedule` | src/kernel/task/prt_task.c:58-72 | the most urgent ready task runs and the invariants hold |
| `Kernel.Sys.SemPendListPut` | src/kernel/sem/prt_sem.c:171-198 | the caller moves from the run queue to its place in the wait list and its priority is inherited |
| `Kernel.Sys.SemPendListGet` | src/kernel/sem/prt_sem.c:203-222 | the first waiter leaves the list, pends no more, and is ready unless suspended |
| `Kernel.Sys.Pend` | src/kernel/sem/prt_sem.c:250-299 | every branch of a pend: errors, immediate success, refusal with timeout 0, waiting, and the unsupported timeout |
| `Kernel.Sys.PostSchePre` | src/kernel/sem/prt_sem.c:301-321 | the old owner is restored, the first waiter becomes owner and ready |
| `Kernel.Sys.Free` | src/kernel/sem/prt_sem.c:371-377 | the owner is restored, the count goes up, nobody owns the semaphore |
| `Kernel.Sys.Post` | src/kernel/sem/prt_sem.c:341-381 | every branch of a post: errors, the full binary semaphore, hand-off with rescheduling, and release without |
| `Kernel.Sys.CreateSem` | src/kernel/sem/prt_sem_init.c:46-90 | the first free control block is taken with the given count, type and mode; an error, a missing place for the handle included, leaves the state alone |
| `Kernel.Sys.CreateCountingSem` | src/kernel/sem/prt_sem_init.c:95-104 | too large a count is refused before anything else; otherwise a counting semaphore in FIFO mode |
| `Kernel.Sys.MemAlloc` | src/kernel/task/prt_task_init.c:24-41 | the first unused stack block, marked used, for the one size and the alignments that are served |
| `Kernel.Sys.TakeTcb` | src/kernel/task/prt_task_init.c:129-141 | the first free control block, in no queue any more, or an error when there is none |
| `Kernel.Sys.GiveBack` | src/kernel/task/prt_task_init.c:228 | the control block is at the head of the free list again |
| `Kernel.Sys.CreateTask` | src/kernel/task/prt_task_init.c:206-245 | the state and the code of a creation, which `KernelCalls.TaskCreateIs` gives: a suspended task with the priority asked for as both its priorities; on failure the control block is back at the head of the free list |
| `Kernel.Sys.ResumeTask` | src/kernel/task/prt_task_init.c:277-315 | a suspended task becomes ready unless it pends, and the scheduler runs |
| `Kernel.Sys.ExitTask` | src/kernel/task/prt_task.c:42-52 | the state after an exit, which `KernelCalls.ExitIs` gives: the caller on no queue and not ready, and another task running |
| `Kernel.Sys.Start` | src/kernel/task/prt_task_init.c:421-443 | the idle task is created and readied and the first switch made, or the error is passed on |
| `Kernel.Sys.SwitchFirst` | src/kernel/sched/prt_sched_single.c:69-76 | the most urgent ready task is marked running |
| `KernelInv.BootWF` | src/kernel/task/prt_task_init.c:317-366 | the state after initialisation satisfies the queue, cache and running invariants |
| `KernelInv.StepWF` | src/kernel/sem/prt_sem.c:250-381 | every kernel call keeps them |
| `KernelInv.ReachableWF` | src/kernel/sem/prt_sem.c:250-381 | so they hold after every run of calls |
| `KernelCalls.BootIs` | src/kernel/task/prt_task_init.c:343-360 | at power-on every control block and semaphore is free, in the order of the tables, nothing is ready, and two of twenty stack blocks are used |
| `KernelCalls.SemCreateIs` | src/kernel/sem/prt_sem_init.c:54-90 | creating takes the first free semaphore and gives it the arguments, no owner and no waiter; it fails exactly when none is free, and nothing else changes |
| `KernelCalls.TaskCreateIs` | src/kernel/task/prt_task_init.c:206-242 | for every priority and both kinds of stack: it succeeds exactly when a control block is free and the stack is given or is of 4096 bytes with a block unused; then the first free task is suspended and in use, with the argument as both priorities and no semaphore, and of the stack blocks exactly the first unused one is taken; otherwise nothing changes |
| `KernelCalls.TaskResumeIs` | src/kernel/task/prt_task_init.c:277-310 | a suspended task becomes ready at the tail, and a running scheduler then picks the first most urgent task; the two errors exactly for a task not created and one not suspended, and then nothing changes |
| `KernelCalls.ActivateIs` | src/kernel/task/prt_task_init.c:390-434 | starting makes a task of priority 63 that is ready behind all others, and the most urgent task runs; it fails as creating does |
| `KernelCalls.PendCode` | src/kernel/sem/prt_sem.c:250-299 | which of its codes a pend returns, from handle, count and timeout, each exactly |
| `KernelCalls.PendIs` | src/kernel/sem/prt_sem.c:250-299 | what it does: a token taken and the caller the owner; nothing, when refused; or the caller off the run queue and in its place on the wait list, the owner as urgent as the most urgent of caller and waiters and, if that was new to it, last of the run queue, all else as before |
| `KernelCalls.PostCode` | src/kernel/sem/prt_sem.c:341-381 | which of its codes a post returns, each exactly |
| `KernelCalls.PostIs` | src/kernel/sem/prt_sem.c:341-381 | what it does: nothing, when refused or a binary semaphore is full; a token more and no owner; or the first waiter owner and ready, last of the run queue, and the old owner with the priority that is left to it, all else as before |
| `KernelCalls.ExitIs` | src/kernel/task/prt_task.c:42-52 | the task that exits is on no queue, free list or wait list, is not ready and does not run; the first most urgent of the others does; everything else is as before |
| `TaskLife.CallLives` | src/kernel/task/prt_task_init.c:175-237 | one call: a task comes into being exactly by a call that creates it, with the priority asked for, keeps its own priority ever after, and once ended stays ended |
| `TaskLife.CreatedOverRuns` | src/kernel/task/prt_task_init.c:187-188 | over any run, a task's own priority is the argument of the call that created it |
| `TaskLife.CreatedFromBoot` | src/kernel/task/prt_task_init.c:187-188 | the same from power-on, where a task exists exactly when a call has created it |
| `TaskLife.EndedStaysEnded` | src/kernel/task/prt_task.c:42-52 | a task that has ended is in no queue and does not run after any allowed calls |
| `TaskLife.ExitIsForGood` | src/kernel/task/prt_task.c:42-52 | so the caller of an exit is never ready, never waits and never runs again |
| `KernelTheorems.QueuePartition` | src/kernel/task/prt_task.c:13-36 | a task is in at most one of free list, run queue and wait lists; READY exactly in the run queue; PEND exactly in the wait list of its semaphore; the cache is the earliest most urgent ready task |
| `KernelTheorems.WhoRuns` | src/kernel/task/prt_task.c:58-72 | from any state, whether the most urgent ready task runs after a call: always after one that reschedules; after a post that takes a boost back without rescheduling, exactly when the running task stays the first most urgent; otherwise exactly when it did before |
| `KernelTheorems.WhoRunsOverRuns` | src/kernel/sem/prt_sem.c:341-381 | exactly when it runs at the end of any allowed run: the last call that rescheduled or took a boost back decides |
| `KernelTheorems.MostUrgentRunsUnless` | src/kernel/sem/prt_sem.c:341-381 | after a call the most urgent ready task runs, except exactly after a post without waiters that lowers its caller below another ready task |
| `KernelTheorems.TimedPendKeepsRunning` | src/kernel/sem/prt_sem.c:287-290 | a pend leaves a task running that is not ready exactly when it had to wait with a timeout |
| `KernelTheorems.PriorityOrigin` | src/kernel/sem/prt_sem.c:45-148 | in every call, nested use included: original priorities never change, effective ones are never less urgent, and each is the creation priority of some task |
| `KernelTheorems.PriorityOriginOverRuns` | src/kernel/sem/prt_sem.c:45-148 | all three over whole runs |
| `KernelTheorems.PriorityOriginFromBoot` | src/kernel/sem/prt_sem.c:45-148 | and from power-on, with nothing to require but allowed calls |
| `SemTheorems.PostPriority` | src/kernel/sem/prt_sem.c:95-148 | an effective post gives its owner the original priority back exactly when it was not raised or no waiter of this semaphore is more urgent; otherwise the owner keeps the priority of the most urgent waiter |
| `SemTheorems.SemEffect` | src/kernel/sem/prt_sem.c:250-381 | a semaphore in use changes only through its own pends and posts, and how |
| `SemTheorems.TokensConserved` | src/kernel/sem/prt_sem.c:151-165 | one call: count plus completed pends is old count plus effective posts, tasks wait only where the count is 0, and the count stays within its maximum |
| `SemTheorems.TokensConservedOverRuns` | src/kernel/sem/prt_sem.c:250-381 | the same balance over whole runs, hand-offs included |
| `SemTheorems.FifoStep` | src/kernel/sem/prt_sem.c:203-222 | in FIFO mode a waiter moves up by one with an effective post and otherwise stays |
| `SemTheorems.FifoPosition` | src/kernel/sem/prt_sem.c:203-222 | over a run its position falls by the number of effective posts and never rises |
| `SemTheorems.FirstIsServed` | src/kernel/sem/prt_sem.c:301-321 | an effective post makes the first waiter owner and ready, whatever else is queued |
| `SemTheorems.FifoBoundedWait` | src/kernel/sem/prt_sem.c:367-370 | a task with k waiters ahead acquires at exactly the (k+1)-th effective post |
| `SemTheorems.KernelRefinesQueue` | src/kernel/sem/prt_sem.c:250-381 | a counting FIFO semaphore behaves as a counter with a queue, whatever other calls are made |
| `MutexUse.BootMutex` | src/kernel/sem/prt_sem_init.c:12-41 | the mutex invariant holds at the start |
| `MutexUse.MutexStep` | src/kernel/sem/prt_sem.c:250-381 | every call of non-nested mutex use keeps it, in either wake mode |
| `MutexUse.ReachableMutex` | src/kernel/sem/prt_sem.c:250-381 | so it holds in every state such use reaches |
| `MutexUse.BoundedInversion` | src/kernel/sem/prt_sem.c:171-198 | the running task is at least as urgent as a priority-mode mutex's owner, the owner as every waiter, and the wait list is sorted |
| `MutexUse.MostUrgentRuns` | src/kernel/task/prt_task.c:58-72 | under non-nested use the cached task runs, and no ready task is more urgent than it |
| `MutexUse.BoostDiscipline` | src/kernel/sem/prt_sem.c:45-148 | a priority differs from the original one only while its task owns a mutex with waiters, and then is that of the most urgent waiter |
| `MutexUse.PostRestores` | src/kernel/sem/prt_sem.c:341-381 | the owner's post gives it its original priority back and frees it of the mutex |
| `MutexUse.HandOffInversion` | src/kernel/sem/prt_sem.c:301-321 | after a hand-off the new owner is as urgent as all remaining waiters exactly when the first waiter was a most urgent one; priority mode ensures that |
| `MutexUse.DisciplinedFromBoot` | src/kernel/sem/prt_sem.c:250-381 | from power-on, after every non-nested run: the most urgent ready task runs, priority-mode inversion is bounded, and every boost is that of a waiter of a mutex the task owns |
| `Witnesses.NestedPostStrands` | src/kernel/sem/prt_sem.c:371-377 | a run from power-on, with a second mutex taken and posted, after which a less urgent task keeps running |
| `Witnesses.FifoHandOffInverts` | src/kernel/sem/prt_sem.c:301-321 | a run from power-on, without nesting, that hands a FIFO mutex to a task less urgent than one still waiting |
| `Witnesses.BoostStays` | src/kernel/sem/prt_sem.c:116-137 | a run from power-on after which a task owns nothing and keeps a priority more urgent than its own |
| `Witnesses.TimedPendRunsOn` | src/kernel/sem/prt_sem.c:287-290 | from a state reached from power-on, a pend with any timeout leaves a task running that is queued and not ready |
| `RingInv.MutualExclusion` | src/ipc_ring_demo.c:70-162 | two tasks are never both between the mutex's pend and post |
| `RingInv.RoomAndItems` | src/ipc_ring_demo.c:74-75 | a producer about to write has a free slot, a consumer about to read has an item |
| `RingInv.StepInv` | src/ipc_ring_demo.c:70-162 | every statement of every task keeps the invariant of tokens, slots, order and counters |
| `RingInv.RunInv` | src/ipc_ring_demo.c:70-162 | so every interleaving does |
| `RingTheorems.RingRefinement` | src/ipc_ring_demo.c:70-162 | what is consumed is a prefix of what is produced, the slots from tail to head hold exactly the rest, and each producer's order is kept |
| `RingTheorems.NeverOverwritesUnread` | src/ipc_ring_demo.c:77-80 | a producer never writes a slot with an item that is still to be consumed |
| `RingTheorems.StatsAreConsistent` | src/ipc_ring_demo.c:34-66 | the statistics describe one moment: indices, totals, each producer's and each consumer's count, and slots agree, and the consumers' counts add up to the total |
| `RingTheorems.NoDeadlock` | src/ipc_ring_demo.c:70-162 | with equal total quotas, a state in which no task can step is one in which all have finished |
| `RingTheorems.FinishedIsComplete` | src/ipc_ring_demo.c:70-162 | then everything is consumed in order and the ring is empty |
| `RingTheorems.NoneLeft` | src/ipc_ring_demo.c:70-162 | the same with tasks that have no rounds to make left anywhere: where no task with rounds left can step, none has any left and everything is consumed in order |
| `RingTheorems.StepDecreases` | src/ipc_ring_demo.c:70-162 | every step lowers the number of statements that can still be made |
| `RingTheorems.RunsAreBounded` | src/ipc_ring_demo.c:70-162 | so no run is longer than the bound at its start |
| `RingTheorems.RingCompletes` | src/ipc_ring_demo.c:70-162 | every run that goes on while a task can step ends with all items produced, consumed in order, and an empty ring |
| `RingTheorems.DemoCompletes` | src/include/ipc_ring_demo.h:9-13 | the shipped sizes: at most 288 statements; then 1 to 5 and 101 to 105 have been produced, each producer's in order, and exactly these have been consumed, in the order of production |
| `RingOnKernel.StartIsCoupled` | src/ipc_ring_demo.c:166-190 | with three fresh semaphores of the kernel, of counts N, 0 and 1, the demonstration starts as RingSpec says |
| `RingOnKernel.StartFromCalls` | src/ipc_ring_demo.c:166-190 | from any running kernel with three free semaphores the three creation calls lead there |
| `RingOnKernel.ActRefines` | src/ipc_ring_demo.c:70-162 | a statement of the running task, with its kernel call, is exactly the step RingSpec gives that task; any other kernel call is no step |
| `RingOnKernel.RunRefines` | src/ipc_ring_demo.c:70-162 | every run on the kernel, whatever other tasks call, projects to a run of RingSpec |
| `RingOnKernel.KernelRunsRing` | src/ipc_ring_demo.c:70-162 | so on the kernel nothing is lost, duplicated or reordered, and each producer's items keep its order |
| `RingOnKernel.KernelRunsAreBounded` | src/ipc_ring_demo.c:70-162 | however the kernel schedules, the demonstration's tasks make no more steps than the bound at the start |
| `RingOnKernel.KernelNoDeadlock` | src/ipc_ring_demo.c:70-162 | when every task with rounds left waits on one of the three semaphores, no task has rounds left and everything is consumed in order; control blocks never used and other tasks may be anywhere |
| `RingOnKernel.KernelRingCompletes` | src/ipc_ring_demo.c:70-162 | both over every run from a fresh start, whatever other tasks call |
| `RingEnds.PlacedKept` | src/kernel/sem/prt_sem.c:250-381 | a kernel call leaves every task of the demonstration not created, not resumed, ready or on one of its three lists, unless that task itself ends or pends elsewhere |
| `RingEnds.IdleMeansOver` | src/ipc_ring_demo.c:70-162 | over every run from a fresh start: when the idle task runs as the most urgent one, and all tasks with rounds left have been started, there are none and everything is consumed in order |
| `RingEnds.StartPlaces` | src/ipc_ring_demo.c:166-190 | where the demonstration starts, before its tasks are created, that reasoning applies |
| `FormatTheorems.DigitsValue` | src/bsp/vsnprintf_s.c:164-173 | the digits of a number denote it in its base, with or without leading zeros |
| `FormatTheorems.DigitsFit` | src/bsp/vsnprintf_s.c:87 | a 64-bit number fits the 32-character scratch buffer exactly unless the base is 2 and it has more than 32 bits |
| `FormatTheorems.NumberLength` | src/bsp/vsnprintf_s.c:175-293 | the number of characters is the larger of width and sign plus the larger of precision and digits |
| `FormatTheorems.NumberLengthZeroPrecision` | src/bsp/vsnprintf_s.c:275-283 | with precision 0 the digits' columns are taken off the field and left out |
| `FormatTheorems.NumberReadsBack` | src/bsp/vsnprintf_s.c:106-293 | what is printed reads back as the signed number, as 0 with precision 0 |
| `FormatTheorems.IntegerReadsBack` | src/bsp/vsnprintf_s.c:575-595 | for every length modifier, base, flag set, width and precision the text reads back as the argument at that width exactly when the precision is not 0 or the argument is 0 |
| `FormatTheorems.PrecisionZeroDrops` | src/bsp/vsnprintf_s.c:275 | `%.0d` of 5 prints nothing |
| `FormatTheorems.StringLength` | src/bsp/vsnprintf_s.c:459-495 | a string directive prints the whole string exactly when neither its width nor a positive precision is less than the string's length; with a width it prints exactly that many characters |
| `FormatTheorems.WidthCuts` | src/bsp/vsnprintf_s.c:466 | `%3s` of four characters prints three |
| `FormatTheorems.LiteralText` | src/bsp/vsnprintf_s.c:341-352 | text without directives is copied up to its terminator |
| `FormatTheorems.PrintDecimal` | src/bsp/vsnprintf_s.c:540-544 | a `%d` on its own prints the decimal of a 32-bit signed argument |
| `FormatMeaning.NumeralUnique` | src/bsp/vsnprintf_s.c:164-173 | a number has one numeral in a base: digits below the base, no leading zero |
| `FormatMeaning.BareText` | src/bsp/vsnprintf_s.c:523-595 | without width and precision, x and X print the numeral of the unsigned argument in base 16, with letters a to f and A to F, o in base 8, b in base 2, u in base 10; d and i a sign and the numeral in base 10 of the signed argument; the argument has the bits of its length modifier |
| `FormatMeaning.PrecisionText` | src/bsp/vsnprintf_s.c:175-283 | a precision puts zeros between that sign and those digits, and precision 0 leaves the digits out |
| `FormatMeaning.WidthText` | src/bsp/vsnprintf_s.c:184-293 | a width pads that text: with spaces behind it for -, with zeros behind the sign for 0 without -, and else with spaces in front |
| `FormatMeaning.ReadsBack` | src/bsp/vsnprintf_s.c:523-595 | for every width, precision and flags: read in base 16, 8, 2 or 10, as the conversion says, the text is the argument exactly when the precision is not 0 or the argument is 0 |
| `FormatMeaning.PointerText` | src/bsp/vsnprintf_s.c:497-513 | p prints what lx does, and without a width 16 digits with zeros in front |
| `FormatMeaning.CharText` | src/bsp/vsnprintf_s.c:433-457 | c prints the low byte of its argument and spaces, on the side that - says |
| `FormatMeaning.StringText` | src/bsp/vsnprintf_s.c:459-495 | s prints the string, or (NULL), cut by width and positive precision, and spaces on the side that - says |
| `FormatMeaning.OtherText` | src/bsp/vsnprintf_s.c:515-573 | any other conversion prints a percent sign and itself, or the sign alone behind another and at the end of the format |
| `FormatMeaning.RenderAt` | src/bsp/vsnprintf_s.c:341-598 | a directive is followed by the rest of the format, with one argument less exactly for c, s, p and the integers |
| `FormatReading.DirectiveRead` | src/bsp/vsnprintf_s.c:354-428 | a directive made of flags, a width, a precision and a length modifier is read as what these texts mean: the flags that occur, decimal numbers, -1 for a part that is missing, and the arguments of stars, a negative width being - and its amount and a negative precision 0 |
| `FormatReading.PartsExist` | src/bsp/vsnprintf_s.c:354-428 | whatever stands behind a percent sign splits into such parts |
| `FormatReading.PrintHex` | src/bsp/vsnprintf_s.c:533-595 | `%x` prints the numeral of the 32-bit argument in base 16 with small letters |
| `Printf.Fill` | src/bsp/vsnprintf_s.c:192-200 | the padding loop puts that many characters and leaves the size it leaves |
| `Printf.Extract` | src/bsp/vsnprintf_s.c:164-173 | the scratch buffer holds the digits backwards, within its 32 characters |
| `Printf.PrintNumber` | src/bsp/vsnprintf_s.c:68-296 | the buffer holds the number's text below its end and is otherwise unchanged; the position advances by the full length; `size` stays an `int`, and what is left in it is the least value it takes when there is nothing to pad, so the demand on it is exact |
| `Printf.SmallPrecisionStaysInt` | src/bsp/vsnprintf_s.c:175-293 | the demand is met by every precision but the largest four |
| `Printf.FillTo` | src/bsp/vsnprintf_s.c:474-492 | the padding loop of strings, and what it leaves in the width |
| `Printf.SkipAtoi` | src/bsp/vsnprintf_s.c:48-55 | the decimal number at a position, and where it ends, no value leaving `int` |
| `Printf.AtoiIsExact` | src/bsp/vsnprintf_s.c:48-55 | that is so exactly for numbers up to the largest `int` less 48, because '0' is taken off last |
| `Printf.WideFieldLeavesInt` | src/bsp/vsnprintf_s.c:371-374 | `%4294967299d` is a directive for which it is not |
| `Printf.ParseDirective` | src/bsp/vsnprintf_s.c:354-426 | flags, width, precision and length modifier, with the arguments that stars take, in `int` arithmetic |
| `Printf.PutChar` | src/bsp/vsnprintf_s.c:433-457 | a character in its field |
| `Printf.PutString` | src/bsp/vsnprintf_s.c:459-495 | a string, cut by width and precision, in its field |
| `Printf.Convert` | src/bsp/vsnprintf_s.c:431-596 | the text of any directive, which FormatMeaning gives in terms of its characters and argument |
| `Printf.FitsIsExact` | src/bsp/vsnprintf_s.c:87 | for an integer directive the digits fit the scratch buffer exactly unless it is `%lb` with more than 32 bits |
| `Printf.LongBinaryOverruns` | src/bsp/vsnprintf_s.c:87 | `%lb` of 2^32 has 33 digits |
| `Printf.EndAddress` | src/bsp/vsnprintf_s.c:331-339 | for every address and size where the end lies, wrap-around included, and when the distance to the last address is positive as an `int` |
| `Printf.Limits` | src/bsp/vsnprintf_s.c:331-339 | a size that is not negative bounds the text by itself; a negative one does not bound it, and leaves a positive room exactly for addresses in the upper half of a 4 GiB block |
| `Printf.KernelMemoryNeverEnds` | src/bsp/mmu.c:21-27 | no address of the kernel's memory is such an address |
| `Printf.PutText` | src/bsp/vsnprintf_s.c:341-598 | the loop puts exactly the text of the format, of which what lies below the end is stored |
| `Printf.VsnprintfS` | src/bsp/vsnprintf_s.c:311-615 | the result is the length of the untruncated text, cast to `int`; the buffer holds its longest prefix that leaves room for the NUL, then the NUL, and is otherwise unchanged; size 0 writes nothing; with a negative size the whole text is stored, and the NUL exactly at such addresses |
| `Printf.SignedIsInt` | src/bsp/vsnprintf_s.c:614 | that cast keeps the length exactly up to the largest `int` |
| `Shell.ShellCB.UartRxHandle` | src/bsp/print.c:179-201 | the interrupt stores each byte, wraps, and posts, as the receive steps say |
| `Shell.ShellCB.PendRx` | src/kernel/shell/shmsg.c:306 | the pend goes on at once exactly when there is a token, and otherwise waits |
| `Shell.ShellCB.Fetch` | src/kernel/shell/shmsg.c:308 | the byte at the read offset |
| `Shell.ShellCB.Advance` | src/kernel/shell/shmsg.c:309-312 | the read offset moves on and wraps |
| `Shell.LineEditor.Clear` | src/kernel/shell/shmsg.c:298-302 | an empty line in a zeroed buffer |
| `Shell.LineEditor.AcceptByte` | src/kernel/shell/shmsg.c:314-341 | one byte edits the line, or ends it as a C string, exactly for carriage return and line feed |
| `Shell.StrEqual` | src/kernel/shell/shmsg.c:41-51 | equality of the texts before the terminators |
| `Shell.DispatchCmd` | src/kernel/shell/shmsg.c:250-280 | the first command whose name is the token runs with the text behind the spaces; nothing for an empty line; unknown exactly when no name is the token |
| `Shell.TokenIsWord` | src/kernel/shell/shmsg.c:260-264 | cutting the token at 15 characters never confuses names shorter than that |
| `Shell.CommandTable` | src/kernel/shell/shmsg.c:67-78 | the shipped names are single words, short enough, and all different |
| `Shell.CommandRuns` | src/kernel/shell/shmsg.c:250-280 | with the shipped table a command runs exactly for the lines that are its name, or its name and a space and anything |
| `Shell.UnknownCommand` | src/kernel/shell/shmsg.c:278-279 | and a line is unknown exactly when it is not empty and begins with no name so |
| `ShellLoop.ShellTask` | src/kernel/shell/shmsg.c:284-344 | the loop, with bytes arriving at three points of every round: all of them arrive and one is read in each round, but for rounds in which there is none to read and the shell only waits; while no more than 272 are unread, the line being typed and every dispatched command are those that editing makes of the bytes read, in arrival order |
| `ShellLoop.OneRound` | src/kernel/shell/shmsg.c:305-341 | one round: it waits exactly when nothing is unread and nothing comes before the read, and otherwise takes one byte through editor and dispatcher |
| `ShellOnKernel.ActRefines` | src/bsp/print.c:179-201 | on the kernel: a received byte with its post, and a step of the shell with its pend, are exactly the events of ShellSpec; any other kernel call is none |
| `ShellOnKernel.RunRefines` | src/kernel/shell/shmsg.c:296-343 | every run of interrupts, shell steps and other kernel calls is a run of ShellSpec |
| `ShellOnKernel.KernelShellReads` | src/kernel/shell/shmsg.c:296-343 | so the shell is on the semaphore's list only when every byte has been read, and with a bounded backlog dispatches the lines that editing makes of the bytes in arrival order |
| `ShellOnKernel.StartFromCall` | src/bsp/print.c:71 | creating the receive semaphore leads there, before or after the scheduler starts |
| `ShellTheorems.NoLostWakeup` | src/kernel/shell/shmsg.c:306 | the shell sleeps only when every byte has been read |
| `ShellTheorems.FetchExact` | src/kernel/shell/shmsg.c:308-312 | the byte read is the newest on its slot, the next in order exactly when at most 272 are unread |
| `ShellTheorems.ShellReadsInOrder` | src/kernel/shell/shmsg.c:296-343 | with a bounded backlog, for every interleaving, the dispatched lines are those that editing makes of the bytes in arrival order |
| `ShellTheorems.AcceptByCode` | src/kernel/shell/shmsg.c:314-341 | every byte by its code: 0x0D and 0x0A hand the line on and empty it; 0x7F and 0x08 drop the last character; 0x20 to 0x7E are appended below 271 characters; all others do nothing |
| `ShellTheorems.LineFits` | src/kernel/shell/shmsg.c:333-341 | a line has at most 271 characters, of the codes 0x20 to 0x7E |
| `ShellTheorems.TypedLine` | src/kernel/shell/shmsg.c:325-341 | up to 271 characters of those codes and then 0x0D or 0x0A dispatch exactly that text |
| `ShellTheorems.EraseUndoes` | src/kernel/shell/shmsg.c:314-323 | 0x7F or 0x08 undoes a typed character exactly when the line had room for it |
| `ShellTheorems.OverrunReadsLater` | src/bsp/print.c:192-195 | 273 bytes before the shell gets to run: it reads the last one first |
| `ShellTheorems.EraseLosesOnFullLine` | src/kernel/shell/shmsg.c:333-340 | on a line of 271 characters, one more and an erasure leave 270 |

## Left out

- Assembly, system registers, cache and TLB maintenance, exception vectors and context save and restore: no semantics in C.
- The writes of TCR, TTBR and MAIR, and the value of TTBR. `GetTcr` takes the list that it measures as a parameter; the fault of addresses wider than T0SZ says is not part of the walk.
- Interrupt controller, timer and UART registers, and transmission: device input and output. The receive FIFO is a sequence of bytes.
- Shell command bodies, `ps`, `semstat`, and what the priority-inversion demonstration prints: output only.
- Functions declared in `src/include/prt_task.h` and `src/include/prt_sem.h` without code: suspend, delete, delay, set priority.
- The task lock and the interrupt-active flags, which no code shown sets, and the TIMEOUT and DELAY status bits.
- Wrap-around of 32-bit counters, and of addresses outside the stated ranges.
- Stack contents and entry functions of tasks: only which stack blocks are used is kept.
- Kernel.Sys.CreateSem: the unused semaphores are a sequence of handles; in the code their list heads are linked in a list of their own.
- Kernel.Sys.Pend: pends before the scheduler starts, from an interrupt's own context, and by the idle task.
- Kernel.Sys.ExitTask: an exit of the idle task.
- RingSpec tasks: the two producer bodies are one step function with a base number, and likewise the consumers; messages and the start function's error returns are not modelled.
- Mmu.Ctrl.AddMap: levels above 3, regions misaligned for their level, across a multiple of the root's reach or above 2^48 in physical memory, and attributes that overlap the address or type bits; the code checks none of these.
- Mmu.Ctrl.SetupPgtables: the same demands, for each region of the list.
- Mmu.Ctrl.MapBlock, Mmu.Ctrl.MapRegions, Mmu.Ctrl.BuildTables, Mmu.Ctrl.HangTable: parts of `mmu_add_map`, `mmu_add_map_pte_process` and `mmu_setup_pgtables`, as methods of their own.
- Printf.VsnprintfS: with a negative size, memory that ends before the text does, and addresses from 2^48 on; a missing or mistyped argument reads as 0 or as the text for a null pointer; `%lb` of more than 32 bits is excluded because the code then writes outside its scratch buffer. Widths, precisions and strings for which `int` arithmetic overflows are excluded, because C gives it no value.
- Printf.Extract: numbers of more than 32 digits, for the same reason.
- Printf.PrintNumber: numbers of more than 32 digits; sizes that leave `int`; `0x` prefixes, which the build leaves out; the padding loops are calls of one method.
- Printf.Convert, Printf.PutText: `%lb` of more than 32 bits, and values that leave `int`.
- IntrusiveList.MoveToTail: the end of a list only; the place in a priority list is `KernelLists.Lists.Enqueue`.
- Shell.DispatchCmd: returns which handler would run instead of running it.
- ShellLoop.ShellTask: bytes arrive at three points of each round of the loop; the model allows them between any two steps.
- ShellTheorems.ShellReadsInOrder: fewer than 2^32 - 2 unread bytes, where the semaphore's count ends.
- Nested and transitive inheritance: the code has none; `KernelTheorems.PriorityOrigin`, `KernelTheorems.MostUrgentRunsUnless` and `SemTheorems.PostPriority` are what holds of nested use.
