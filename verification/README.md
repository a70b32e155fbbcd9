# Verified models of the mboot kernel and its Lua collector

This project models the parts of the mboot kernel (`stage2/`) and of the Lua 5.5 interpreter it ships
(`user/lua/`) whose correctness rests on invariants across many functions, and proves those invariants.
Code that changes state in place is a class whose methods do what the C code does; each method is proved
against a specification function or relation, and the theorems are about those. Protocols between tasks
and interrupts are state machines whose steps are the atomic pieces of the code.

| modules | what they are about |
|---|---|
| `HeapLayout`, `HeapMemory`, `KernelHeap` | `kmalloc`/`kfree` on bytes: headers, the linked free list, splitting and coalescing |
| `PageTables`, `AddressSpaces`, `UserImages` | page directories and tables, cloning for fork, building the address space of a program |
| `RoundRobin`, `TaskList`, `Sleepers`, `DiskLock` | the scheduler, no starvation, blocking and waking, the sleeping disk lock |
| `TerminalInput`, `TerminalLines` | the keyboard queue and its reader, line editing |
| `Fat16Files`, `Descriptors` | reading cluster chains, descriptor tables and reference counts |
| `InternetChecksum`, `UdpDatagrams` | one's-complement sums, UDP/IPv4 frames, the receive queue |
| `LuaMarking`, `LuaAtomic`, `LuaCollector`, `LuaRuns`, `LuaSteps`, `LuaSafety`, `LuaReclaim`, `LuaGlobalState`, `LuaEphemerons`, `LuaWeakKeys` | the incremental collector: marking, barriers, the atomic phase, sweeping, whole runs, ephemeron tables |
| `LuaLines`, `LuaJumps`, `LuaStrings` | the compressed line table, jump threading, the string table |
| `Bytes`, `Bags` | shared helpers |

Main results:

- **Collector.** Under every interleaving of allocation, barriered writes, stack changes, interning of
  strings and collector steps no black object refers to a white one before the flip
  (`BlackNeverToWhite`), the flip leaves everything reachable marked (`FlipMarksReachable`), nothing
  reachable is ever freed (`ReachableNeverFreed`), a collector step changes nothing about what can be
  reached (`CollectSameReach`), and what is unreachable when a cycle starts and survives it is a string
  that was interned meanwhile (`CycleReclaims`). Whatever a program stores it can reach afterwards
  (`StoredReachable`). Incremental steps end every cycle within a bound (`CycleEnds`), and a cycle left to
  itself frees all garbage (`GarbageFreed`). The list of threads with open upvalues is exact in every
  state and never holds a freed thread (`TwupsExact`). With ephemeron tables the atomic phase marks the
  least set that follows ordinary references and the entries of marked keys, no more and no less
  (`MarkedIsLeast`), and lists every marked table that has a key to be cleared (`AtomicListsTables`).
- **Heap.** The byte-level allocator keeps the managed range partitioned, its free list is exactly the
  free blocks in address order, live payloads are untouched, coalescing is maximal, and a block taken
  from the list and given back restores the heap (`Kmalloc`, `Kfree`, `RunKeeps`, `MallocThenFree`).
- **Paging.** Mapping changes exactly one page of one directory, also when a large page is split;
  in every run the boot directory stays an identity map and each table has one owner; a fork gives a
  child that reads the same everywhere; spawn, exec and fork keep every directory fit to be forked; a
  program's address space shows, byte by byte, the last segment that covers it, also after a fork, and has
  no page more than the least span around its segments and its stack call for (`ProgramIs`, `SpanLeast`).
- **Scheduler.** A ready task is chosen within as many scheduling calls as there are other tasks, plus
  one per task created meanwhile (`NoStarvation`); a runnable task stays runnable until it blocks or exits
  itself (`RunnableStays`), and until then every window of that many calls chooses it (`AlwaysAgain`).
- **Blocking.** The disk lock is exclusive and loses no wake-up, a free lock is taken at once, and whoever
  waits for a lock, a key or a task's exit runs again within a bound (`WaiterRunsAgain`,
  `ReaderRunsAgain`, `WaiterRuns`); the terminal's reader sleeps only while its queue is empty and receives
  characters in order.
- **Files.** Any sequence of reads through any descriptors delivers contiguous bytes of the flat file, at
  the places that the sizes of the volume's regions give (`LayoutIs`, `ClusterApart`); reference counts
  cover every descriptor in every run.
- **UDP.** Every payload up to 1472 bytes arrives unchanged; a segment under foreign addresses is dropped
  unless a one's-complement sum cannot tell them apart (`Misdelivered`).
- **Lua compiler and strings.** The line table decodes to the recorded lines after any edits; threaded
  jumps reach the same instructions; equal short strings are one object through every resize.

Statements that one might expect and that are false of the code, each with a case in which it fails and
the exact condition under which it holds:

- A collection cycle frees everything that was unreachable when it began. `internshrstr` hands out a
  string that is still in the string table, whether it can be reached or not. Every unreachable string
  can be kept this way (`RevivedSurvives`, and `DroppedSurvives` from a fresh state), and nothing else can
  (`CycleReclaims`).
- A cloned directory shares the parent's unmarked pages. It does if and only if the parent maps none of
  them away from the frame of the same number (`CloneShares`; `UnmarkedIsLost`). Spawn, exec and fork
  establish that for all the directories they make (`Spawn`, `Exec`, `ForkSpace`).
- A write through a copied page is invisible on the other side. Every directory also shows all frames
  through the identity map, so the write shows exactly in the page numbered like the frame, if the
  other side has not marked that page (`ChildWriteHidden`, `ParentWriteHidden`; `WritesLeak`).
- Rebinding a terminal keeps reference counts exact. It does if and only if descriptors 0 to 2 name no
  counted object, and counts are exact at the end of a run if and only if every rebinding was of that
  kind (`BindTtyInv`, `RunRefs`; `ReferenceLost`).
- An exited task stays exited. It does unless it goes on to block, which nothing prevents before the
  next tick (`ExitedStays`; `ExitUndone`, and `ExitUndoneAfterBoot`).
- A backspace takes back the key before it. It does if and only if the line had room for that key
  (`BackspaceUndoes`).
- The UDP checksum detects a replaced payload word. It does if and only if the change is not between
  0x0000 and 0xFFFF (`CorruptionRejected`; `ExchangeUnnoticed`).
- `kmalloc` notices when memory is exhausted. Its 32-bit test is right if and only if the new end does
  not wrap around into the managed range (`WrapExact`; `WrapPasses`).
- A read returns the bytes of the file wherever the partition lies. Addresses are computed in 32 bits: a
  range is read right on every disk if and only if it starts below 4 GiB (`AddressExact`; `HighMisread`),
  and a file is the one that the layout describes if all of its clusters do (`LowIsTrue`).
- The stack of a new program gets mapped. The 32-bit loop ends after the stack's last page if and only if
  the stack ends before the last page of the address space (`StackLoopExact`; `StackLoopFails`).
- The kernel heap is shared between parent and child. The bytes on the first and the last page of the
  parent's stack that do not belong to the stack are not; all other heap bytes outside the image are
  (`HeapShared`, `ForkedStore`; `HeaderBesideStack`).

Beyond what the compiler does: it emits between any two removals of a line, which `RunOk` covers. After
more removals an emission is recorded if and only if it is absolute or the writer's previous line is right
(`SaveExact`).

## Model

| member | source | states |
|---|---|---|
| HeapLayout.Disjoint | stage2/mem.c:114-211 | In a partitioned range any two blocks are disjoint and in address order |
| HeapLayout.MallocKeeps | stage2/mem.c:137-211 | Every allocation keeps the range partitioned into headers, payloads and pads below 8 bytes, and keeps coalescing maximal |
| HeapLayout.GrowsOnlyWhenFull | stage2/mem.c:167-211 | The bump pointer moves only when every free block is too small, and never back |
| HeapLayout.FreeKeeps | stage2/mem.c:214-272 | Freeing keeps the partition, and afterwards no two free blocks touch |
| HeapLayout.MallocThenFree | stage2/mem.c:114-272 | A block served from the free list and freed at once restores the heap exactly |
| HeapLayout.MallocInUse | stage2/mem.c:167-211 | An allocation adds exactly one block in use, large enough and new, and changes no other |
| HeapLayout.FreeInUse | stage2/mem.c:224-272 | Freeing takes exactly that block out of use |
| HeapLayout.RunKeeps | stage2/mem.c:114-272 | After any sequence of calls on live blocks the range is partitioned, coalesced, and blocks are pairwise disjoint |
| HeapLayout.AlignedPageApart | stage2/paging.c:68-71 | The aligned page inside a two-page block lies in its payload and meets no other block |
| HeapMemory.BypassLinked | stage2/mem.c:114-135 | Unlinking an entry leaves a list of exactly the other free blocks |
| HeapMemory.InsertLinked | stage2/mem.c:224-272 | Linking a block at its place leaves a list in strictly increasing address order |
| KernelHeap.TakenOk | stage2/mem.c:114-135 | After a block is taken off the list, headers and list agree with the block list and live payloads are unchanged |
| KernelHeap.SplitHeaders | stage2/mem.c:137-165 | The remainder's header is written inside the old block; every other header and live payload survives |
| KernelHeap.MergeOk | stage2/mem.c:214-222 | Joining two touching list entries gives the merged block list |
| KernelHeap.ExtendOk | stage2/mem.c:183-211 | A bump-allocated block extends the block list; everything before it is unchanged |
| KernelHeap.Heap.FindFreeBlockAndRemove | stage2/mem.c:114-135 | First fit over the linked list: finds the first block that fits and removes it, or returns null exactly when none fits |
| KernelHeap.Heap.TrySplitBlock | stage2/mem.c:137-165 | A large remainder is split off and put on the list, a small one stays with the block |
| KernelHeap.WrapExact | stage2/mem.c:192-199 | The 32-bit exhaustion test is right if and only if the new end does not wrap around into the managed range |
| KernelHeap.Heap.Kmalloc | stage2/mem.c:167-211 | The new payload lies behind a header of 12 bytes, is zeroed and large enough, all other live bytes are unchanged, the layout is the specified one, and it halts exactly when nothing fits and the range is used up, for every size whose rounding and new end do not wrap around into the range |
| KernelHeap.Heap.TryCoalesceAdjacent | stage2/mem.c:214-222 | Joins two neighbouring entries exactly when they touch |
| KernelHeap.Heap.Kfree | stage2/mem.c:224-272 | Foreign pointers are ignored; a live one gives the specified layout, list order and coalescing included, with all other live bytes unchanged |
| PageTables.CreatedInv | stage2/paging.c:73-77 | A new directory translates every page to itself and no other directory changes |
| PageTables.MappedExact | stage2/paging.c:79-105 | Mapping changes the translation of exactly that page of exactly that directory, also when it splits a large page |
| PageTables.FreedExact | stage2/paging.c:139-159 | A freed directory translates like the boot directory, and no other directory is affected |
| PageTables.FreedTables | stage2/paging.c:139-159 | The tables that a freed directory gives up lead to none of its marked pages any more, and their other entries are as they were |
| PageTables.CloneShares | stage2/paging.c:107-135 | Marked pages are copied to frames not in use; unmarked ones are shared if and only if the parent maps none of them elsewhere |
| PageTables.ForkReadsSame | stage2/paging.c:107-135 | After a clone every virtual page reads the same in parent and child |
| PageTables.ChildWriteHidden | stage2/paging.c:107-135 | A write through a copied page of the child shows in the parent exactly through the page numbered like the frame, if the parent has not marked it |
| PageTables.ParentWriteHidden | stage2/paging.c:107-135 | A write through a copied page of the parent shows in the child exactly through the page numbered like the frame, if it is not marked |
| PageTables.WritesLeak | stage2/paging.c:107-135 | In the clone of a directory with one marked page both kinds of write do show on the other side |
| PageTables.OneReachable | stage2/paging.c:73-105 | That directory comes about in three steps after boot |
| PageTables.UnmarkedIsLost | stage2/paging.c:119-122 | A page mapped elsewhere without the mark is not carried over to the child |
| PageTables.RunInv | stage2/paging.c:41-159 | In every run the boot directory stays all large identity pages and each page table has exactly one owner |
| PageTables.RunMarked | stage2/paging.c:79-135 | If every mapping carries the mark and leads to a frame that was handed out, every directory maps its unmarked pages to themselves in every state |
| PageTables.ForkInRun | stage2/scheduler.c:514 | A fork at any point of such a run gives a child that reads the same as its parent |
| AddressSpaces.Paging.constructor | stage2/paging.c:41-53 | The boot directory maps every 4 MiB range to itself |
| AddressSpaces.Paging.AllocPage | stage2/paging.c:68-71 | Some frame that is not in use, zeroed |
| AddressSpaces.Paging.MapPage | stage2/paging.c:79-105 | Performs the mapping on the tables in memory and keeps the invariant of every directory but the boot one |
| AddressSpaces.Paging.CloneDirectory | stage2/paging.c:107-135 | The nested loops produce the clone: each marked page copied once to its own fresh frame, everything older untouched |
| AddressSpaces.Paging.FreeDirectory | stage2/paging.c:139-159 | Clears the marked entries of the directory's tables, restores its slots, and does nothing for null and the boot directory |
| UserImages.SpanEncloses | stage2/scheduler.c:120-131 | The span is page aligned and encloses every segment |
| UserImages.SpanLeast | stage2/scheduler.c:120-131 | No smaller page-aligned span does |
| UserImages.SpanPageIs | stage2/scheduler.c:120-131 | A page belongs to the span if and only if it holds a byte of a segment or lies between two such pages |
| UserImages.EmptySpan | stage2/scheduler.c:132-133 | Building fails if and only if the segments have no page between them |
| UserImages.ProgramIs | stage2/scheduler.c:120-180 | Every address of a built space: a stack page mapped to itself with the mark, a page of the span with the image's byte, or the page's own frame without the mark |
| UserImages.CopySegment | stage2/scheduler.c:150-165 | Copying in page-sized chunks puts each byte of a segment at its address and nothing else |
| UserImages.BuildImage | stage2/scheduler.c:120-165 | Fresh pages for the whole span hold, byte by byte, the last segment covering the address, else zero; fails exactly on an empty span |
| UserImages.MapStack | stage2/scheduler.c:376-379 | Exactly the pages that hold a byte of the stack are mapped to themselves with the mark |
| UserImages.StackLoopExact | stage2/scheduler.c:376-379 | The 32-bit mapping loop ends after the stack's last page if and only if the stack ends before the last page of the address space |
| UserImages.Spawn | stage2/scheduler.c:328-379 | Fails if and only if no page lies between the segments; else a new registered directory that is, address by address, the program its segments and stack describe and maps nothing else; every older directory and plain frame is undisturbed; every directory stays fit to be cloned |
| UserImages.Exec | stage2/scheduler.c:94-180 | The same address space after the temporary clone, and the old directory given up; every directory stays fit to be cloned |
| UserImages.ForkSpace | stage2/scheduler.c:510-514 | The child reads the same as its parent at every page, nothing else changes, and every directory stays fit to be cloned |
| UserImages.ForkProgram | stage2/scheduler.c:510-514 | A fork of a spawned or exec'd program shows the same byte at every address, and the image in its span |
| UserImages.SpawnExecFork | stage2/scheduler.c:94-180 | A program spawned, replaced by another image and forked: the child shows that image |
| UserImages.ForkShares | stage2/scheduler.c:510-514 | After the fork of a program parent and child see the same frame at a page if and only if it belongs neither to the image nor to the stack |
| UserImages.ForkedStore | stage2/scheduler.c:510-514 | A store by the child shows at the same address of the parent exactly at those pages |
| UserImages.HeapShared | stage2/scheduler.c:376-379 | A heap byte outside the stack and the image stays shared if and only if it does not lie on the first or last page of the stack |
| UserImages.BuildersAgree | stage2/scheduler.c:120-180 | Spawn and exec show the same byte at every address of the image and lead to the same frames elsewhere |
| RoundRobin.DoInv | stage2/scheduler.c:433-506 | Every step keeps the list one cycle with each task once, and at most the current task running |
| RoundRobin.ExitedStays | stage2/scheduler.c:556-576 | An exited task changes state if and only if it itself blocks |
| RoundRobin.ExitUndone | stage2/scheduler.c:487-492 | Whichever task but idle exits and then blocks is no longer exited |
| RoundRobin.ExitUndoneAfterBoot | stage2/scheduler.c:556-576 | That happens four steps after boot |
| RoundRobin.DoCloser | stage2/scheduler.c:433-482 | Each scheduling call brings a ready task closer or chooses it; only a new task can push it back, by one |
| RoundRobin.NoStarvation | stage2/scheduler.c:433-482 | A ready task is current at some point of every run with at least list length minus one plus tasks created scheduling calls |
| RoundRobin.RunInv | stage2/scheduler.c:250-306 | The invariant and the idle anchor hold in every state of every run |
| RoundRobin.RunnableStays | stage2/scheduler.c:460-506 | A runnable task stays on the list and runnable through every step but its own blocking and exit |
| RoundRobin.AlwaysAgain | stage2/scheduler.c:433-482 | A task that neither blocks nor exits is chosen in every window of list length plus tasks created scheduling calls, also if it is current at the start |
| RoundRobin.TickReady | stage2/scheduler.c:460-474 | A runnable task whose turn ends by a tick goes on or waits as ready |
| RoundRobin.BlockRuns | stage2/scheduler.c:433-492 | A blocking task ends up blocked on its key and another one runs if and only if another is runnable; alone it goes on running |
| RoundRobin.NewestNext | stage2/scheduler.c:301-302 | A task created while idle runs is the next to run, whether idle is preempted or blocks |
| TaskList.Scheduler.FindNext | stage2/scheduler.c:437-442 | The walk along the links stops at the first runnable task, or at the current one |
| TaskList.Scheduler.ScheduleNext | stage2/scheduler.c:433-451 | Performs the specified choice on the linked list |
| TaskList.Scheduler.TickTimer | stage2/scheduler.c:460-474 | A tick on the linked list in place: the step whose effect `RunnableStays` and `TickReady` state |
| TaskList.Scheduler.BlockOn | stage2/scheduler.c:487-492 | Blocking on the linked list in place: the step whose effect `BlockRuns` states |
| TaskList.Scheduler.WakeKey | stage2/scheduler.c:496-506 | Exactly those blocked on the key become ready; the null key wakes nobody |
| TaskList.Scheduler.InsertTask | stage2/scheduler.c:301-302 | The links after insertion are the cycle with the new task right behind idle |
| TaskList.Scheduler.ExitCurrent | stage2/scheduler.c:556-566 | Marks the current task exited and wakes its waiters; idle cannot exit |
| Sleepers.BlockSleepers | stage2/scheduler.c:487-492 | Blocking makes only the current task sleep, and only on that key |
| Sleepers.WakeSleepers | stage2/scheduler.c:496-506 | Exactly those that slept on the key, unless it is null, sleep no more, and they are ready |
| Sleepers.ExitSleepers | stage2/scheduler.c:556-566 | A task other than idle ends up exited, and exactly those that slept on its pid are awake and ready |
| Sleepers.WaiterRuns | stage2/scheduler.c:556-576 | Whoever sleeps on the pid of a task that exits is chosen within as many scheduling calls as there are other tasks plus tasks created |
| DiskLock.MoveInv | stage2/dev/disk.c:12-27 | Every step of every task and every interrupt keeps one owner, masked points and honest sleepers |
| DiskLock.MutualExclusion | stage2/dev/disk.c:12-27 | In every interleaving at most one task is between lock and unlock |
| DiskLock.NoLostWakeup | stage2/dev/disk.c:12-27 | A task sleeps on the lock only while it is owned, or just before the unlocking task wakes all sleepers |
| DiskLock.WakeAllInv | stage2/dev/disk.c:22-27 | After the wake in unlock nobody sleeps on the lock and every former sleeper is ready |
| DiskLock.FreeLockTaken | stage2/dev/disk.c:12-20 | A task at the start of the lock, or woken in its loop, gets a free lock in three moves and nothing else changes |
| DiskLock.TakenLockWaits | stage2/dev/disk.c:12-20 | A taken one makes it wait with interrupts enabled, asleep if any other task can run |
| DiskLock.LockGivenBack | stage2/dev/disk.c:22-27 | The four moves of unlock leave the lock free, nobody asleep on it and interrupts enabled |
| DiskLock.MovePoints | stage2/dev/disk.c:12-27 | A move of the lock changes the place of the current task only, any other move no place; a new task begins outside |
| DiskLock.RunsProject | stage2/dev/disk.c:12-27 | Every interleaving of lock moves is a run of the scheduler, with its steps in the same order |
| DiskLock.WaiterRunsAgain | stage2/dev/disk.c:12-27 | Whoever sleeps on the lock when it is given up is chosen again within as many scheduling calls as there are other tasks plus tasks created |
| TerminalInput.PushPending | stage2/dev/tty.c:128-134 | A character is appended unless 255 are waiting |
| TerminalInput.PopPending | stage2/dev/tty.c:152-154 | The oldest character is taken and the rest stay in order |
| TerminalInput.MoveInv | stage2/dev/tty.c:142-155 | Every step of reader, keyboard, timer and other tasks keeps the queue and sleeping invariants |
| TerminalInput.SleepsOnlyWhenEmpty | stage2/dev/tty.c:142-155 | In every interleaving the reader sleeps on its terminal only while the queue is empty |
| TerminalInput.TakenInOrder | stage2/dev/tty.c:128-155 | What was taken and what still waits are together the arrived characters in order, without those that came while 255 were waiting |
| TerminalInput.ReaderGets | stage2/dev/tty.c:142-155 | With input waiting a reader gets the oldest character in four moves and leaves the rest |
| TerminalInput.ReaderSleeps | stage2/dev/tty.c:142-150 | With none it sleeps on its terminal if any other task can run |
| TerminalInput.KeyWakes | stage2/dev/tty.c:305-306 | A key makes a sleeping reader ready and leaves nobody asleep on the terminal |
| TerminalInput.RunsProject | stage2/dev/tty.c:128-155 | Every interleaving of reader, keys and other tasks is a run of the scheduler |
| TerminalInput.ReaderRunsAgain | stage2/dev/tty.c:142-155 | A reader asleep when a key arrives is chosen again within as many scheduling calls as there are other tasks plus tasks created |
| TerminalInput.InputQueue.Push | stage2/dev/tty.c:128-134 | The ring after a push holds the specified characters |
| TerminalInput.InputQueue.Take | stage2/dev/tty.c:152-154 | Returns the oldest character and leaves the others |
| TerminalLines.LineShape | stage2/dev/tty.c:264-289 | An edited line is printable, ends in its only newline and fits the buffer |
| TerminalLines.BackspaceUndoes | stage2/dev/tty.c:264-289 | Backspace or delete takes back the printable key before it if and only if there was room for that key; on a full line an older character goes |
| TerminalLines.MistakeLeavesNoTrace | stage2/dev/tty.c:264-289 | A key taken back at once changes neither the line nor what is left of the input |
| TerminalLines.PlainTyping | stage2/dev/tty.c:264-289 | Printable keys and an end key give the line they spell, cut to 255 characters and ended by a newline |
| TerminalLines.OthersIgnored | stage2/dev/tty.c:264-289 | Exactly the other keys, a printable one on a full line and a backspace on an empty one change nothing |
| TerminalLines.LineBuffer.ReadLine | stage2/dev/tty.c:264-289 | The editing loop leaves exactly the edited line in the buffer and consumes its keys |
| TerminalLines.LineBuffer.Read | stage2/dev/tty.c:244-293 | Delivers the next bytes of the edited lines, at most the rest of one line, with at most one recursive call |
| Fat16Files.AtaLbaRead | stage2/dev/disk.c:45-83 | The sectors from the start address, in order |
| Fat16Files.ReadBytes | stage2/fat16.c:15-30 | Exactly the bytes from the 32-bit address on, however they lie across sectors, also past 4 GiB |
| Fat16Files.SectorCount | stage2/fat16.c:20-25 | The number of sectors comes out right also when the 32-bit end wraps around |
| Fat16Files.GetNextCluster | stage2/fat16.c:46-53 | The little-endian table entry at the 32-bit address of the cluster's entry |
| Fat16Files.LayoutIs | stage2/fat16.c:32-44 | The computed start of table, root directory and every cluster is the sum of the sizes of all regions before it: reserved sectors, every copy of the table, root entries, clusters |
| Fat16Files.RegionsApart | stage2/fat16.c:32-44 | Regions do not overlap and come in that order |
| Fat16Files.ClusterApart | stage2/fat16.c:210-213 | No byte of a cluster lies in a copy of the table, in the root directory or in another cluster |
| Fat16Files.EntryInTable | stage2/fat16.c:46-53 | The entry of a cluster lies in the first copy of the table if and only if that copy has room for it |
| Fat16Files.EntryBytes | stage2/fat16.c:46-53 | The two bytes of an entry are read low byte first |
| Fat16Files.ChainStep | stage2/fat16.c:352-389 | A chain goes on below 0xFFF8 and ends at 0xFFF8 to 0xFFFF |
| Fat16Files.ChainUnique | stage2/fat16.c:352-389 | A cluster starts at most one chain |
| Fat16Files.RestIs | stage2/fat16.c:352-361 | Skipping whole clusters ends at the byte the offset names, for any cluster size |
| Fat16Files.CopyChain | stage2/fat16.c:371-389 | The copy loop returns what is left of the chain, cut to the request |
| Fat16Files.OpenFiles.Read | stage2/fat16.c:335-394 | Returns the flat file's bytes from the slot's offset and moves that offset only; errors for bad descriptors and chains that end too early |
| Fat16Files.ReadIsFlat | stage2/fat16.c:335-394 | On a chain that covers the file a read returns the minimum of the request and what remains, from the offset on |
| Fat16Files.ReadResult | stage2/fat16.c:335-394 | A read fails if and only if the slot is unused or the chain ends before the file does; zero means that nothing was asked for or is left |
| Fat16Files.AddressExact | stage2/fat16.c:210-213 | Reading at the 32-bit address is right on every disk if and only if the true address is below 4 GiB |
| Fat16Files.LowIsTrue | stage2/fat16.c:210-213 | A chain whose clusters and entries lie below 4 GiB reads as the layout describes |
| Fat16Files.HighMisread | stage2/fat16.c:435 | On a partition that starts at 4 GiB another sector is read |
| Fat16Files.ReadsConcatenate | stage2/fat16.c:335-394 | Any sequence of reads on any slots delivers from each slot one contiguous piece of its file |
| Fat16Files.ReadsReach | stage2/fat16.c:335-394 | The slot ends at the sum of the requests or at the end of the file |
| Descriptors.UdpHandleClash | stage2/vfs.c:160 | A UDP device handle is also a socket handle exactly for ports 3072 to 3087 |
| Descriptors.CloseFdInv | stage2/vfs.c:463-476 | Closing drops one reference for one descriptor and cannot fail on a counted object |
| Descriptors.CloseEffect | stage2/vfs.c:463-476 | Closing succeeds on exactly the descriptors that name something and empties that one only |
| Descriptors.CloseTerminal | stage2/vfs.c:463-476 | Closing a terminal empties the descriptor and gives back nothing |
| Descriptors.OpenObjectInv | stage2/vfs.c:403-429 | Opening keeps counts exact, also when the table is full and the object is closed again |
| Descriptors.OpenObjectFresh | stage2/fat16.c:295-308 | A new object is named by the one descriptor just filled and by nothing else |
| Descriptors.OpenEffect | stage2/vfs.c:403-429 | A new object of the kind asked for goes to the lowest empty descriptor; opening fails if and only if the table of that kind or the descriptor table is full |
| Descriptors.DeviceEffect | stage2/vfs.c:403-429 | The same for a device without a count |
| Descriptors.FailedOpen | stage2/vfs.c:403-412 | In every run from boot a failed open leaves everything as it was |
| Descriptors.Dup2Inv | stage2/vfs.c:480-511 | Duplicating keeps the counts |
| Descriptors.Dup2Effect | stage2/vfs.c:480-511 | The new descriptor names the old one's object and no other descriptor changes; a failure changes nothing |
| Descriptors.Dup2Exact | stage2/vfs.c:480-511 | Succeeds if and only if both descriptors exist, the first names something, and no terminal but the own one would become a standard descriptor |
| Descriptors.BindTtyInv | stage2/vfs.c:527-538 | Rebinding keeps the lower bound always, and exactness if and only if descriptors 0 to 2 name nothing counted |
| Descriptors.BindEffect | stage2/vfs.c:527-538 | Descriptors 0 to 2 name the given terminal, or the first one if there is none such; all others are as before |
| Descriptors.ForkInv | stage2/vfs.c:542-558 | The child has the parent's descriptors, each with a reference of its own |
| Descriptors.ExitInv | stage2/vfs.c:560-576 | An exiting task ends with empty descriptors and gives up every reference |
| Descriptors.RunRefs | stage2/vfs.c:403-576 | In every run every count covers all mentions, and counts end exact if and only if they began exact and no rebinding overwrote a counted descriptor |
| Descriptors.ReferenceLost | stage2/vfs.c:527-538 | After boot, a spawn, an open, a duplication onto descriptor 0 and a rebinding leave a count above its mentions |
| Descriptors.NeverRecycled | stage2/net/socket.c:103-144 | No object that a descriptor names is ever handed out again |
| Descriptors.FileTables.AttachHandle | stage2/vfs.c:415-429 | The first empty descriptor is filled, or nothing changes |
| Descriptors.FileTables.NewObject | stage2/fat16.c:295-312 | The first unused slot of the right table is taken |
| Descriptors.FileTables.Open | stage2/vfs.c:403-412 | Opening on the tables in memory |
| Descriptors.FileTables.Close | stage2/vfs.c:463-476 | Closing on the tables in memory |
| Descriptors.FileTables.Duplicate | stage2/vfs.c:480-511 | `vfs_dup2` on the tables in memory |
| Descriptors.FileTables.ForkTable | stage2/vfs.c:542-558 | The copying loop performs the specified fork |
| Descriptors.FileTables.ExitTable | stage2/vfs.c:560-576 | The closing loop leaves the table empty |
| InternetChecksum.FoldMod | stage2/net/ipv4.c:91-93 | Folding keeps the sum modulo 65535 and gives zero only for zero |
| InternetChecksum.ValidIff | stage2/net/udp.c:70-73 | A checksum comes out zero exactly for non-zero multiples of 65535 |
| InternetChecksum.CompletedValid | stage2/net/udp.c:253-256 | A sum completed by its checksum, with zero sent as 0xFFFF, is valid and never reads as absent |
| InternetChecksum.WordChange | stage2/net/udp.c:41-73 | Replacing one word keeps a valid sum valid if and only if 0x0000 and 0xFFFF are exchanged and the new sum is not zero |
| InternetChecksum.AddWords | stage2/net/ipv4.c:77-89 | The summing loop adds all words and never overflows 32 bits |
| InternetChecksum.Ipv4Checksum | stage2/net/ipv4.c:77-96 | The complemented folded sum |
| UdpDatagrams.SegmentValid | stage2/net/udp.c:240-256 | A built segment passes the receiver's test and carries a checksum |
| UdpDatagrams.SegmentBytes | stage2/net/udp.c:240-256 | A segment byte by byte as RFC 768 lays it out |
| UdpDatagrams.PacketBytes | stage2/net/ipv4.c:98-134 | A packet byte by byte as section 3.1 of RFC 791 lays it out |
| UdpDatagrams.FrameBytes | stage2/net/ipv4.c:98-134 | A frame byte by byte, zeros up to 60 bytes |
| UdpDatagrams.PseudoHeader | stage2/net/udp.c:41-68 | The sum is that of the pseudo-header of RFC 768 followed by the segment |
| UdpDatagrams.OtherAddresses | stage2/net/udp.c:41-73 | A valid segment is valid under other addresses if and only if their sums agree modulo 65535 |
| UdpDatagrams.IpTransparent | stage2/net/ipv4.c:145-207 | The receive path strips header and padding and hands on exactly the segment |
| UdpDatagrams.RoundTrip | stage2/net/udp.c:240-329 | Every payload up to 1472 bytes is delivered by the addressed host with its source |
| UdpDatagrams.Misdelivered | stage2/net/udp.c:285-304 | A segment that arrives under other addresses is dropped unless those sums agree, and else delivered with the source of the header |
| UdpDatagrams.DeliveredMeans | stage2/net/ipv4.c:145-207 | Whatever is delivered came in a whole, undamaged, unfragmented IPv4 packet of protocol 17 for this host |
| UdpDatagrams.FragmentDropped | stage2/net/ipv4.c:173-178 | A fragment is dropped |
| UdpDatagrams.ForeignDropped | stage2/net/ipv4.c:180-185 | A packet for another host is dropped |
| UdpDatagrams.CorruptionRejected | stage2/net/udp.c:285-304 | A frame with one payload word replaced is dropped if and only if 0x0000 and 0xFFFF were not exchanged |
| UdpDatagrams.ExchangeUnnoticed | stage2/net/udp.c:285-304 | That exchange, at any word of any payload, delivers the changed payload |
| UdpDatagrams.UdpChecksum | stage2/net/udp.c:41-68 | Pseudo-header and segment summed, folded and complemented |
| UdpDatagrams.BuildSegment | stage2/net/udp.c:240-256 | Fills in the segment field by field |
| UdpDatagrams.BuildFrame | stage2/net/ipv4.c:98-134 | Fills in headers, checksum and minimum-length padding |
| UdpDatagrams.ReceivePacket | stage2/net/ipv4.c:145-207 | Malformed, damaged, fragmented and foreign packets are dropped, the rest handed to UDP |
| UdpDatagrams.ReceiveUdp | stage2/net/udp.c:265-307 | Runt, malformed and damaged datagrams are dropped, an absent checksum is accepted |
| UdpDatagrams.Server.Enqueue | stage2/net/udp.c:117-138 | Appends a datagram of up to 1472 bytes to the queue, or drops it when sixteen wait |
| UdpDatagrams.Server.Recv | stage2/net/udp.c:141-163 | Removes the oldest datagram and delivers it cut to the buffer |
| UdpDatagrams.ReceiveFrame | stage2/net/eth.c:10-29 | Any Ethernet frame is dropped or appended to the bound queue as specified; its payload always fits the slot |
| UdpDatagrams.SendAndReceive | stage2/net/udp.c:208-329 | A datagram sent to a bound port with room is appended there with its source |
| LuaMarking.MarkGrows | user/lua/lgc.c:339-372 | Marking an object marks it, only darkens others, keeps the gray list honest, and queues or settles what it newly marks |
| LuaMarking.MarkAllGrows | user/lua/lgc.c:339-372 | The same for a list of values, all of which end up marked |
| LuaAtomic.TraverseTri | user/lua/lgc.c:727-740 | Traversing a gray object keeps black from referring to white and lowers the work left |
| LuaAtomic.RemarkGrows | user/lua/lgc.c:406-426 | Values of marked open upvalues of unmarked threads get marked |
| LuaAtomic.AtomicCloses | user/lua/lgc.c:1543-1581 | When the atomic phase has propagated, the marked objects are closed under references and contain the roots |
| LuaAtomic.AtomicLists | user/lua/lgc.c:406-426 | What the visit of open upvalues drops from the list of threads and the traversals link back: afterwards it holds the marked threads with open upvalues, each once, and no unmarked one |
| LuaCollector.SweepListShape | user/lua/lgc.c:892-909 | Sweeping any stretch of the list frees only dead objects and leaves no reference to them from live ones |
| LuaCollector.SweepToLiveInv | user/lua/lgc.c:915-921 | Advancing to the first live object keeps the invariant |
| LuaCollector.SweepStepInv | user/lua/lgc.c:1588-1596 | A sweep step keeps the invariant and hands over to the next list |
| LuaRuns.WriteInv | user/lua/lgc.c:246-279 | A write followed by its forward or backward barrier keeps the invariant in every phase |
| LuaRuns.DoSetOpenInv | user/lua/lgc.c:246-261 | Assigning to an open upvalue through its thread's stack keeps the invariant |
| LuaSteps.NewInv | user/lua/lgc.c:297-306 | Allocation with the current white keeps the invariant in every phase |
| LuaSteps.InternInv | user/lua/lstring.c:219-226 | Handing out an existing string, dead or alive, keeps the invariant in every phase and leaves it alive |
| LuaSteps.CloseInv | user/lua/lfunc.c:197-210 | Closing an upvalue keeps the invariant, with the barrier where it is needed |
| LuaSteps.RestartInv | user/lua/lgc.c:440-447 | Starting a cycle marks the roots from an all-white state |
| LuaSteps.PropagateInv | user/lua/lgc.c:727-740 | A propagation step keeps the invariant, threads staying gray |
| LuaSteps.AtomicShape | user/lua/lgc.c:1543-1581 | After the flip exactly the marked objects are live and none refers to a dead one |
| LuaSafety.SingleStepInv | user/lua/lgc.c:1617-1686 | Each collector step keeps the invariant, whatever the phase |
| LuaSafety.ApplyInv | user/lua/lgc.c:246-306 | Every action of program or collector, interning included, keeps the invariant |
| LuaSafety.WriteEffect | user/lua/lgc.c:246-279 | After a store with either barrier, in every phase, the object holds the new references and no other object, root or stack has changed |
| LuaSafety.BarrierQuiet | user/lua/lgc.c:246-261 | After a forward barrier the object is not black or the value is marked, and nothing but marks changed |
| LuaSafety.BarrierBackQuiet | user/lua/lgc.c:268-279 | The same for the backward barrier |
| LuaSafety.StoredReachable | user/lua/lgc.c:246-306 | Whatever an action of the program allocates, interns, stores, pushes or makes a root can be reached afterwards |
| LuaSafety.RunInv | user/lua/lgc.c:1617-1686 | Every state of every run satisfies the invariant |
| LuaSafety.BlackNeverToWhite | user/lua/lgc.c:246-279 | In every run no black object refers to a white one while the invariant has to be kept |
| LuaSafety.FlipMarksReachable | user/lua/lgc.c:1543-1581 | Whatever is reachable at the flip is marked |
| LuaSafety.CollectSameReach | user/lua/lgc.c:892-909 | A collector step leaves exactly the same objects reachable |
| LuaSafety.CollectKeepsReachable | user/lua/lgc.c:892-909 | No collector step frees a reachable object |
| LuaSafety.ReachableNeverFreed | user/lua/lgc.c:1617-1686 | In every run a reachable object still exists after the next step |
| LuaSafety.TwupsExact | user/lua/lgc.c:712-718 | In every run the list of threads with open upvalues holds existing live threads, each once, and misses no reachable one that has open upvalues |
| LuaReclaim.AtomicAvoids | user/lua/lgc.c:1543-1581 | Marking never touches a set that nothing outside it refers to |
| LuaReclaim.ApplyGarbage | user/lua/lgc.c:836-909 | Every action leaves unreachable objects unmarked or frees them, but for the one string it interns |
| LuaReclaim.CycleReclaims | user/lua/lgc.c:1617-1686 | Whatever is unreachable at the start of a cycle and still exists when its sweep has ended is a string interned meanwhile |
| LuaReclaim.SweepTwenty | user/lua/lgc.c:1588-1596 | An incremental sweep step visits exactly twenty objects or those that are left, a fast one all; the list is done exactly when none is left |
| LuaReclaim.StepCloser | user/lua/lgc.c:1617-1686 | Every step, fast or not, lowers the bound on the steps to the end of the cycle |
| LuaReclaim.GarbageFreed | user/lua/lgc.c:1617-1686 | A cycle left to itself has freed everything unreachable after at most twice the number of objects and ten steps, whichever of them are fast |
| LuaReclaim.CycleEnds | user/lua/lgc.c:1617-1686 | From every state the collector alone ends the cycle within a bound computed from the state, whichever of its steps are fast |
| LuaReclaim.InternedSurvives | user/lua/lstring.c:219-226 | A string once interned survives any number of collector steps |
| LuaReclaim.RevivedSurvives | user/lua/lstring.c:219-226 | Every unreachable string has a cycle that keeps it, by one interning |
| LuaReclaim.DroppedSurvives | user/lua/lstring.c:219-226 | From a fresh state a program can make, drop and revive a string |
| LuaGlobalState.GlobalState.ReallyMark | user/lua/lgc.c:339-372 | Marks as specified, on colours and lists in place |
| LuaGlobalState.GlobalState.PropagateMark | user/lua/lgc.c:696-740 | One gray object traversed in place, a thread linked to the list its phase calls for |
| LuaGlobalState.GlobalState.DrainGray | user/lua/lgc.c:743-746 | Repeats until no gray object is left |
| LuaGlobalState.GlobalState.RemarkUpvals | user/lua/lgc.c:406-426 | The loop over the list of threads with open upvalues, which drops the unmarked ones and those without any |
| LuaGlobalState.GlobalState.AtomicPhase | user/lua/lgc.c:1543-1581 | The atomic phase and the flip of the current white |
| LuaGlobalState.GlobalState.SweepSome | user/lua/lgc.c:892-909 | The sweeping loop over at most a given number of objects |
| LuaGlobalState.GlobalState.Store | user/lua/lgc.c:246-279 | A store with its forward or backward barrier, in place: the invariant holds again afterwards |
| LuaGlobalState.GlobalState.Allocate | user/lua/lgc.c:297-306 | A new object at the head of the list and on the stack: the invariant holds again afterwards |
| LuaGlobalState.GlobalState.NewUpval | user/lua/lfunc.c:65-80 | A new open upvalue, with its thread linked into the list: the invariant holds again afterwards |
| LuaGlobalState.GlobalState.ReuseString | user/lua/lstring.c:222-226 | A string found is revived if dead and pushed: the invariant holds again and the string is alive |
| LuaGlobalState.GlobalState.SingleStep | user/lua/lgc.c:1617-1686 | One step of the collector's state machine |
| LuaEphemerons.ScanTableGrows | user/lua/lgc.c:541-573 | Scanning a table marks the values of marked keys and reports white-to-white entries and whether it marked anything |
| LuaEphemerons.RoundInv | user/lua/lgc.c:755-774 | A round that marks something leaves fewer white objects, and one that does not leaves all listed tables settled |
| LuaEphemerons.RevisitedQuiet | user/lua/lgc.c:1545-1562 | The propagations of the atomic phase leave nothing gray and every unsettled marked table on the ephemeron list |
| LuaEphemerons.ConvergeSettles | user/lua/lgc.c:755-774 | On exit no marked table has an entry with a marked key and an unmarked value |
| LuaEphemerons.AtomicSettles | user/lua/lgc.c:1543-1563 | So the atomic phase, from its entry on, ends convergence with every marked table settled |
| LuaEphemerons.AtomicClosesTables | user/lua/lgc.c:1543-1581 | With ephemeron tables present, the marked objects are closed under ordinary references and contain the roots when convergence ends |
| LuaEphemerons.ConvergeEphemerons | user/lua/lgc.c:755-774 | The alternating loops terminate with that result |
| LuaWeakKeys.AtomicAvoidsTables | user/lua/lgc.c:541-573 | The atomic phase marks nothing in a set that is reached from outside only through ephemeron entries whose keys are in the set |
| LuaWeakKeys.MarkedIsLeast | user/lua/lgc.c:1543-1563 | When convergence ends the marked objects are the least set with the roots that follows ordinary references, array parts, string keys and the values of marked keys |
| LuaWeakKeys.AtomicListsTables | user/lua/lgc.c:541-573 | Then every marked table with an unmarked key is in one of the two lists whose keys are cleared, and string keys are marked |
| LuaLines.SaveOk | user/lua/lcode.c:331-346 | Emitting records the line, relative or absolute, and keeps checkpoints at most 128 apart |
| LuaLines.RemoveOk | user/lua/lcode.c:355-367 | Taking back the last line leaves a table the next emission can extend |
| LuaLines.EstimateOk | user/lua/ldebug.c:68-71 | The estimate of the base entry is always a valid lower bound |
| LuaLines.GetBaseLine | user/lua/ldebug.c:62-77 | Finds the last checkpoint at or before the instruction |
| LuaLines.GetFuncLine | user/lua/ldebug.c:85-97 | Returns the line that was recorded for the instruction, or -1 without debug information |
| LuaLines.ChangedLine | user/lua/ldebug.c:881-899 | Says whether the two recorded lines differ, also on its short way |
| LuaLines.RunOk | user/lua/lcode.c:331-367 | After any sequence of emissions and amendments the table represents the plain array of lines |
| LuaLines.EntriesAreBytes | user/lua/lcode.c:331-346 | Every relative entry fits a signed byte, and -128 stands for exactly the absolute ones |
| LuaLines.RemoveRepresents | user/lua/lcode.c:355-367 | Any number of removals leaves a table of the shorter array |
| LuaLines.SaveExact | user/lua/lcode.c:331-346 | An emission after removals is right if and only if it is absolute or the writer's line is the previous one |
| LuaLines.FuncState.SaveLineInfo | user/lua/lcode.c:331-346 | Performs the save on the vectors in place |
| LuaLines.FuncState.RemoveLastLineInfo | user/lua/lcode.c:355-367 | Performs the removal in place |
| LuaLines.FuncState.Code | user/lua/lcode.c:384-391 | The plain array grows by the new line |
| LuaLines.FuncState.FixLine | user/lua/lcode.c:1868-1871 | The last line is replaced |
| LuaLines.FuncState.ReplaceLast | user/lua/lcode.c:1160-1166 | Removing the last instruction and emitting another replaces its line |
| LuaJumps.RedirectedReaches | user/lua/lcode.c:168-176 | Redirecting one jump along its own way makes no way longer |
| LuaJumps.RedirectedReached | user/lua/lcode.c:168-176 | And leads nowhere it did not lead before |
| LuaJumps.OffsetField | user/lua/lcode.c:168-176 | An offset is accepted if and only if it fits the 25-bit field, and it is read back as written |
| LuaJumps.AdjustedReturns | user/lua/lcode.c:1939-1962 | No short return is left where more has to be done, and returns and varargs carry what they need |
| LuaJumps.AdjustedFields | user/lua/lcode.c:1939-1962 | Field by field what the pass does to an instruction: only short returns with more to do and vararg accesses change their operation |
| LuaJumps.FinalTarget | user/lua/lcode.c:1911-1921 | Where at most a hundred jumps lead |
| LuaJumps.Finish | user/lua/lcode.c:1929-1971 | Every position still comes to the same first non-jump instruction or to none, short chains become direct, and code of up to 16777215 instructions is never refused |
| LuaJumps.CycleStays | user/lua/lcode.c:1911-1921 | A jump in a cycle comes nowhere after the pass |
| LuaStrings.StringTable.constructor | user/lua/lstring.c:133-139 | An empty table of 128 buckets |
| LuaStrings.StringTable.HashString | user/lua/lstring.c:53-58 | The loop computes the hash of the contents |
| LuaStrings.StringTable.RehashBucket | user/lua/lstring.c:76-86 | One bucket taken apart in place: no string lost or duplicated, each in its new bucket |
| LuaStrings.StringTable.Rehash | user/lua/lstring.c:72-87 | Afterwards the same strings are placed for the new size |
| LuaStrings.StringTable.Resize | user/lua/lstring.c:95-113 | Grow, shrink and failed shrink keep the set of strings, placement, count and uniqueness |
| LuaStrings.StringTable.Find | user/lua/lstring.c:219-229 | Finds the string with these contents in its bucket, or there is none |
| LuaStrings.StringTable.Remove | user/lua/lstring.c:190-197 | Exactly that string leaves the table |
| LuaStrings.StringTable.Intern | user/lua/lstring.c:214-243 | Returns the stored string with these contents, revived if dead, or stores the new one; equal contents stay one object, no other string changes, and the table doubles exactly when it is full and can, so that it is never overloaded before its largest size |
| LuaStrings.Unlink | user/lua/lstring.c:192-195 | Unlinking one string leaves a chain of exactly the others |

## Left out

- Port and register access, VGA, PCI, the network card and its DMA, RTC, CPUID, GDT and serial output: hardware plumbing.
- CR0/CR3/CR4 writes, the TLB and the assembly switch and interrupt stubs: a switch is one atomic step that ends with interrupts enabled.
- Fork's saved-frame placement, the argument block on a new stack and `scheduler_wait_pid`, which tests and blocks in two steps.
- Memory exhaustion outside `kmalloc`: page frames are unbounded, so `alloc_aligned_page` always finds one.
- Segments that overlap the stack pages, wrap around the address space or carry more file data than memory.
- Directory lookup, long file names and path parsing: opening is modelled from the point where the file is known.
- Disk transfers of more than 255 sectors, transfer errors and chains that leave the disk.
- Preemption inside descriptor operations: opening, closing, duplicating, forking and exiting are atomic steps.
- ARP, ICMP, `/dev/udp` and datagrams over 1472 bytes; the next hop's address is a parameter.
- Screen output and screen clears of terminals, and several readers on one terminal.
- Weak-value and all-weak tables, finalizers, fixed objects, generational mode, emergency collections and pacing of the Lua collector.
- The Lua parser, virtual machine and standard libraries, and the error for more than INT_MAX strings.
- The bit mask by which the string table picks a bucket is the remainder, its sizes being powers of two.
- LuaStrings.StringTable.Intern: no collection happens while the new string is being created.
- RoundRobin.NoStarvation: counts scheduling calls, not time, and says nothing about a task that is blocked.
- AddressSpaces.Paging.CloneDirectory: requires that the parent's marked pages lie in frames that were handed out, as they do in every directory that spawn, exec and fork make.
- AddressSpaces.Paging.AllocPage: takes any unused frame, not one from the heap, and there is always one.
- KernelHeap.Heap.Kmalloc: leaves out the sizes that wrap around in 32 bits as `WrapExact` and `RoundWraps` describe, and a heap that ends in the last 28 bytes of the address space.
- UserImages.Spawn: requires that the stack lies in memory handed out before, as `kmalloc` gives it.
- UserImages.Exec: the same, and the argument block on the stack is not in it.
- TaskList.Scheduler.ExitCurrent: the closing of descriptors and the exit code are not in it.
- UserImages.MapStack: requires that the stack ends before the last page of the address space, as `StackLoopExact` describes; so do Spawn and Exec.
- Fat16Files.AtaLbaRead: transfer errors and timeouts are not in it.
- Fat16Files.OpenFiles.Read: requires that the chains of used files, as the code finds them at its 32-bit addresses, end and lie on the disk.
- UdpDatagrams.Server.Enqueue: requires that the payload fits its slot, as every payload from an Ethernet frame does.
- LuaWeakKeys.AtomicListsTables: requires of the entry to the atomic phase that every marked weak table waits in one of the two gray lists, where propagation leaves it; so does MarkedIsLeast.
- LuaEphemerons.AtomicSettles: requires of the entry to the atomic phase that every marked weak table is gray in one of the two lists or settled; runs with weak tables are not modelled.
- LuaSafety.ApplyInv: strings from the cache of `luaS_new` are handed out by the same action as those from the string table.
