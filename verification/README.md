# The RT-Thread kernel core in Dafny

This project models the core of the RT-Thread kernel in its uniprocessor configuration (32
priorities, no SMP, no signals) and proves what it keeps over whole runs: the three allocators,
the timers, the scheduler with the states of threads, mutexes, events, mailboxes and message
queues, and the intrusive lists underneath. `dafny verify dfyconfig.toml` checks all of it.

## How the model is built

Every component comes in two parts. Specification functions say, on values, what one
interrupt-disabled stretch of the source does to the whole state; lemmas prove invariants of those
functions, mostly over every run of every interleaving. Classes carry out the same stretches in
place, with the source's fields, branches and loops, and every method is proved to change the state
exactly as its specification function says.

| file | source | contents |
|---|---|---|
| `Tiling.dfy` | `mem.c`, `memheap.c` | sequences of blocks that tile a memory area: splitting, merging, sums |
| `SmallMem.dfy`, `HeapTheorems.dfy`, `HeapRuns.dfy`, `HeapSizes.dfy` | `mem.c` | the in-band heap on an array of words, what holds over its runs, the runs on the array, and how large its blocks are |
| `MemHeaps.dfy`, `MemHeapTheorems.dfy`, `MemHeapSizes.dfy` | `memheap.c` | the heap with a free list and in-place resizing, its theorems, and how large its blocks are |
| `Rings.dfy`, `MemHeapBlocks.dfy`, `MemHeapRuns.dfy` | `memheap.c` | linked rings by address; the headers of the heap and its operations; runs of calls on them |
| `PageList.dfy` | `slab.c` | the page-run allocator |
| `Queues.dfy` | all wait queues | stable ordered insertion, removal, subsequences |
| `Timers.dfy` | `timer.c` | the skip list under wrapping ticks, expiry and re-arming |
| `TimerRuns.dfy`, `TimerFirings.dfy`, `TimerLaws.dfy` | `timer.c`, `clock.c` | the loop of a check; runs under a clock that ticks and is set; when timers fire; what programming and stopping them does |
| `TimerChecks.dfy`, `TimerLimits.dfy` | `timer.c`, `clock.c` | checks at any time, in time or too late: what they fire, and when they end; the states in which they go wrong |
| `TimerSteps.dfy` | `timer.c`, `clock.c` | the skip list carries out the runs |
| `Scheduling.dfy`, `SchedulerRuns.dfy` | `scheduler.c`, `thread.c`, `clock.c` | ready queues, thread states, round robin, nested locks |
| `TimeSlices.dfy`, `SchedulerLaws.dfy` | `scheduler.c`, `thread.c`, `clock.c` | time slices over whole rounds; the life of a thread, and which one gets the processor |
| `ThreadLinks.dfy`, `ReadyLists.dfy`, `Scheduler.dfy` | `scheduler.c`, `thread.c`, `ipc.c`, `rtservice.h` | ready lists and wait lists over shared nodes; the scheduler in place |
| `Ipc.dfy`, `WaitOrder.dfy` | `ipc.c` | wait lists and result codes; who is served first |
| `Mutexes.dfy`, `MutexRuns.dfy`, `MutexPriority.dfy`, `MutexLaws.dfy` | `ipc.c` | mutexes, mutual exclusion, priority inheritance, what each call gives back |
| `KernelMutexes.dfy` | `ipc.c`, `thread.c` | a mutex on the threads and lists of the scheduler |
| `KernelRuns.dfy`, `KernelSteps.dfy`, `KernelLaws.dfy`, `KernelWitness.dfy` | `ipc.c`, `thread.c`, `scheduler.c` | runs of the whole: any number of mutexes and everything else that threads do; the same steps in place; who sleeps and who is woken; a run to a release after which the wrong thread goes on |
| `Events.dfy`, `EventLaws.dfy` | `ipc.c` | event sets and the pass of a send; what sends and receives do to flags and threads |
| `Mailboxes.dfy`, `MailboxRing.dfy`, `MailboxLaws.dfy` | `ipc.c` | mailboxes as bounded queues; the ring buffer; the messages against what was sent |
| `MessageQueues.dfy`, `MessageQueueLinks.dfy`, `MessageQueueLaws.dfy` | `ipc.c` | message slots and their owners; the linked slots; the messages against what was begun |
| `IntrusiveLists.dfy` | `rtservice.h` | circular lists as rings of nodes |

Conventions:

- A thread or timer is known by a number; the fields the source keeps in the thread or timer object
  are maps from numbers. A wait list, ready queue or timer row is the sequence of its members;
  `IntrusiveLists` shows that the linked lists of the source behave like such sequences, and
  `Scheduler` keeps all ready and wait lists on the links of one node per thread.
- A word that is only combined bit by bit (event flags, the ready group, priority masks) is the set
  of its bits. Counters and sizes are unbounded numbers with the source's wrap-around written out
  wherever it can happen.
- Blocking calls are split where interrupts are enabled; a suspended call continues as a separate
  step after the thread was resumed, and any other steps may come in between. The ticks that passed
  meanwhile are a parameter of that step.

The modules whose names end in `Laws` or `Sizes`, `TimeSlices` and `WaitOrder` say what each operation is for
without the functions that specify it: from the states before and after it, or from the actions of a run alone.

## What the proofs found

- **malloc misses a block.** A last free block that the request fills to the word is not looked at
  (`HeapTheorems.SearchComplete`), so a fresh heap refuses a request for all of its memory.
- **Making a block smaller can fail.** A block that is to lose fewer than 25 bytes is moved to another block; without
  a free one the call returns null (`HeapSizes.ReallocGives`).
- **Tiny heaps.** Below the minimum block size the guard of the search wraps and the search never
  ends (`HeapTheorems.TinyHeapNeverEnds`); `Malloc` and `Realloc` require the minimum.
- **Rounding up wraps.** Within three bytes of 2^32 a rounded request is smaller than the request
  (`HeapTheorems.PayloadCovers`, `MemHeapTheorems.RequestCovered`).
- **The memory heap never hands out its last byte.** A request equal to all available bytes fails
  even when one block holds them (`MemHeapTheorems.AllocMisses`).
- **A resize can break the memory heap.** The test for growing in place adds in 32 bits. When that
  wraps and the block behind is free, a resize to just under 4 GiB succeeds and leaves a block that
  starts inside a header (`MemHeapTheorems.SmallHeapBreaks`); `MemHeaps.ReallocExact` is the exact
  condition.
- **Timers need a window.** The 32-bit comparison orders expiries exactly when they lie within half the tick
  range (`Timers.OrderIffWindow`). A clock that ticks, or is set ahead as after a sleep, keeps them there
  (`TimerRuns.EveryRun`, `TimerLimits.SleepLegal`); other settings lose the order, so that a due timer is not
  fired (`TimerLimits.WindowLost`). `TimerChecks.ClockExact` is the exact condition.
- **A late check can stop early.** A periodic timer that is armed again may go in front of an overdue one,
  half the range away by the wrapped comparison; the check then ends behind it with the other still due
  (`TimerLimits.LateCheck`). After the clock was set a check fires all due timers if and only if the head of
  the queue is due or nothing is, and for no due periodic timer the delay of the next due
  timer plus the period exceeds 2^31 + 1 ticks (`TimerChecks.SetClockFires`, `TimerRuns.InTime`).
- **A period of 0 need not end.** A check goes on for ever exactly when a due timer has period 0 and the
  check is in time (`TimerChecks.CheckEnds`); a late one always ends, at the timer that it stops behind.
- **Priority inheritance has limits.** Three kinds of steps lose it, and no others do
  (`MutexPriority.StepInherits`): a take that raises an owner which itself waits for another mutex, as
  nothing is passed on to that one's owner (`MutexPriority.ChainLosesInheritance`); a handoff in arrival
  order to a waiter that is not the most urgent one; and giving up one of several nested mutexes.
  `MutexPriority.InheritanceIff` is the exact condition for a whole run.
- **A yield can stay pending.** When nothing else is ready the yield flag of the current thread is not
  cleared, neither after a yield nor after the end of a time slice (`SchedulerRuns.YieldFlag`,
  `SchedulerRuns.SliceFlag`). A thread of the same priority that is resumed later then takes the processor at
  once (`SchedulerRuns.StaleYield`), in a state that is reached (`SchedulerRuns.StaleYieldReached`).
- **A release need not reschedule.** The last release of a mutex nobody waits for any more restores the
  priority of its owner without a scheduling pass. The processor is then with a thread less urgent than a
  ready one exactly when a ready queue above the restored priority is not empty
  (`KernelMutexes.ReleaseUnsettled`), as in a run in which the waiter that raised the owner gives up first
  (`KernelWitness.UnsettledReached`).
- **No inversion otherwise.** With waiters in priority order and one mutex per thread, after a scheduling
  pass no thread runs that is less urgent than one that waits for a mutex whose owner can run, whatever
  else the threads do, unless priorities are changed from outside (`KernelRuns.NeverInverted`).
- **Unreachable returns.** The overflow returns in releasing a mutex, sending to a mailbox and
  sending to a message queue, and the RT_EINVAL return of an event send, cannot be reached.
- **The scheduler lock nests 32768 deep.** The comment in `rt_enter_critical` gives the largest
  nesting as that of an unsigned 16-bit number, but the counter is signed: one level deeper, the first
  exit opens the lock (`SchedulerRuns.TooDeep`; exactly when is `SchedulerRuns.LockIff`).

## Model

| member | source | states |
|---|---|---|
| `SmallMem.Init` | rt-thread/src/mem.c:204-257 | the area is aligned and refused if it cannot hold the two headers; otherwise the fresh heap is one free block with nothing in use |
| `SmallMem.AreaInside` | rt-thread/src/mem.c:207-215 | the heap lies inside the area it was given and wastes less than four bytes at either end, exactly when aligning the begin address does not wrap |
| `SmallMem.AreaRefused` | rt-thread/src/mem.c:207-226 | the area is refused exactly when what alignment leaves of it is too small, or is the two headers at the very start of the address space |
| `SmallMem.Heap.PlugHoles` | rt-thread/src/mem.c:156-194 | merges exactly the free neighbours of a freed block, and `lfree` again is the lowest free block |
| `SmallMem.Heap.Search` | rt-thread/src/mem.c:306-409 | the scan from `lfree` stops at the same block as a scan of all blocks from offset 0, and ends |
| `SmallMem.Heap.TakeBlock` | rt-thread/src/mem.c:313-399 | the found block is split or taken whole, use and its peak are counted, `lfree` advances to the lowest free block; no live payload changes |
| `SmallMem.Heap.Malloc` | rt-thread/src/mem.c:272-410 | null with nothing changed, or the payload of the block the search finds; headers, back links, `lfree` and `used_mem` stay right and no live payload changes |
| `SmallMem.Heap.Free` | rt-thread/src/mem.c:552-615 | exactly this block is freed and merged; null and foreign pointers change nothing; no other live payload changes |
| `SmallMem.Heap.ShrinkBlock` | rt-thread/src/mem.c:471-500 | cutting a block in place keeps its first words and all other payloads, and merges the rest |
| `SmallMem.Heap.CopyPayload` | rt-thread/src/mem.c:507-512 | copying into the new block writes nothing else and keeps the smaller of both sizes |
| `SmallMem.Heap.ResizeByMove` | rt-thread/src/mem.c:504-515 | allocate, copy, free: the block keeps its contents, or nothing at all has changed |
| `SmallMem.Heap.Realloc` | rt-thread/src/mem.c:421-516 | all cases of realloc: refused, freed, foreign, kept, cut, moved; a refusal leaves the heap untouched, a success keeps the contents, other payloads never change |
| `HeapTheorems.CarveStep` | rt-thread/src/mem.c:313-399 | handing out a block keeps the heap well formed and adds exactly its length to the use |
| `HeapTheorems.FreeStep` | rt-thread/src/mem.c:552-615 | freeing keeps the heap well formed and takes exactly this block, header included, out of the use |
| `HeapTheorems.ShrinkStep` | rt-thread/src/mem.c:471-500 | shrinking keeps the heap well formed and every block where it is |
| `HeapTheorems.EveryRun` | rt-thread/src/mem.c:204-615 | in every run blocks tile the heap, no two neighbours are free, and `max_mem` is the peak of `used_mem` over all states passed through |
| `HeapTheorems.FreshRun` | rt-thread/src/mem.c:204-615 | from a fresh heap on, `max_mem` is the largest `used_mem` the run passes through |
| `HeapRuns.Perform` | rt-thread/src/mem.c:272-615 | each call of malloc, free and realloc on the array leaves the blocks and the peak that the step of a run has; the payload of every live block the call is not about stays the same |
| `HeapRuns.PerformAll` | rt-thread/src/mem.c:272-615 | so does every sequence of calls: it ends in the state of the run, and a live block that none of the calls is about is still there with its payload |
| `HeapRuns.StepKeepsBlock` | rt-thread/src/mem.c:272-615 | a live block keeps its place and its size through every step that is not about it |
| `HeapTheorems.FreeAllAnyOrder` | rt-thread/src/mem.c:552-615 | freeing all live blocks, in any order, leaves one free block and nothing in use |
| `HeapTheorems.SearchComplete` | rt-thread/src/mem.c:306-312 | malloc fails exactly when no free block holds the request, except a last block it would fill to the word |
| `HeapTheorems.SearchLowest` | rt-thread/src/mem.c:306-312 | malloc takes the lowest block that holds the request, with the same exception |
| `HeapTheorems.FreshHeapRefusesItsOwnSize` | rt-thread/src/mem.c:306-308 | a fresh heap refuses a request for all of its memory although its block holds it |
| `HeapTheorems.PayloadCovers` | rt-thread/src/mem.c:283-300 | the payload covers the request exactly when rounding up does not wrap |
| `HeapSizes.NeedLeast` | rt-thread/src/mem.c:283-300 | a request is rounded up to a multiple of four, and to twelve bytes, and to no more |
| `HeapSizes.MallocGives` | rt-thread/src/mem.c:313-399 | the block that malloc hands out was free; it has exactly the rounded size if the rest could be a block, and is otherwise what it was: less than a header and twelve bytes beyond the request |
| `HeapSizes.ReallocGives` | rt-thread/src/mem.c:421-516 | a resized block stays exactly if it has the size or is larger by more than a header and twelve bytes, and then has exactly the size; otherwise it moves to a free block given as by malloc, or nothing has changed because none is large enough |
| `HeapTheorems.TinyHeapNeverEnds` | rt-thread/src/mem.c:299-309 | below the minimum size the guard of the search never fails, whatever is requested; from there on it does at the end of the heap |
| `HeapTheorems.PayloadsDisjoint` | rt-thread/src/mem.c:93-114 | live payloads meet neither each other nor any header |
| `SmallMem.PlugPointerLowest` | rt-thread/src/mem.c:170-193 | whatever merging does to `lfree`, it ends as the lowest free block |
| `Tiling.PlugNoTwoFree` | rt-thread/src/mem.c:170-193 | merging both ways around one freed block leaves no two free neighbours anywhere |
| `Tiling.SumTotal` | rt-thread/src/mem.c:619-629 | used and free lengths add up to the whole heap |
| `MemHeapBlocks.MemHeap.constructor` | rt-thread/src/memheap.c:50-121 | the pool size is rounded down, both rings are linked and the heap is one free block and the closing block |
| `MemHeapBlocks.MemHeap.Search` | rt-thread/src/memheap.c:169-180 | the walk along the free list finds its first block that is large enough, or none |
| `MemHeapBlocks.MemHeap.SplitFree` | rt-thread/src/memheap.c:188-235 | the front part is handed out, the rest is linked into both rings, available and peak use follow |
| `MemHeapBlocks.MemHeap.TakeWhole` | rt-thread/src/memheap.c:236-255 | a block taken whole leaves the free ring |
| `MemHeapBlocks.MemHeap.AllocBlock` | rt-thread/src/memheap.c:138-281 | allocation on the linked headers does what the specification says and keeps both rings |
| `MemHeapBlocks.MemHeap.MergeLeft` | rt-thread/src/memheap.c:535-553 | a freed block is merged into a free block before it exactly if there is one |
| `MemHeapBlocks.MemHeap.MergeRight` | rt-thread/src/memheap.c:556-575 | a free block behind it is merged and leaves the free ring |
| `MemHeapBlocks.MemHeap.FreeBlock` | rt-thread/src/memheap.c:495-595 | releasing on the linked headers does what the specification says, with the merges in the source's order |
| `MemHeapBlocks.MemHeap.GrowBlock` | rt-thread/src/memheap.c:337-393 | growing into the free block behind, by the source's test without wrap-around, moves that block's header in both rings |
| `MemHeapBlocks.MemHeap.ShrinkBlock` | rt-thread/src/memheap.c:421-486 | the cut-off rest is linked, merged to the right and put on the free list |
| `MemHeapBlocks.MemHeap.ReallocBlock` | rt-thread/src/memheap.c:284-492 | all cases of realloc on the linked headers, freed, allocated, grown, moved, kept and shrunk, wherever the test for growing does not pass by wrapping; a block that stays or moves keeps its contents, a failure changes no byte, and no other live payload changes |
| `MemHeapBlocks.MergeOrder` | rt-thread/src/memheap.c:535-575 | merging left before right gives the same blocks as the other way round |
| `Rings.InsertRing` | rt-thread/src/memheap.c:208-227 | inserting a node keeps next and prev mutual inverses around the ring |
| `Rings.RemoveRing` | rt-thread/src/memheap.c:571-574 | unlinking a node keeps next and prev mutual inverses around the ring |
| `MemHeaps.CarveKeeps` | rt-thread/src/memheap.c:184-258 | handing out keeps the free list equal to the set of free blocks and the available bytes equal to their sum |
| `MemHeaps.FreeKeeps` | rt-thread/src/memheap.c:495-595 | so does releasing with merges on both sides, and only this block goes out of use |
| `MemHeaps.GrowKeeps` | rt-thread/src/memheap.c:348-393 | growing in place, where the 32-bit test allows it, does so exactly when the addition in the test does not wrap |
| `MemHeaps.ShrinkKeeps` | rt-thread/src/memheap.c:414-486 | so does shrinking in place |
| `MemHeaps.AllocUses` | rt-thread/src/memheap.c:138-281 | an allocation uses exactly one block more, one that was not in use |
| `MemHeaps.ReallocKeeps` | rt-thread/src/memheap.c:284-492 | every realloc that does not run into the wrapped test keeps the invariant, and one that fails has changed nothing |
| `MemHeaps.ReallocExact` | rt-thread/src/memheap.c:284-492 | a realloc of a live block keeps the invariant if and only if it does not run into the wrapped test |
| `MemHeapTheorems.EveryRun` | rt-thread/src/memheap.c:50-595 | in every run, whose resizes do not run into the wrapped test, blocks tile the pool, no two neighbours are free, the free list is the set of free blocks and available_size the sum of their payloads |
| `MemHeapTheorems.RunExact` | rt-thread/src/memheap.c:50-595 | in a run of calls with null or live pointers this holds at every moment if and only if no resize passes the test for growing by wrapping |
| `MemHeapTheorems.PeakExact` | rt-thread/src/memheap.c:234-355 | in every run `max_used_size` bounds the bytes in use at every moment, the middle of a move included, and is one of these values unless nothing has raised it |
| `MemHeapTheorems.FreshPeak` | rt-thread/src/memheap.c:63-66 | from the fresh heap on it is exactly the largest number of bytes in use |
| `MemHeapRuns.StepKeepsBlock` | rt-thread/src/memheap.c:138-595 | a block in use keeps its place and its size through every call that is not about it |
| `MemHeapRuns.NoHeaderReaches` | rt-thread/src/memheap.c:31-31 | at every moment of a run, the middle of a move included, the payload of a block that no call is about lies under no header, so that no write of a header reaches it |
| `MemHeapRuns.Perform` | rt-thread/src/memheap.c:138-595 | each call on the linked headers leaves the heap that the step of a run has; every block in use that the call is not about keeps its place and its payload |
| `MemHeapRuns.PerformAll` | rt-thread/src/memheap.c:138-595 | so does every sequence of calls |
| `MemHeapTheorems.AllocFails` | rt-thread/src/memheap.c:153-281 | an allocation fails exactly when no free block is large enough or the request reaches all available bytes |
| `MemHeapTheorems.AllocMisses` | rt-thread/src/memheap.c:153-153 | with a block that suits, it fails exactly when the request equals all available bytes |
| `MemHeapTheorems.FreshHeapRefusesAll` | rt-thread/src/memheap.c:153-153 | a fresh heap refuses a request for its whole payload |
| `MemHeapTheorems.RequestCovered` | rt-thread/src/memheap.c:147-149 | a rounded request is at least the request exactly when rounding does not wrap |
| `MemHeapSizes.NeedLeast` | rt-thread/src/memheap.c:147-151 | a request is rounded to the least multiple of four with room for it and for twelve bytes |
| `MemHeapSizes.AllocGives` | rt-thread/src/memheap.c:184-258 | the block handed out was free and large enough; it has exactly the rounded size if the rest could be a block, and is otherwise what it was, with less than 36 bytes beyond the request |
| `MemHeapSizes.StaysGives` | rt-thread/src/memheap.c:337-486 | a block that is large enough or can grow stays, and has exactly the rounded size, or keeps its own if what it has beyond is too small for a block |
| `MemHeapSizes.MoveGives` | rt-thread/src/memheap.c:402-412 | any other block moves to a free one, given as in an allocation, and is freed, or nothing has changed because the allocation fails |
| `MemHeapSizes.ResizeFrees` | rt-thread/src/memheap.c:292-299 | resizing to 0 frees exactly this block |
| `MemHeapSizes.ReusedFirst` | rt-thread/src/memheap.c:580-590 | an allocation that fits takes the block that was freed last, unless that has merged with a free block in front of it |
| `MemHeapTheorems.GrowTest` | rt-thread/src/memheap.c:348-348 | the 32-bit test for growing agrees with the intended one exactly when it does not wrap or the room is too small anyway |
| `MemHeapTheorems.SmallHeapBreaks` | rt-thread/src/memheap.c:348-375 | a pool of 120 bytes, reached by one allocation, in which resizing to just under 4 GiB succeeds in place and leaves a block that starts inside a header |
| `MemHeapTheorems.PayloadsDisjoint` | rt-thread/src/memheap.c:31-31 | payloads meet neither each other nor any header |
| `MemHeapTheorems.ReallocInPlace` | rt-thread/src/memheap.c:337-492 | a block that is large enough or can grow stays where it is and has the requested room |
| `MemHeapTheorems.FreeingEverything` | rt-thread/src/memheap.c:495-595 | freeing all blocks, in any order, rebuilds the initial heap |
| `PageList.PageAllocator.AllocPages` | rt-thread/src/slab.c:236-270 | the first run that is long enough gives its front pages, and the free pages are exactly those less |
| `PageList.PageAllocator.FreePages` | rt-thread/src/slab.c:272-322 | the pages are added by growing, extending or inserting a run, and the list stays sorted, disjoint and coalesced |
| `PageList.CanonicalUnique` | rt-thread/src/slab.c:272-322 | a sorted, disjoint, coalesced list is determined by its free pages |
| `PageList.AllocThenFree` | rt-thread/src/slab.c:236-322 | freeing what was just allocated restores the very same list |
| `PageList.AllocSucceeds` | rt-thread/src/slab.c:236-270 | allocation succeeds exactly when some run is long enough |
| `PageList.FreeingOrder` | rt-thread/src/slab.c:272-322 | the same blocks freed in any two orders leave the same list |
| `PageList.FreeingEverything` | rt-thread/src/slab.c:272-334 | freeing everything in any order rebuilds the single run of the start |
| `Timers.WrappedOrder` | rt-thread/src/timer.c:348-358 | of two expiries that are comparable from a base, each at most half the range behind or ahead of the other, the wrapped difference tells which comes first |
| `Timers.OrderIffWindow` | rt-thread/src/timer.c:348-358 | the wrapped comparison is total and transitive on a set of expiries if and only if all of them lie within half the range behind one of them |
| `Timers.Rebase` | rt-thread/src/timer.c:348-358 | rows that are in order from one base are in order from every other from which the pending timers come in the same order |
| `Timers.TimerSystem.FindHeads` | rt-thread/src/timer.c:329-367 | going down the rows finds in each the place behind all timers that expire no later |
| `Timers.TimerSystem.LinkRows` | rt-thread/src/timer.c:374-396 | the timer is linked into the lowest row and as many more as the random number gives |
| `Timers.TimerSystem.Start` | rt-thread/src/timer.c:315-411 | stop, set the expiry, insert: every row is the old one with the timer taken out and, up to its height, placed in order; upper rows stay subsequences (wherever the new expiry is comparable with the pending ones, from any base from which these are in order) |
| `Timers.TimerSystem.Stop` | rt-thread/src/timer.c:438-462 | a stopped timer is in no row, and the rows stay right |
| `Timers.TimerSystem.Unlink` | rt-thread/src/timer.c:136-144 | a timer is taken out of every row |
| `Timers.TimerSystem.Check` | rt-thread/src/timer.c:529-594 | a check in time, from whatever base the queue is in order, fires exactly the expired timers, each once, in queue order, re-queues the periodic ones in order and leaves no expired one; it ends |
| `Timers.InsertRows` | rt-thread/src/timer.c:374-403 | inserting keeps every row sorted and a subsequence of the row below |
| `Timers.RemoveRows` | rt-thread/src/timer.c:136-144 | so does removing |
| `Timers.LowestRowIsPlainInsertion` | rt-thread/src/timer.c:315-411 | whatever the number of rows, the lowest row changes as by plain ordered insertion behind equal expiries |
| `Timers.FiresExactlyTheDue` | rt-thread/src/timer.c:548-590 | the timers fired are the due ones, each once |
| `Timers.DuePrefix` | rt-thread/src/timer.c:551-557 | the due timers are a prefix of the queue |
| `Timers.CheckDone` | rt-thread/src/timer.c:548-590 | when the check ends, what is queued is the rest with the periodic timers placed in order, and nothing queued is due |
| `Timers.RearmedDue` | rt-thread/src/timer.c:575-583 | a timer armed again is due again at once exactly when its period is 0 |
| `TimerRuns.InsertIsPlace` | rt-thread/src/timer.c:341-367 | among comparable expiries, insertion by wrapped difference is insertion by expiry |
| `TimerRuns.InvIff` | rt-thread/src/timer.c:341-367 | the queue is in order from its overdue head or from now on if and only if there is a window at all from which it is in order |
| `TimerRuns.StepKeeps` | rt-thread/src/timer.c:315-594 | creating, controlling, starting and stopping timers, setting the clock to where the head is due or nothing is behind it, and ticks and checks in time all keep the queue in order and the pending timers within half the range |
| `TimerRuns.EveryRun` | rt-thread/src/timer.c:315-594 | so does every run of such steps: the window never needs to be given |
| `TimerRuns.EveryRunFromStart` | rt-thread/src/timer.c:315-594 | in every such run from the start the queue holds exactly the active timers, and a check or tick fires exactly the due ones |
| `TimerRuns.TickKeeps` | rt-thread/src/clock.c:62-89 | a tick fires, once each, exactly the timers that have reached their expiry, and leaves nothing that is due |
| `TimerRuns.CheckKeeps` | rt-thread/src/timer.c:529-594 | so does the loop of any check in time, however much later than the last one |
| `TimerRuns.SetClockKeeps` | rt-thread/src/clock.c:49-56 | setting the clock keeps the order if and only if the head of the queue is due at the new reading or everything pending lies within half the range ahead of it |
| `TimerChecks.CheckExact` | rt-thread/src/timer.c:543-590 | in every state in order, with periods that count, the loop of a check ends; it leaves nothing due if and only if no periodic timer that it arms again goes in front of an overdue one, and the same condition decides whether the queue is still in order |
| `TimerChecks.ClockExact` | rt-thread/src/clock.c:49-89 | for ticks, settings of the clock and checks, what the runs ask of them is exactly what keeps the queue in order |
| `TimerChecks.SetClockFires` | rt-thread/src/timer.c:543-590 | after the clock was set to any reading, the loop of a check comes to an end with nothing due left if and only if the head of the queue is due or nothing is, and the check is in time |
| `TimerLimits.LateCheck` | rt-thread/src/timer.c:348-358 | a run from the start, and a setting of the clock less than half the range ahead, after which a check fires the first of two due timers and stops behind it with the second still due |
| `TimerLimits.SetClockRefused` | rt-thread/src/timer.c:543-590 | any other setting fires nothing, with a timer due or one that lies half the range or more ahead |
| `TimerLimits.SleepLegal` | rt-thread/components/drivers/pm/pm.c:259-282 | with nothing overdue the clock may be set ahead by anything below half the range, and the check that follows is in time if the ticks slept and the period of any periodic timer come to no more than 2^31 + 1 |
| `TimerFirings.FiresWhenDue` | rt-thread/src/timer.c:529-594 | however the clock is set within the rules of the runs, a pending timer that is left alone is fired if and only if some check of the run finds it due |
| `TimerFirings.FiresOnTime` | rt-thread/src/timer.c:315-594 | under a clock that ticks, a pending timer that is left alone fires in a run if and only if the run has as many ticks as it still had to wait |
| `TimerFirings.StartedFiresOnTime` | rt-thread/src/timer.c:315-594 | a timer started for n ticks fires at the n-th tick, one started for 0 ticks at the next |
| `TimerFirings.PeriodicFires` | rt-thread/src/timer.c:529-594 | a periodic timer that is left alone fires after its wait and then once every period, whatever the other timers do |
| `TimerFirings.OneShotGone` | rt-thread/src/timer.c:560-564 | a one-shot timer that has fired is pending no more |
| `TimerLaws.OneShotFires` | rt-thread/src/timer.c:560-564 | a pending one-shot timer that is left alone fires exactly once, when its wait is over |
| `TimerLaws.StartedFires` | rt-thread/src/timer.c:315-594 | a started timer that is left alone fires once after its time or, if periodic, after every multiple of it: the firings of every run are counted |
| `TimerLaws.ProgrammedFires` | rt-thread/src/timer.c:472-511 | and it is the time and the kind given last, at its making or by a control, that count |
| `TimerLaws.StoppedStaysSilent` | rt-thread/src/timer.c:438-462 | a stopped timer neither fires nor is queued before it is started again, whatever else happens |
| `TimerLaws.Heights` | rt-thread/src/timer.c:374-396 | a timer is linked into l rows above the lowest for one start in 4^l |
| `TimerLimits.WindowLost` | rt-thread/src/timer.c:348-358 | three timers started between settings of the clock have no order from any base, and the next tick does not fire one that is due |
| `TimerChecks.SpinsOn` | rt-thread/src/timer.c:543-594 | while a due periodic timer of period 0 is queued in a check in time, the head of the queue is due, and firing it leaves that timer as it is |
| `TimerChecks.CheckEnds` | rt-thread/src/timer.c:543-594 | a check of any queue in order, periods of 0 allowed, ends if and only if it is not in time or no due periodic timer has period 0 |
| `TimerLimits.SpinningState` | rt-thread/src/timer.c:543-594 | one timer of period 0, armed a tick ago, with which a check goes on for ever |
| `TimerSteps.TickAndCheck` | rt-thread/src/clock.c:62-89 | the clock ticks and the check runs on the skip list; what it fires and leaves is what the step says |
| `TimerSteps.Perform` | rt-thread/src/timer.c:315-594 | every operation on the skip list, of any height, is a step of a run |
| `TimerSteps.PerformAll` | rt-thread/src/timer.c:315-594 | and every sequence of operations a run, which fires what the run fires |
| `Queues.PlaceAtCut` | rt-thread/src/timer.c:341-367 | ordered insertion puts an element behind all that come no later and before the rest |
| `Queues.KeepPlace` | rt-thread/src/timer.c:374-396 | inserting into a row and into its subsequence above commute |
| `Scheduler.Kernel.constructor` | rt-thread/src/scheduler.c:182-230 | all queues are empty and no bit is set |
| `Scheduling.EnqueueCore` | rt-thread/src/scheduler.c:699-733 | a thread that is in no queue, put at the end of the queue of its priority, is in exactly that one, and bits and queues still agree |
| `ThreadLinks.LinkKeeps` | rt-thread/include/rtservice.h:73-80 | linking a free node into one of many lists over shared nodes puts it in exactly that list and leaves all others whole |
| `Scheduler.Kernel.InsertNode` | rt-thread/include/rtservice.h:73-80 | the four writes of an insertion do that |
| `Scheduling.RemoveCore` | rt-thread/src/scheduler.c:796-826 | a removed thread is in no queue, and bits and queues still agree |
| `ThreadLinks.UnlinkKeeps` | rt-thread/include/rtservice.h:86-92 | unlinking any node takes it out of the one list it is in and leaves all others whole |
| `Scheduler.Kernel.RemoveNode` | rt-thread/include/rtservice.h:86-92 | the four writes of a removal do that |
| `Scheduler.Kernel.HighestPriorityThread` | rt-thread/src/scheduler.c:153-175 | the head of the most urgent queue that is not empty |
| `Scheduler.Kernel.Reschedule` | rt-thread/src/scheduler.c:409-529 | one scheduling pass on the tables does what the specification says and keeps the invariant |
| `Scheduler.Kernel.Start` | rt-thread/src/scheduler.c:237-261 | the scheduler starts with the most urgent ready thread |
| `Scheduler.Kernel.InitThread` | rt-thread/src/thread.c:143-235 | a new thread is in no queue |
| `Scheduler.Kernel.StartupThread` | rt-thread/src/thread.c:315-347 | a thread is started, made ready and rescheduled for |
| `Scheduler.Kernel.Resume` | rt-thread/src/thread.c:815-849 | a suspended thread becomes ready, or running if it is the current one; others are refused |
| `Scheduler.Kernel.SuspendIt` | rt-thread/src/thread.c:766-805 | a ready or running thread is suspended and leaves its queue; a running one is the current one |
| `Scheduler.Kernel.Timeout` | rt-thread/src/thread.c:858-880 | a suspended thread becomes ready and the scheduler runs |
| `Scheduler.Kernel.SetPriority` | rt-thread/src/thread.c:663-714 | a ready thread moves to the end of the queue of its new priority |
| `Scheduler.Kernel.Yield` | rt-thread/src/thread.c:508-521 | the time slice is refilled and the processor offered |
| `Scheduler.Kernel.TickIncrease` | rt-thread/src/clock.c:62-85 | an expired time slice is a yield; the counter wraps |
| `Scheduler.Kernel.ExitCritical` | rt-thread/src/scheduler.c:936-961 | the signed 16-bit counter goes down and, at or below 0, the lock is opened and the scheduler runs |
| `SchedulerRuns.LockIff` | rt-thread/src/scheduler.c:872-961 | in a run from any state whose counter shows the depth, the scheduler is locked exactly inside critical sections if and only if no exit is made with more than 2^15 of them open and never are there 2^16 |
| `SchedulerRuns.LockFromStart` | rt-thread/src/scheduler.c:872-961 | so it is for every run from the start of the system |
| `SchedulerRuns.BalancedInRange` | rt-thread/src/scheduler.c:872-961 | for a run that leaves all its critical sections this means that never more than 2^15 are open |
| `SchedulerRuns.TooDeep` | rt-thread/src/scheduler.c:872-961 | the first exit from 32769 nested sections opens the lock with 32768 of them open |
| `Scheduler.Kernel.ExitThread` | rt-thread/src/thread.c:105-141 | a finished thread is in no queue |
| `Scheduler.Kernel.SuspendOn` | rt-thread/src/ipc.c:83-129 | a thread that waits leaves its ready queue and is linked into the wait list, at its end or before the first less urgent waiter |
| `Scheduler.Kernel.ResumeFirst` | rt-thread/src/ipc.c:140-160 | the first waiter, which is suspended, leaves the wait list and becomes ready |
| `Scheduler.WhereThreadsAre` | rt-thread/src/scheduler.c:699-826 | on the links of the 32 ready lists and all wait lists, a ready thread is in the list of its priority and no other, a suspended one in at most one wait list, any other in none |
| `Scheduling.StepKeeps` | rt-thread/src/scheduler.c:409-961 | every interrupt-disabled operation keeps bits, queues and thread states in agreement |
| `Scheduling.PriorityKeeps` | rt-thread/src/thread.c:673-714 | a priority change keeps the agreement, which needs the removal before and the insertion after it |
| `Scheduling.ScheduleKeeps` | rt-thread/src/scheduler.c:409-529 | so does a scheduling pass |
| `SchedulerLaws.Life` | rt-thread/src/thread.c:105-880 | the states of a thread: started once, runnable until it is suspended or ends, suspended until it is resumed or its timer fires, each exactly then |
| `SchedulerLaws.Fields` | rt-thread/src/thread.c:143-714 | initial priority and time slice never change, the priority changes only to what was asked for and at the start, the yield flag is set and ticks are counted only by the thread's own yields and ticks |
| `SchedulerLaws.Comes` | rt-thread/src/thread.c:143-235 | a thread comes into being with the priority and the full slice it is made with, and none vanishes |
| `SchedulerLaws.Outcomes` | rt-thread/src/thread.c:766-849 | a thread can be resumed exactly if suspended, and suspended exactly if it is ready or runs; a refusal changes nothing |
| `SchedulerLaws.ReadyInOrder` | rt-thread/src/scheduler.c:699-826 | in every run every ready queue is in the order in which its threads became ready |
| `SchedulerLaws.LongestReady` | rt-thread/src/scheduler.c:409-529 | a pass gives the processor to the thread that has been ready for longest among the most urgent ones, or leaves it with the current one only if that runs and is more urgent, or as urgent and has not yielded |
| `SchedulerLaws.HandsOver` | rt-thread/src/scheduler.c:430-446 | and it does not leave it there otherwise |
| `SchedulerLaws.FirstChosen` | rt-thread/src/scheduler.c:237-261 | the scheduler starts with such a thread |
| `SchedulerLaws.InsideKeepsProcessor` | rt-thread/src/scheduler.c:409-961 | inside critical sections, nested in their range, the current thread keeps the processor whatever becomes ready |
| `SchedulerRuns.EveryRun` | rt-thread/src/scheduler.c:182-961 | in every reachable state bit p is set exactly when queue p is not empty, queue p holds exactly the ready threads of priority p once, and only the current thread runs |
| `SchedulerRuns.ScheduleSettles` | rt-thread/src/scheduler.c:409-529 | after an unlocked pass exactly one thread runs, no ready one is more urgent, and the same threads are runnable |
| `SchedulerRuns.YieldFlag` | rt-thread/src/scheduler.c:430-446 | the yield flag survives a yield exactly when the scheduler is locked or nothing else is ready |
| `SchedulerRuns.SliceFlag` | rt-thread/src/clock.c:76-85 | so it does at the end of a time slice |
| `SchedulerRuns.StaleYield` | rt-thread/src/scheduler.c:430-446 | a thread of the same priority, resumed while nothing else is ready, takes the processor if and only if the flag of the current thread is still set |
| `SchedulerRuns.StaleYieldReached` | rt-thread/src/scheduler.c:430-446 | a run from the start after which a resumed thread of the same priority preempts the current one, which has not yielded since |
| `SchedulerRuns.YieldTurns` | rt-thread/src/thread.c:508-521 | a yield turns the ring of equal-priority threads by one |
| `SchedulerRuns.SliceTurns` | rt-thread/src/clock.c:76-85 | so does the end of a time slice, after exactly the ticks that were left |
| `TimeSlices.TickExact` | rt-thread/src/clock.c:76-85 | a tick takes one off the slice of the current thread; with the last one the slice is full again and the thread marked; nothing else changes |
| `TimeSlices.YieldExact` | rt-thread/src/thread.c:508-521 | a yield fills the slice and marks the thread, and changes nothing else |
| `TimeSlices.FollowsRounds` | rt-thread/src/clock.c:76-85 | after any sequence of ticks and yields the running thread, the ring behind it and the ticks left are those of round robin with every slice as long as the thread was made with |
| `TimeSlices.EachItsSlice` | rt-thread/src/clock.c:76-85 | from full slices on, each thread of the ring in its turn, round after round, has the processor for exactly the ticks of its slice |
| `SchedulerRuns.RoundRobin` | rt-thread/src/scheduler.c:430-463 | n+1 yields or slice ends, mixed, run each of n+1 threads once and restore the queue |
| `Ipc.ListSuspend` | rt-thread/src/ipc.c:83-129 | a waiting thread is appended, or placed before the first less urgent one |
| `WaitOrder.BoxInOrder` | rt-thread/src/ipc.c:83-129 | in every run both wait lists of a mailbox are in the order of arrival or, with priorities, of urgency and then arrival |
| `WaitOrder.BoxNobodyOvertaken` | rt-thread/src/ipc.c:140-160 | of the threads that wait at a mailbox, one that is woken without error is ahead of all that go on waiting for the same |
| `WaitOrder.QueueInOrder` | rt-thread/src/ipc.c:83-129 | in every run both wait lists of a message queue are in that order |
| `WaitOrder.QueueNobodyOvertaken` | rt-thread/src/ipc.c:140-160 | nor is anybody overtaken there |
| `WaitOrder.EventInOrder` | rt-thread/src/ipc.c:83-129 | and so is the wait list of an event, along which a send hands out its flags |
| `Mutexes.Mutex.Take` | rt-thread/src/ipc.c:670-815 | one take of the mutex: counted, acquired, refused, or suspended with the owner's priority raised |
| `Mutexes.Mutex.Release` | rt-thread/src/ipc.c:826-933 | one release: refused, counted down, priority restored, and the mutex handed to the first waiter |
| `Mutexes.Mutex.Timeout` | rt-thread/src/thread.c:858-880 | a waiter whose timer fires leaves the wait list |
| `Mutexes.CoherentRelease` | rt-thread/src/ipc.c:861-926 | value, owner and hold stay coherent and the overflow returns are unreachable |
| `MutexLaws.TakeOutcome` | rt-thread/src/ipc.c:696-815 | from the state before: a take succeeds and counts exactly if the mutex is free, or the caller's own and taken less than 255 times; it is refused at 255, fails without time and waits otherwise, with the owner at least as urgent as before and as the caller |
| `MutexLaws.ReleaseOutcome` | rt-thread/src/ipc.c:847-923 | a release succeeds exactly for the owner, counts down, and with the last one gives back the priority that was kept and the mutex to the first waiter or to nobody |
| `MutexLaws.TakeAndGiveBack` | rt-thread/src/ipc.c:670-933 | a free mutex taken up to 255 times is free again after as many releases, every priority as before; the 256th take is refused |
| `MutexLaws.WaitBegins` | rt-thread/src/ipc.c:718-770 | a wait begins exactly with a take of somebody else's mutex that has time, and is timed exactly if the time is finite |
| `MutexLaws.WaitEnds` | rt-thread/src/ipc.c:878-910 | a wait ends exactly when the owner gives the mutex up with this thread first in the list, which then owns it, or its timer fires, after which it does not |
| `MutexRuns.StepKeeps` | rt-thread/src/ipc.c:670-933 | every take, release and timeout keeps owner, hold, value and wait lists in agreement with the history |
| `MutexRuns.MutualExclusion` | rt-thread/src/ipc.c:670-933 | in every run at most one thread has unmatched takes, it is the owner, hold counts them, and waiters imply an owner |
| `MutexRuns.ForeignRelease` | rt-thread/src/ipc.c:847-857 | a release by a thread that does not own the mutex changes nothing |
| `MutexPriority.InheritanceHolds` | rt-thread/src/ipc.c:670-933 | with priority order and one mutex per thread, in every run an owner is at least as urgent as every waiter and threads without a mutex have their own priority |
| `MutexPriority.InheritanceFromStart` | rt-thread/src/ipc.c:670-933 | so it is in every such run from the start of the system |
| `MutexPriority.FinalReleaseInherits` | rt-thread/src/ipc.c:861-923 | after the final release the thread has its own priority again and the new owner is at least as urgent as the remaining waiters |
| `MutexPriority.HandoffInherits` | rt-thread/src/ipc.c:878-915 | a handoff, in any order, keeps inheritance exactly when no remaining waiter is more urgent than the first |
| `MutexPriority.FifoLosesInheritance` | rt-thread/src/ipc.c:878-915 | a run from the start in which arrival order loses it at a handoff |
| `MutexPriority.NestedRelease` | rt-thread/src/ipc.c:868-875 | giving up one of two mutexes keeps inheritance at the other exactly when the restored priority is urgent enough for its waiters |
| `MutexPriority.NestedLosesInheritance` | rt-thread/src/ipc.c:868-875 | a run from the start in which nested mutexes lose it |
| `MutexPriority.StepInherits` | rt-thread/src/ipc.c:670-933 | with any number of mutexes and in any order of waiting, a step loses inheritance at a mutex if and only if it is a take that raises a waiter of it above its owner, a handoff past a more urgent waiter, or the end of a nested mutex whose saved priority is too low |
| `MutexPriority.InheritanceIff` | rt-thread/src/ipc.c:670-933 | inheritance holds at a mutex at every moment of a run from the start if and only if no step of the run is of these kinds |
| `MutexPriority.ChainLosesInheritance` | rt-thread/src/ipc.c:733-740 | a run from the start in which a take loses it: the priority goes to the direct owner and no further |
| `KernelMutexes.KernelMutex.Take` | rt-thread/src/ipc.c:670-815 | on the threads of the scheduler, a take that blocks raises the owner, in its ready queue if it is ready, and puts the caller to sleep in the linked wait list; if the owner can run, no thread less urgent than the caller gets the processor |
| `KernelMutexes.KernelMutex.Release` | rt-thread/src/ipc.c:826-933 | the last release restores the priority and makes the first waiter ready and the owner; only then the processor goes on, to no thread less urgent than either |
| `KernelMutexes.KernelMutex.Timeout` | rt-thread/src/thread.c:858-880 | a waiter whose timer fires leaves the linked wait list and is ready; owner and priorities stay |
| `KernelMutexes.NoInversion` | rt-thread/src/scheduler.c:409-529 | while the owner can run and is as urgent as a waiter, no thread less urgent than that waiter has the processor after a pass |
| `KernelMutexes.ReleaseUnsettled` | rt-thread/src/ipc.c:861-933 | after the last release of a mutex without waiters the thread goes on, and a ready thread is more urgent than it if and only if some bit of the group lies below the restored priority |
| `KernelWitness.UnsettledReached` | rt-thread/src/ipc.c:861-933 | a run from the start that ends in such a release: the waiter that raised the owner timed out, and is ready with priority 3 while the owner goes on with 9 |
| `KernelRuns.StepLinks` | rt-thread/src/ipc.c:670-933 | with any number of mutexes, every take, release and timeout and every other operation of the scheduler keeps both in order and in agreement: who waits is suspended, who owns has been started, priorities are the same |
| `KernelRuns.EveryRun` | rt-thread/src/ipc.c:670-933 | on the threads of the scheduler, with priority order and one mutex per thread, inheritance holds in every run, whatever else the threads do but have their priorities changed from outside |
| `KernelRuns.NeverInverted` | rt-thread/src/scheduler.c:409-529 | in every such run from the start, after a pass no thread has the processor that is less urgent than one waiting for a mutex whose owner can run |
| `KernelLaws.WhoSleeps` | rt-thread/src/ipc.c:670-933 | a thread falls asleep exactly when it takes a mutex it must wait for, and can run again exactly when it is handed the mutex or its timer fires; all others stay as they are |
| `KernelSteps.TakeMutex` | rt-thread/src/ipc.c:670-815 | on the ready lists and several wait lists over shared nodes, a take by the running thread, up to its scheduling pass, is the step of such a run |
| `KernelSteps.ReleaseMutex` | rt-thread/src/ipc.c:826-933 | so is a release |
| `KernelSteps.ExpireWait` | rt-thread/src/thread.c:858-880 | so is the timeout of a thread that waits for a mutex |
| `KernelSteps.PassOn` | rt-thread/src/scheduler.c:409-529 | and so is the scheduling pass |
| `Events.Event.SendSet` | rt-thread/src/ipc.c:1081-1170 | the loop over the wait list, with resumed threads leaving it, computes the pass of the specification |
| `Events.Event.ReceiveSet` | rt-thread/src/ipc.c:1186-1297 | a receive returns at once, times out, or suspends |
| `Events.Event.ReturnFromWait` | rt-thread/src/ipc.c:1277-1305 | a resumed thread receives what the send left in its event set |
| `Events.Event.ResetEvent` | rt-thread/src/ipc.c:1317-1345 | all waiters are resumed with an error and the set is cleared |
| `Events.PassSettles` | rt-thread/src/ipc.c:1107-1159 | after the pass of a send no waiter is satisfied, whatever the resumed threads took away, and RT_EINVAL does not occur |
| `Events.PassConserves` | rt-thread/src/ipc.c:1107-1159 | the flags left are those there were less those taken by resumed threads; the others keep waiting in order |
| `Events.PassFair` | rt-thread/src/ipc.c:1107-1159 | each resumed thread was satisfied by what earlier ones had left, and received exactly what it wanted of that |
| `Events.RecvAsWaiter` | rt-thread/src/ipc.c:1238-1251 | a receive that need not wait gets and takes what a waiter would have |
| `Events.EveryRun` | rt-thread/src/ipc.c:1081-1345 | in every run no thread is left waiting for flags that are there, and a send never fails |
| `Events.WaitReturnsAnswer` | rt-thread/src/ipc.c:1186-1305 | a receive that waited and returns RT_EOK finds flags that answer its request, whatever happened between suspension and return |
| `EventLaws.SendExact` | rt-thread/src/ipc.c:1081-1170 | flags left and flags taken away by the threads resumed are exactly those that were there and those sent; a waiter is resumed exactly if what the resumed ones before it have left satisfies it, and receives what it asked for of that; the others are left alone |
| `EventLaws.FirstServed` | rt-thread/src/ipc.c:1107-1159 | the first waiter that the flags satisfy is resumed with all that it asked for |
| `EventLaws.ServedUnlessTaken` | rt-thread/src/ipc.c:1107-1159 | any other one is, unless a thread before it took flags away that it asked for |
| `EventLaws.SatisfiedMeans` | rt-thread/src/ipc.c:1113-1137 | AND is satisfied by all flags asked for, also together with OR; OR alone by one of them |
| `EventLaws.RecvExact` | rt-thread/src/ipc.c:1238-1297 | a receive succeeds at once exactly if the set answers it, returns what is there of the flags asked for, takes these out exactly with CLEAR, and waits exactly if it has time |
| `EventLaws.WhyAwake` | rt-thread/src/ipc.c:1081-1345 | a wait ends without error only by a send, with RT_ETIMEOUT exactly by its timer, with RT_ERROR exactly by a reset |
| `MailboxRing.Mailbox.Send` | rt-thread/src/ipc.c:1510-1638 | one stretch of a send on the ring buffer appends, refuses or suspends |
| `MailboxRing.Mailbox.Recv` | rt-thread/src/ipc.c:1667-1795 | one stretch of a receive takes the oldest message, times out or suspends |
| `MailboxRing.Mailbox.ResumeThread` | rt-thread/src/ipc.c:1577-1597 | a resumed thread returns its error or repeats the stretch with the remaining time |
| `MailboxRing.Mailbox.ResetBox` | rt-thread/src/ipc.c:1807-1839 | reset empties the box and resumes everybody with an error |
| `MailboxRing.OffsetIsModular` | rt-thread/src/ipc.c:1600-1605 | the input offset is the output offset plus the entries, modulo the size |
| `Mailboxes.EveryRun` | rt-thread/src/ipc.c:1510-1839 | under any interleaving the mailbox is a bounded FIFO, and waiting receivers or senders imply enough resumed ones on their way |
| `Mailboxes.StepKeeps` | rt-thread/src/ipc.c:1510-1839 | every stretch, timeout and reset keeps that |
| `Mailboxes.NobodyStuck` | rt-thread/src/ipc.c:1510-1795 | when nobody is on the way, receivers wait only at an empty box and senders at a full one |
| `MailboxLaws.SendOutcome` | rt-thread/src/ipc.c:1536-1638 | a send succeeds exactly if there is room, and its value then is the last in the box; otherwise it fails or waits as it has time, and nothing enters |
| `MailboxLaws.RecvOutcome` | rt-thread/src/ipc.c:1693-1795 | a receive succeeds exactly if there is a message, and the oldest goes; otherwise it fails or waits as it has time |
| `MailboxLaws.FirstInFirstOut` | rt-thread/src/ipc.c:1510-1839 | in every run what receivers were handed and then what is queued is what the calls asked to send, in the order in which they found room, resumed calls and resets included |
| `MailboxLaws.StepKnows` | rt-thread/src/ipc.c:1577-1597 | a waiting or resumed thread is in the call it has begun, with its time less all ticks it has waited |
| `MailboxLaws.ResumeOutcome` | rt-thread/src/ipc.c:1577-1597 | a resumed thread returns its error, or succeeds, fails or waits again with the time that is left |
| `MailboxLaws.WhyAwake` | rt-thread/src/ipc.c:1510-1839 | a wait ends without error only by a message or by room, with RT_ETIMEOUT exactly by its timer, with RT_ERROR exactly by a reset |
| `MessageQueueLinks.MessageQueue.constructor` | rt-thread/src/ipc.c:1862-1912 | all slots are on the free list |
| `MessageQueueLinks.MessageQueue.BeginSend` | rt-thread/src/ipc.c:2086-2164 | first stretch of a send: a slot is taken off the free list, or the call is refused or suspended |
| `MessageQueueLinks.MessageQueue.BeginUrgent` | rt-thread/src/ipc.c:2262-2283 | first stretch of an urgent send, which never waits |
| `MessageQueueLinks.MessageQueue.CopyMessageIn` | rt-thread/src/ipc.c:2166-2169 | the message is copied into a slot that no list and no other thread has |
| `MessageQueueLinks.MessageQueue.LinkMessage` | rt-thread/src/ipc.c:2171-2214 | second stretch of a send appends and resumes the first receiver |
| `MessageQueueLinks.MessageQueue.LinkUrgent` | rt-thread/src/ipc.c:2288-2322 | second stretch of an urgent send prepends |
| `MessageQueueLinks.MessageQueue.BeginRecv` | rt-thread/src/ipc.c:2363-2446 | first stretch of a receive takes the head of the queue; head, tail and entry stay right |
| `MessageQueueLinks.MessageQueue.CopyMessageOut` | rt-thread/src/ipc.c:2451-2452 | whatever happened meanwhile, the message copied out is the one taken from the head |
| `MessageQueueLinks.MessageQueue.ReturnMessage` | rt-thread/src/ipc.c:2454-2484 | second stretch of a receive returns the slot and resumes the first sender |
| `MessageQueueLinks.MessageQueue.ResetQueue` | rt-thread/src/ipc.c:2497-2545 | reset moves every queued slot to the free list and resumes everybody |
| `MessageQueueLinks.RoomForOne` | rt-thread/src/ipc.c:2183-2193 | while a thread owns a slot the queue is not full, so the overflow return is unreachable |
| `MessageQueues.EveryRun` | rt-thread/src/ipc.c:2056-2545 | under any interleaving free slots, queued slots and slots owned by threads partition the pool, and no wakeup is lost |
| `MessageQueues.StepKeeps` | rt-thread/src/ipc.c:2056-2545 | every stretch, copy, timeout and reset keeps that |
| `MessageQueues.FirstInFirstOut` | rt-thread/src/ipc.c:2056-2484 | without urgent messages and resets, receivers take what senders linked, in order |
| `MessageQueueLaws.OrderInRuns` | rt-thread/src/ipc.c:2056-2545 | in every run, urgent messages and resets included, the queue holds exactly the messages that were begun and linked, an urgent one in front of all others when it was linked, any other behind them |
| `MessageQueueLaws.SendEnds` | rt-thread/src/ipc.c:2086-2322 | whatever happens between its two stretches, a message begun as urgent stands in front of all others when it is linked, any other behind all others, and it is the message begun |
| `MessageQueueLaws.SendOutcome` | rt-thread/src/ipc.c:2086-2164 | a send gets a slot exactly if one is free; otherwise it fails or waits as it has time |
| `MessageQueueLaws.UrgentOutcome` | rt-thread/src/ipc.c:2262-2283 | an urgent send likewise, but never waits |
| `MessageQueueLaws.RecvOutcome` | rt-thread/src/ipc.c:2363-2446 | a receive gets the foremost message exactly if there is one; otherwise it fails or waits as it has time |
| `MessageQueueLaws.StepKnows` | rt-thread/src/ipc.c:2086-2446 | what a thread is in is what it has begun: message, urgency, and time less all ticks it has waited |
| `MessageQueueLaws.WhyAwake` | rt-thread/src/ipc.c:2056-2545 | a wait ends without error only by a message linked or a slot returned, with RT_ETIMEOUT exactly by its timer, with RT_ERROR exactly by a reset |
| `IntrusiveLists.Node.constructor` | rt-thread/include/rtservice.h:47-50 | an initialised list is a ring of its own |
| `IntrusiveLists.InsertAfter` | rt-thread/include/rtservice.h:58-65 | the new node follows, and the ring is whole both ways |
| `IntrusiveLists.InsertBefore` | rt-thread/include/rtservice.h:73-80 | the new node precedes, which before the list itself means at its end |
| `IntrusiveLists.Remove` | rt-thread/include/rtservice.h:86-92 | the ring closes without the node, which becomes a ring of its own |
| `IntrusiveLists.IsEmpty` | rt-thread/include/rtservice.h:98-101 | true exactly when the list has no member |
| `IntrusiveLists.Len` | rt-thread/include/rtservice.h:107-118 | the number of members |
| `IntrusiveLists.RingUnique` | rt-thread/include/rtservice.h:47-92 | the members of a list and their order are determined by the links |

## Left out

- Contexts, stacks, hooks, assertions as output, `finsh` commands and object registries; a thread
  switch is the change of the current thread.
- Semaphores, memory pools, the zone layer of `slab.c` and the string functions: easier than what is here.
- Detaching and deleting IPC objects with waiters, deleting threads, and the soft-timer thread.
- SMP, signals and the locks around the heaps: the heaps are used by one caller at a time.
- Links in `Timers` and in the wait lists of the IPC objects: rows and lists are sequences there;
  `IntrusiveLists`, `Scheduler`, `MessageQueueLinks` and `MemHeapBlocks` do have links.
- SmallMem.Heap.Realloc: the contents that a moved block keeps are stated for whole words.
- MemHeapBlocks.MemHeap.GrowBlock: growing after the test has wrapped. The new header would overlap the
  old one, and headers here are separate; `MemHeaps.Grow` does have that case.
- HeapRuns.Perform: heaps below the minimum size, on which malloc need not end.
- MemHeapBlocks.MemHeap.constructor: pools smaller than two headers, which the source does not refuse and writes past.
- MemHeapBlocks.MemHeap.ReallocBlock: requests that grow a block by the wrapped test, as for `GrowBlock`.
- MemHeaps.ReallocKeeps: requests that grow a block by the wrapped test, which `MemHeaps.ReallocExact` shows to break the heap.
- MemHeapTheorems.EveryRun: runs with such requests, which `MemHeapTheorems.RunExact` shows to be all that it has to leave out.
- MemHeapTheorems.ReallocInPlace: such requests as well.
- MemHeapBlocks.MemHeap.AllocBlock: headers are kept apart from the bytes of the pool; that they would reach no
  payload inside them is `MemHeapRuns.NoHeaderReaches`.
- PageList.PageAllocator.FreePages: the output of an error for pages that are freed twice; such calls are excluded.
- TimerRuns.EveryRun: started periodic timers of period 0; settings of the clock that lose the order and checks
  that are not in time, which is exactly where the order ends (`TimerChecks.ClockExact`). What single checks of
  these kinds do is stated in `TimerChecks`.
- TimerRuns.StepKeeps: the same steps.
- TimerRuns.EveryRunFromStart: runs with such steps.
- TimerFirings.FiresWhenDue: runs with such steps.
- TimerRuns.CheckKeeps: checks that are not in time; `TimerChecks.CheckExact` has them all.
- Timers.TimerSystem.Start: queues that are in no order from any base, which the source accepts and misorders.
- Timers.TimerSystem.Check: due timers of period 0, checks that are not in time, and callbacks that start, stop or
  delete timers; the callbacks here do not touch timers. Late checks and periods of 0 are on the lowest row only.
- Timers.TimerSystem.Unlink: also clears the activated flag, which the source does at the end of the stop or check.
- Mutexes.Mutex.Take: the error field of the thread; results are returned instead. Changing the priority of
  a waiting thread from outside is not part of the runs of `MutexRuns`.
- KernelMutexes.KernelMutex.Take: the timer of a thread that waits, and its error field.
- KernelRuns.EveryRun: nested mutexes and arrival order, with which inheritance is lost exactly as `MutexPriority` says,
  and priorities that are changed from outside.
- KernelSteps.TakeMutex: steps that are neither takes, releases, timeouts nor passes are not tied to the lists of
  several mutexes; `Scheduler` does so for the lists of the scheduler.
- Events.Event.ReceiveSet: a call with neither AND nor OR, which the source asserts not to happen.
- Scheduler.Kernel.TickIncrease: the tick counter and the timer check, which are `TimerSteps.TickAndCheck`.
- Scheduler.Kernel.ExitThread: the source links the node of a heap-allocated thread into `rt_thread_defunct`;
  here it stays free.
- Scheduler.Kernel.InitThread: an address whose node is already in a list.
- Scheduler.Kernel.SuspendOn: a thread that is neither ready nor running, which the source would link all the same.
- MessageQueueLinks.MessageQueue.BeginSend: messages are numbers; a message larger than the slot size is refused before.
- MailboxRing.Mailbox.ResumeThread: how long a thread waited is a parameter, not computed from the tick counter.
