# A verified model of an x86 kernel's memory and scheduling core

This project models four connected parts of a 32-bit x86 kernel and proves what
holds of them over every run:

- the buddy page allocator and the intrusive lists under it;
- the kernel heap, which takes its pages from the buddy allocator;
- the scheduler with its run, sleep and zombie queues and the reaper thread;
- the page-table builder, the ELF loader and the creation of processes.

Each part has the same layers. A value model (`BuddyModel`, `HeapModel`,
`SchedModel`, `PageTables`, `ElfModel`) gives every operation as a function with the
source's branches and constants. A class (`Allocator`, `ChunkHeap`, `Queues` and
`Kernel`, `Memory`, over `Pool` for the lists) performs the operation in place, with
the source's loops and pointer writes, and is proved equal to the function. The
remaining modules prove the invariants and the theorems about runs.

## How the model reads the source

- Pages and frames are numbered; addresses are 4096 times the number. A pointer into
  a list is the number or address of its owner, and NULL is -1.
- A kernel panic ends a run: `Panic`, `OutOfPages` or `None`.
- `Zone` holds what boot determines: the managed range, the length of the page map,
  and what the memory just past the page map reads as. `BuddyDrift` lets that memory
  change between calls and says for which lengths it can.
- Each list or allocator operation is one atomic step, as
  docs/16_v2_scheduler_and_reaper.md:23 intends. The pop at kernel/reaper.c:18 sits
  after the end of its atomic block; the model takes it as one step of its own. The
  windows between an atomic block and the following call of scheduler() are states.
- The live page-sized allocations of the heap and the set of destroyed threads are
  bookkeeping that the source does not store.

## Results that differ from what one might expect

- buddy_free_pages reads page_map[page_n] when the last block ends at page_n
  (mm/buddy/buddy.c:118-120). If that memory looks like a free buddy, the merge runs
  past the map. `PhantomBreaks` gives the run and `SafeExactly` the exact condition for
  memory that stays as it is. For page_n of 341 or 682 modulo 1024 the fields read lie
  in the first page the allocator hands out, so any owner of it may change them:
  `DriftSafeExactly` gives the condition then, and `LayoutSafeExactly` puts the cases
  together. The results on the heap and on processes are for zones whose entry past the
  map does not match; `KernelDrift` lifts them to entries that change at every call.
- kmalloc returns NULL for 2049..4095 bytes (mm/heap/heap.c:109), although
  docs/11_kernel_heap.md:36 sends requests above 2048 to the page allocator. The model
  follows the code.
- The tick rate is 1193182 / 100 = 11931, truncated, as drivers/pit.c:21 computes it.
- map_range takes new tables from pages that are not cleared, so entries other than the
  mapped one hold what was left there. A process can therefore reach frames that are not
  its own, another process's stack among them: `LeftoverShares` gives the run.
  `OutsideExactly` gives the exact condition for one range, and `ReachBefore` for a
  process about to be created, from its plan and the words in the free pages.
  `IsolationExactly` states them over all runs.
- create_process takes the kernel stack of a process from kmalloc (process/process.c:24),
  while destroy_thread frees a stack as a page of the page allocator (sched/thread.c:57).
  `ReapsFreeLive` is for threads made by thread_create.

## Model

| member | source | states |
|---|---|---|
| `NodeList.Pool.PushNode` | mm/node.c:4-13 | the list under the head gains the node in front; every list stays doubly linked and disjoint from the others |
| `NodeList.Pool.PopNode` | mm/node.c:34-45 | returns the first node and leaves exactly the rest of the list |
| `NodeList.Pool.RemoveNode` | mm/node.c:15-32 | the list loses exactly that node, whether the head pointer is a list head or, as the heap passes it, the next field of another node |
| `NodeList.Pool.InsertNode` | mm/node.c:47-58 | the exact link writes, including the next link left alone when the node goes at the end |
| `NodeList.Pool.InsertAfter` | mm/node.c:47-58 | in the middle of a list the node ends up right after its predecessor and all links agree |
| `NodeList.Pool.AppendThree` | mm/heap/heap.c:59-77 | the three links of a new heap page, made one by one and then joined to the last chunk, append exactly three nodes |
| `BuddyAllocator.Allocator.constructor` | mm/buddy/buddy.c:25-42 | every page starts as the kernel's and every free list empty |
| `BuddyAllocator.Allocator.PickOrder` | mm/buddy/buddy.c:51-54 | the largest order whose block is aligned at the address and ends by the limit, or none |
| `BuddyAllocator.Allocator.AddOne` | mm/buddy/buddy.c:55-63 | head, tails, list and counter of one block, as AddBlock defines |
| `BuddyAllocator.Allocator.AddPages` | mm/buddy/buddy.c:44-73 | the whole boot loop computes the greedy tiling and establishes the allocator invariant |
| `BuddyBoot.BootInv` | mm/buddy/buddy.c:44-73 | the boot tiling satisfies the invariant, with every managed page free and none used |
| `BuddyBoot.FitFacts` | mm/buddy/buddy.c:51-54 | the order chosen fits and no larger order does |
| `BuddyAllocator.Allocator.Scan` | mm/buddy/buddy.c:83-90 | the first non-empty list from any order up, testing the bound first |
| `BuddyAllocator.Allocator.SplitOnce` | mm/buddy/buddy.c:92-101 | one turn of the splitting loop in place equals SplitStep and keeps the block in hand well formed |
| `BuddyAllocator.Allocator.AllocPages` | mm/buddy/buddy.c:81-107 | in-place allocation equals Alloc on the state before: same address, same map, lists and counters; None is the panic, for every order |
| `BuddyAllocator.Allocator.MergeOnce` | mm/buddy/buddy.c:117-133 | one turn of the merging loop in place, with every page-map index it reads inside the map plus one entry |
| `BuddyAllocator.Allocator.FreePages` | mm/buddy/buddy.c:109-138 | in-place free of a live block equals Dealloc on the state before |
| `BuddyAllocator.Allocator.OrderOf` | mm/buddy/buddy.c:75-79 | a live block's recorded order is the order it was allocated with |
| `BuddySteps.SplitKeeps` | mm/buddy/buddy.c:92-101 | a split keeps tiling, lists and coalescing, frees exactly the upper half and touches no live block |
| `BuddySteps.BuddyInMap` | mm/buddy/buddy.c:118-119 | the only entry outside the map that the merging loop can read is number page_n |
| `BuddySteps.MergeKeeps` | mm/buddy/buddy.c:117-133 | a merge keeps tiling, lists and coalescing, takes exactly the buddy's pages and touches no live block |
| `BuddyCalls.AllocKeeps` | mm/buddy/buddy.c:81-107 | the invariant is kept; the block is aligned, was free, is now the one new live block; the free set loses exactly it |
| `BuddyCalls.DeallocKeeps` | mm/buddy/buddy.c:109-138 | the invariant is kept; the free set gains exactly the block; the live blocks lose exactly it |
| `BuddyTheorems.FreeSetIsCanonical` | mm/buddy/buddy.c:109-138 | in two coalesced maps with the same free pages the free blocks and their orders are the same |
| `BuddyTheorems.AllocComplete` | mm/buddy/buddy.c:81-107 | the out-of-memory panic happens if and only if no aligned run of 2^k pages is free |
| `BuddyTheorems.LiveBlocksApart` | mm/buddy/buddy.c:81-107 | live blocks overlap neither each other nor a free page, and lie in the managed range |
| `BuddyRuns.RunKeeps` | mm/buddy/test_buddy.c:178-246 | every run of allocations and frees keeps the invariant |
| `BuddyRuns.RunComesHome` | mm/buddy/test_buddy.c:268-280 | a run that frees everything ends with exactly the free blocks, list lengths and counters of boot |
| `BuddyRuns.PhantomBreaks` | mm/buddy/buddy.c:118-120 | when the entry past the page map looks like a free buddy, allocating and freeing the last block breaks the invariant |
| `BuddyRuns.SafeExactly` | mm/buddy/buddy.c:109-138 | all runs from boot keep the invariant if and only if the entry past the page map, as long as it stays as it is, does not match the last block's buddy |
| `BuddyRuns.ZeroFillExactly` | mm/buddy/buddy.c:27-36 | with zeroed memory after the map that condition fails exactly when the managed range ends at page_n and page_n is odd |
| `BuddyDrift.MakePages` | mm/buddy/buddy.c:25-35 | page_n is the size rounded up to pages, and the map takes exactly the boot pages its 12-byte entries need |
| `BuddyDrift.PastLastPageExactly` | mm/buddy/buddy.c:27-35 | order and flags of entry page_n lie in the first managed page exactly when page_n is 0, 341 or 682 modulo 1024; otherwise in the zeroed end of the map's last page |
| `BuddyDrift.DriftSafeExactly` | mm/buddy/buddy.c:109-138 | with the entry past the map free to change between calls, all runs from boot keep the invariant if and only if no block below order 10 ends exactly at page_n |
| `BuddyDrift.LayoutSafeExactly` | mm/buddy/buddy.c:25-138 | for every page_n: which of the two cases it is, and the exact condition on the managed range under which all runs are safe |
| `BuddyRoundTrip.AllocThenFree` | mm/buddy/buddy.c:81-138 | allocating and at once freeing restores every free list as a sequence, every flag, every head's order and both counters |
| `BuddyOrder.AllocBestFit` | mm/buddy/buddy.c:81-107 | the block handed out starts the first block on the list of the smallest free blocks that are large enough; its upper halves become the only blocks on their lists, and no other list changes |
| `BuddyOrder.FreeKeepsOrder` | mm/buddy/buddy.c:109-138 | the pages given back end up in one free block, first on its list; every list keeps what lies outside that block, in its order |
| `BuddyOrder.BootDescends` | mm/buddy/buddy.c:44-73 | after boot every free list runs from high addresses to low |
| `KernelHeap.ChunkHeap.constructor` | mm/heap/heap.c:30-33 | no page, empty buckets, zero counters |
| `KernelHeap.ChunkHeap.InitKmalloc` | mm/heap/heap.c:221-226 | one page, one free chunk of 4044 bytes, or the page allocator's panic |
| `KernelHeap.ChunkHeap.CreateChunk` | mm/heap/heap.c:48-80 | two sentinels and one free chunk appended, bucket and counters as AddPage defines |
| `KernelHeap.ChunkHeap.BucketIndex` | mm/heap/heap.c:36-42 | the bucket number of a chunk size, inside the table for every size a chunk can have |
| `KernelHeap.ChunkHeap.FindBucket` | mm/heap/heap.c:115-120 | the first non-empty bucket at or above the order |
| `KernelHeap.ChunkHeap.TakeFrom` | mm/heap/heap.c:136-153 | pops the chunk, marks it used, splits off the rest: equals Take on the state before |
| `KernelHeap.ChunkHeap.CutTo` | mm/heap/heap.c:138-151 | the split of a chunk, its new header, bucket and counters, as Carve defines |
| `KernelHeap.ChunkHeap.MallocPages` | mm/heap/heap.c:99-105 | a request of a page or more equals AllocBig on both allocators |
| `KernelHeap.ChunkHeap.Kmalloc` | mm/heap/heap.c:91-154 | in-place kmalloc equals the function Kmalloc on both allocators, in all four outcomes |
| `KernelHeap.ChunkHeap.AbsorbNext` | mm/heap/heap.c:192-197 | joins a free successor: out of its bucket and out of the list, counters adjusted |
| `KernelHeap.ChunkHeap.AbsorbPrev` | mm/heap/heap.c:198-204 | joins with a free predecessor |
| `KernelHeap.ChunkHeap.MergeNeighbours` | mm/heap/heap.c:186-204 | both joins in the source's order give the joined lists and counters |
| `KernelHeap.ChunkHeap.UnlinkPage` | mm/heap/heap.c:156-171 | the three removals of return_page take exactly that page's three nodes out, and last is moved when needed |
| `KernelHeap.ChunkHeap.GiveBack` | mm/heap/heap.c:208-213 | the branch that returns a page: heap and page allocator as FreeChunk defines, invariant kept |
| `KernelHeap.ChunkHeap.KeepPage` | mm/heap/heap.c:215-218 | the branch that keeps the page: the joined chunk in its bucket, invariant kept |
| `KernelHeap.ChunkHeap.FreePageBlock` | mm/heap/heap.c:178-184 | kfree of a page-aligned pointer equals FreeBig on both allocators |
| `KernelHeap.ChunkHeap.Kfree` | mm/heap/heap.c:176-219 | in-place kfree of a live pointer equals the function Kfree on both allocators and keeps the invariant |
| `HeapModel.Log2Facts` | mm/heap/heap.c:36 | 31 - clz is the floor of the binary logarithm |
| `HeapAlloc.BucketFits` | mm/heap/heap.c:36-46 | a chunk from any bucket at or above the rounded-up order is large enough |
| `HeapAlloc.BucketRange` | mm/heap/heap.c:42 | every chunk size has a bucket in the table, split remainders included |
| `HeapAlloc.FreeIsMid` | mm/heap/heap.c:48-80 | a free chunk is between sentinels, its neighbours are in use and in its page, its size is a multiple of 4 between 8 and 4044 |
| `HeapLists.PageOrdered` | mm/heap/heap.c:48-80 | within a page the list of all chunks is in address order |
| `HeapLists.ChunksApart` | mm/heap/heap.c:91-154 | no two chunks overlap, so a live payload meets neither another payload nor any header or sentinel |
| `HeapRuns.BlocksApart` | mm/heap/heap.c:99-105 | a page-sized allocation shares no page with the chunks or with another such allocation |
| `HeapAlloc.TakeOk` | mm/heap/heap.c:115-153 | serving a request from a bucket keeps the heap invariant |
| `HeapAlloc.AddPageOk` | mm/heap/heap.c:48-80 | a new page keeps the invariant except for being empty, and makes the top bucket non-empty |
| `HeapFree.MergedOk` | mm/heap/heap.c:192-218 | freeing with both joins keeps the invariant: no two neighbours free, buckets exact, counters exact |
| `HeapFree.ReturnedOk` | mm/heap/heap.c:156-213 | returning a page keeps the invariant |
| `HeapSystem.RoundUp` | mm/heap/heap.c:107-110 | sizes 8..4095 round up to the next multiple of 4, less than 4 more, and the order is out of range exactly above 2048 |
| `HeapSystem.PageOrderFits` | mm/heap/heap.c:100 | the order asked of the page allocator is the least that holds the request |
| `HeapSystem.KmallocOk` | mm/heap/heap.c:91-154 | Null exactly for 0 and 2049..4095; the heap's own panic unreachable; out of pages only when no bucket could serve; otherwise a chunk nobody had of at least the least multiple of 4 that holds the request and 8 bytes, with less than 20 bytes to spare, all of it counted as used, or the least block of pages; invariant kept |
| `HeapRuns.KfreeOk` | mm/heap/heap.c:176-219 | exactly the freed pointer stops being live, the invariant is kept, and bytes and pages move together |
| `HeapRuns.KmallocBalances` | mm/heap/heap.c:91-154 | the three byte counters together grow by 4096 times the pages taken from the page allocator |
| `HeapRuns.BytesConserved` | mm/heap/heap.c:48-219 | used, free and meta bytes together are 4096 times the heap's pages plus the page-sized allocations |
| `HeapRuns.BytesFollowPages` | mm/heap/heap_test.c:89-100 | over every run of kmalloc and kfree the sum of the byte counters changes by 4096 times the change of used_pages_count |
| `HeapRuns.BytesArePages` | mm/heap/heap_test.c:89-100 | from boot, used, free and meta bytes are 4096 times used_pages_count less the pages in use before the heap |
| `HeapRuns.RunKeeps` | mm/heap/heap.c:91-219 | every run of kmalloc and kfree, interleaved with other users of the page allocator, keeps the joint invariant |
| `HeapRuns.NothingLiveIsBoot` | mm/heap/heap_test.c:102-117 | a heap with nothing live is the boot heap in every list, bucket and counter |
| `HeapRuns.HeapComesHome` | mm/heap/heap_test.c:102-117 | after any run that frees everything in any order the heap equals the boot heap |
| `HeapChoice.BucketIsClass` | mm/heap/heap.c:36-42 | the bucket of a chunk of n bytes is c exactly if 8 * 2^c <= n < 16 * 2^c |
| `HeapChoice.OrderIsClass` | mm/heap/heap.c:44-46 | kmalloc looks from the least class whose chunks all hold the request |
| `HeapChoice.KmallocChoice` | mm/heap/heap.c:91-154 | for 1..2048 bytes, by sizes alone: the first chunk of the smallest non-empty class that surely holds the rounded request, cut if 20 bytes or more are left, with chunks in use, free chunks, buckets as sequences and mem_used after it; a new page only if no chunk is sure to hold it; out of pages only then |
| `HeapJoin.KfreeJoins` | mm/heap/heap.c:176-219 | the chunk and its free neighbours become one free chunk, first in its bucket, the other buckets keeping their order; if that is all of a page other than the first, the page goes back instead |
| `KernelDrift.HeapDriftKeeps` | mm/heap/heap.c:91-219 | the joint invariant of heap and page allocator over runs with the entry past the page map free to change at every call, if no block below order 10 ends at page_n |
| `KernelDrift.HeapDriftComesHome` | mm/heap/heap_test.c:102-117 | under the same condition, after any such run that frees everything the heap equals the boot heap |
| `HeapOthers.KmallocSpares` | mm/heap/heap.c:91-154 | kmalloc takes no page that another owner holds, and every live page stays live with its order |
| `HeapOthers.KfreeSpares` | mm/heap/heap.c:176-219 | kfree gives back no page that another owner holds, and makes no page live |
| `HeapOthers.KmallocPointers` | mm/heap/heap.c:91-154 | the pointer returned has the room asked for and differs from every live chunk pointer, and all those stay live with theirs |
| `HeapOthers.KfreePointers` | mm/heap/heap.c:176-219 | freeing one pointer leaves every other chunk pointer live, with its room |
| `ThreadQueues.Queues.ListPushBack` | sched/queue.c:5-16 | the queue gains the thread at the end; head, tail, size and links agree; other queues unchanged |
| `ThreadQueues.Queues.ListPopFront` | sched/queue.c:18-32 | the first thread is returned and the rest remains; an empty queue is the underflow panic |
| `ThreadQueues.Queues.ListPushFront` | sched/queue.c:33-44 | the queue gains the thread in front |
| `ThreadQueues.Queues.FindPlace` | sched/queue.c:48-50 | the search stops at the first thread that wakes strictly later |
| `ThreadQueues.Queues.ListSortedPush` | sched/queue.c:46-63 | the thread is inserted after all that wake no later, through all three cases |
| `Scheduler.Kernel.constructor` | sched/sched.c:70-86 | the initial state: empty queues, idle current, reaper created and runnable |
| `Scheduler.Kernel.ThreadReady` | sched/sched.c:21-25 | runnable and at the end of the run queue |
| `Scheduler.Kernel.WakeUpThreads` | sched/sched.c:27-33 | the waking loop computes WakeUp |
| `Scheduler.Kernel.Schedule` | sched/sched.c:44-61 | scheduler() computes Switch and restores the full invariant |
| `Scheduler.Kernel.TimerInterrupt` | sched/sched.c:63-68 | the timer interrupt is the Timer step |
| `Scheduler.Kernel.YieldCall` | sched/sched.c:96 | a thread's own call of scheduler() is the Yield step |
| `Scheduler.Kernel.ThreadCreate` | sched/thread.c:22-53 | a new thread is the Spawn step |
| `Scheduler.Kernel.SleepArm` | sched/sched.c:90-91 | storing the wake time is the Arm step |
| `Scheduler.Kernel.SleepEnqueue` | sched/sched.c:92-95 | the atomic block of thread_sleep is the Enqueue step |
| `Scheduler.Kernel.ReaperAdd` | kernel/reaper.c:27-35 | reaper_add is the Exit step, waking the reaper unless it is runnable |
| `Scheduler.Kernel.ReaperCheck` | kernel/reaper.c:15-21 | the reaper's test of the zombie queue is the ReaperTest step |
| `Scheduler.Kernel.ReaperDestroy` | kernel/reaper.c:18 | the pop never underflows and yields a zombie that is not current and was not destroyed before |
| `SchedSteps.InitInv` | sched/sched.c:70-86 | the initial state satisfies the invariant |
| `SchedSteps.SwitchKeeps` | sched/sched.c:44-61 | scheduler() restores the invariant from any point inside the timer interrupt |
| `SchedSteps.WakeKeeps` | sched/sched.c:27-33 | the waking loop keeps what holds inside the timer interrupt |
| `SchedSteps.InsertSorted` | sched/queue.c:46-63 | insertion keeps the sleep queue sorted by wake time |
| `SchedSteps.InsertAtFacts` | sched/queue.c:48-50 | everything before the place wakes no later, everything from it on strictly later, so equal times keep their order |
| `SchedSteps.StepKeeps` | sched/sched.c:21-105 | each of the eight steps keeps the invariant |
| `SchedTheorems.ReachableInv` | sched/sched.c:21-105 | every state of every run from boot satisfies the invariant |
| `SchedTheorems.Placement` | kernel/reaper.c:12-35 | in every reachable state the queues are pairwise disjoint without duplicates, status agrees with the queue, idle is in none, and only a thread about to yield is current and queued |
| `SchedTheorems.NoLostWakeUp` | kernel/reaper.c:12-35 | in every reachable state a non-empty zombie queue means the reaper is current or in the run queue, never both |
| `SchedTheorems.PopIsSafe` | kernel/reaper.c:18 | in every reachable state in which the reaper is at its pop, the pop does not underflow and the zombie is not current, in no other queue and not yet destroyed |
| `SchedTheorems.DestroyedOnce` | sched/thread.c:55-59 | over any run a thread is destroyed at most once |
| `SchedTheorems.NeverBack` | sched/thread.c:14-20 | a destroyed thread is never current or queued again |
| `SchedTheorems.QueueMoves` | sched/sched.c:35-61 | each scheduler() call takes the head; every other step only appends |
| `SchedTheorems.MovesUp` | sched/sched.c:21-61 | after k scheduler() calls a thread stands k places further forward |
| `SchedTheorems.BoundedWaiting` | sched/sched.c:21-61 | a thread at place p is current after exactly p + 1 scheduler() calls, whatever else happens |
| `SchedTheorems.IdleIffNothingRuns` | sched/sched.c:50-53 | idle is chosen if and only if nothing is queued and the current thread gave up the processor |
| `SchedOrder.TimerOrder` | sched/sched.c:63-68 | in every reachable state the timer interrupt lines up the run queue, then the sleepers due by then in queue order, then the interrupted thread if it was running; the first of the line runs, the rest waits in that order, and idle runs exactly if the line is empty |
| `SchedOrder.YieldOrder` | sched/sched.c:44-61 | in every reachable state a call of scheduler() lines up the run queue and then the caller, unless it sleeps or has exited |
| `SchedOrder.EnqueueOrder` | sched/sched.c:92-95 | the thread goes before the first sleeper that wakes strictly later, and the other queues are left alone |
| `SchedOrder.ExitOrder` | kernel/reaper.c:27-35 | the thread is the last zombie, and the reaper is put last in the run queue unless it is there |
| `SchedOrder.SpawnOrder` | sched/thread.c:22-53 | the new thread is last in the run queue and nothing else changes place |
| `Reaping.TestThenPop` | kernel/reaper.c:15-18 | in every reachable state in which the reaper tests a non-empty zombie queue, its next step pops, and exactly the first zombie is destroyed |
| `Reaping.TestThenRest` | kernel/reaper.c:19-23 | when it tests an empty queue it gives up the processor and is then neither current nor queued |
| `Reaping.RestsOn` | kernel/reaper.c:19-35 | the reaper then does not run before a thread exits |
| `Reaping.ReapedExactly` | kernel/reaper.c:12-25 | over any run the zombie at place p is destroyed by exactly the (2p + 1)-st, (2p + 2)-nd or (2p + 3)-rd step the reaper itself takes, as it stands after its test, before it or before its call of scheduler() |
| `Reaping.ReapedInOrder` | kernel/reaper.c:12-25 | over any run the zombie at place p is destroyed exactly if p + 1 have been popped |
| `Reaping.CanExit` | sched/thread.c:14-20 | from every reachable state, for every thread waiting in the run queue outside the blocks of the kernel, a run in which it exits and is destroyed |
| `Reaping.CanSleep` | sched/sched.c:88-97 | and a run in which it goes to sleep for any given time |
| `SchedTheorems.WakesExactly` | sched/sched.c:27-33 | looking at the head only, the loop wakes exactly the sleepers whose time has come, in order |
| `SchedTheorems.WakeTimerIsLeast` | drivers/pit.c:19-30 | the predicted timer interrupt is the least one, at least the first, that reaches the wake time |
| `SchedTheorems.SleepExactly` | sched/sched.c:27-68 | a sleeper stays asleep before that interrupt and is runnable or running at it, over any run |
| `SchedTheorems.ArmedRun` | sched/sched.c:90-92 | a thread interrupted between storing its wake time and queueing itself keeps that time while others run |
| `SchedTheorems.SleepWindow` | sched/sched.c:88-97 | with any steps in between, holding n timer interrupts, the thread wakes at exactly interrupt number max(1, ceil(t * 1193182 / 11931) - n) after it is queued |
| `SchedTheorems.SleepSyscall` | process/syscall.c:17-20 | a sleep of t through the system call, which runs with interrupts off, wakes at exactly interrupt number max(1, ceil(t * 1193182 / 11931)) |
| `ThreadMemory.MemoryTaken` | sched/thread.c:22-25 | the page and the record thread_create takes are live, and no other thread or user of the heap holds them |
| `ThreadMemory.MemoryDropped` | sched/thread.c:55-59 | destroy_thread frees a live page and a live record, which are not live afterwards, and leaves what the other threads hold |
| `ThreadMemory.OthersSpare` | sched/thread.c:55-59 | other users of the heap and the page allocator leave what every thread holds |
| `ThreadMemory.NothingHeld` | sched/sched.c:70-86 | when the scheduler is set up, any state of heap and page allocator in order starts such a run |
| `ThreadMemory.RunKeeps` | sched/thread.c:22-59 | over every run of scheduler, heap and page allocator together, each thread made by thread_create and not destroyed holds a live page and a live record of its own with room for 36 bytes |
| `ThreadMemory.ReapsFreeLive` | kernel/reaper.c:12-25 | every reap in every such run frees one live page of order 0 and one live record; neither is live after it and no thread left holds either, so nothing is freed twice |
| `Machine.Memory.constructor` | mm/bump.c:9-12 | boot pages start at the first page boundary at or above the end address |
| `Machine.Memory.BumpTable` | mm/bump.c:14-20 | the next boot page, zeroed, and the placement address advanced by one page |
| `Machine.Memory.FindTable` | mm/paging.c:154-158 | the table for a directory entry, made with the requested flags if there is none |
| `Machine.Memory.MapOne` | mm/paging.c:153-160 | one 4 KB turn with the cached table equals MapSmall |
| `Machine.Memory.MapRange` | mm/paging.c:135-169 | the loop with its cached table and advancing indices computes MapRange, for map_range and early_map_range alike; false is the page allocator's panic |
| `EntryBits.SmallEntry` | mm/paging.c:43 | address OR flags keeps the address and every flag bit |
| `EntryBits.TableEntry` | mm/paging.c:39 | a table entry is present, writable, user exactly when asked, and names the table |
| `EntryBits.LargeEntry` | mm/paging.c:30 | a 4 MB entry has the size bit, the address and the requested permissions |
| `PageSteps.NewTableFresh` | mm/paging.c:38 | a new table is a frame that is neither a table nor data yet; boot pages are zero |
| `PageSteps.MapSmallLeftover` | mm/paging.c:153-160 | a page under a table just taken from the page allocator translates by the word left there, so as before exactly when that word is not present |
| `PageSteps.MapSmallElsewhere` | mm/paging.c:36-49 | mapping one page changes no other page's translation under a table that was there or was zeroed |
| `PageTheorems.MapRangeInside` | mm/paging.c:18-52 | page i of the range translates to page i of the target with the requested permissions, whatever mix of 4 MB and 4 KB entries was used |
| `PageWords.MapRangeWords` | mm/paging.c:135-169 | every bit of every entry written: a 4 MB entry exactly for the blocks that lie wholly in the range with both addresses aligned, otherwise a table entry; address plus flags as asked |
| `PageWords.TableSum` | mm/paging.c:39 | a new directory entry is the table's address plus present, writable and the flags asked for |
| `PageWords.UserFlags` | process/elf.c:20-22 | the flags of a segment's pages are 7 for a read-write segment and 5 otherwise, those of the stack 7 |
| `PageTheorems.MapRangeOutside` | mm/paging.c:18-52 | every page outside the range translates as before, except under a new table that was not zeroed, where it translates by the word left in the page the allocator hands out next |
| `PageTheorems.OutsideExactly` | mm/paging.c:135-169 | a page outside the range translates as before if and only if its table was there, is untouched or zeroed, or holds no present word for it |
| `PageTheorems.MapRangeKeeps` | mm/paging.c:135-169 | only touched entries, the tables they named, and unused frames are written; the directory stays well formed |
| `BootMap.FreshRegionReady` | mm/paging.c:54-124 | a region with no page mapped yet never meets a 4 MB entry |
| `BootMap.BootMapExact` | mm/paging.c:126-133 | from a cleared directory any page-disjoint kernel regions are all mapped as asked, every other page faults, and the boot allocator never fails |
| `BootMap.KernelDirectory` | mm/paging.c:54-124 | regions above the kernel base leave the user half of the directory empty |
| `ElfModel.LastAddrReached` | process/elf.c:60-68 | the address returned is at or above the end of every segment, and is one of them unless it is 0 |
| `ElfModel.PagesTight` | process/elf.c:27 | the pages of a segment hold p_memsz bytes with less than a page to spare |
| `ElfModel.EndsTight` | process/elf.c:46 | the address load_segment returns is at or above p_vaddr + p_memsz, by less than a page, and page-aligned if p_vaddr is |
| `ElfModel.StackExactly` | process/process.c:56-65 | in the header's own fields: the stack is page-aligned, at or above the end of every loaded segment and less than a page above one of them; at 0 without a loaded segment or the magic number |
| `Machine.Memory.LoadOne` | process/elf.c:31-44 | zero, copy, map and count down one page: equals LoadPage |
| `Machine.Memory.LoadSegment` | process/elf.c:12-47 | the page loop equals LoadSegment and returns the end of the segment, 0 for a segment not loaded |
| `Machine.Memory.LoadElf` | process/elf.c:49-69 | the magic test and the segment loop equal LoadElf and return the highest end, 0 without the magic number |
| `Machine.Memory.CreateProcess` | process/process.c:51-65 | directory copy, load and stack mapping equal CreateProcess; None is the page allocator's panic |
| `ProcessSteps.LoadPageOk` | process/elf.c:31-44 | a loaded page is in a fresh frame with the right bytes and permissions, and every page that read data before still does |
| `ProcessTheorems.LoadAllOk` | process/elf.c:62-66 | all segments are in place at the end, none disturbed by a later one |
| `ProcessTheorems.StackAfterImage` | process/process.c:56-65 | the stack page lies in no segment |
| `ProcessTheorems.CreateProcessOk` | process/process.c:51-65 | image and stack in place, kernel half copied, and not a word of any frame in use before is written |
| `ProcessTheorems.LoadedImage` | process/elf.c:12-69 | reading p_vaddr + b gives file byte p_offset + b below p_filesz and zero from there to the end of the last page, user-accessible, writable exactly for read-write segments, off the stack page |
| `ProcessRuns.StepKeeps` | process/process.c:51-65 | creating one more process, or other use of the page allocator, keeps every earlier process intact, and its segments and stack apart from all others |
| `ProcessRuns.ProcessesStayApart` | process/process.c:51-65 | in every state of every run all processes are intact, and no segment or stack page of one shares a frame with a segment or stack page of another |
| `ProcessTables.CreateLeaves` | process/process.c:51-65 | beside the process's own pages, its tables hold exactly the words that were left in the pages they are made of |
| `ProcessPlan.CreatePlanned` | process/process.c:51-65 | computed from the state before the call: create_process panics if and only if the plan runs out of pages, and otherwise its directory and the frame of each of its own pages are the planned ones |
| `ProcessPlan.PlanOwns` | process/process.c:51-65 | the pages a plan gives frames to are exactly the segments and the stack |
| `ProcessReach.ReachBefore` | process/process.c:51-65 | a process about to be created will reach exactly its own pages if and only if no word left in the pages its tables will be made of is a user mapping elsewhere; and it will share a frame with an earlier process if and only if a planned frame or left word of one names a frame planned or left for the other |
| `ProcessReach.ReachExactly` | mm/paging.c:153-160 | over the whole user half, a process reaches from user mode exactly its segments and stack if and only if its prospect before the call was clean |
| `ProcessReach.SharesExactly` | mm/paging.c:153-160 | two processes share a frame from user mode if and only if their prospects before the calls name the same frame |
| `ProcessReach.PlannedBefore` | process/process.c:51-65 | in every run the prospect kept for a process is the one computed from the state before the step that created it |
| `ProcessReach.IsolationExactly` | process/process.c:51-65 | both conditions in every state of every run; so while the tables handed out are clean, no two processes share a frame |
| `ProcessLeftovers.LeftoverShares` | mm/paging.c:154-156 | from any memory with six free pages, the same creation done twice on free pages nobody writes in between, after which the second process reaches the stack of the first |
| `KernelDrift.ProcessesStayApartDrifting` | process/process.c:51-65 | processes stay intact and apart with the entry past the page map free to change at every step, if no block below order 10 ends at page_n |
| `KernelDrift.IsolationDrifting` | process/process.c:51-65 | under the same condition, isolation exactly as the prospects say |
| `ProcessRuns.IsolationOverRuns` | mm/paging.c:135-169 | later steps change nothing any earlier directory translates or reads, and every process agrees with the kernel directory above the kernel base |
| `ProcessRuns.BootWorld` | mm/buddy/buddy.c:140-146 | boot establishes the start of such runs: the page allocator begins above the last boot page |

## Left out

- Device drivers, interrupt and descriptor tables, assembly stubs and forged stack frames: hardware state.
- Printing, random numbers and the multiboot walk: the bounds boot reads are parameters.
- Integer widths: addresses, sizes and ticks are unbounded, so wrap-around past 4 GB and of the 64-bit tick count is excluded.
- BuddyAllocator.Allocator.Scan: tests the bound before the list; for an order above 10 the source first reads past its list table (mm/buddy/buddy.c:84) and then panics either way.
- BuddyAllocator.Allocator.constructor: takes the length of the map as given; MakePages computes it.
- BuddyAllocator.Allocator.MergeOnce: takes zones whose entry past the map does not match, because otherwise the source unlinks a node that is on no list (mm/buddy/buddy.c:121); BuddyRuns and BuddyDrift say exactly when that is.
- BuddyAllocator.Allocator.FreePages: takes the same zones, and live blocks only; the source does not detect a double free or a foreign address.
- BuddyDrift.MakePages: takes a non-empty memory; for an empty one the source's count of map pages wraps around.
- BuddyRoundTrip.AllocThenFree: does not claim the order field of tail pages, which splitting leaves changed and nothing reads.
- KernelHeap.ChunkHeap.CreateChunk: formats a page its caller allocated; InitKmalloc and Kmalloc include the allocation. Clearing the page is not modelled, since the payload bytes are not.
- Scheduler.Kernel.ThreadCreate: does not include the allocation of the stack and the record; ThreadMemory does.
- Scheduler.Kernel.ReaperDestroy: does not perform the two frees of destroy_thread; ThreadMemory does.
- ThreadMemory.ReapsFreeLive: takes runs in which only threads made by thread_create exit and others free only what is theirs; the source detects neither. The two allocations, and the two frees, are one step, and the entry past the page map stays as it is.
- Machine.Memory.BumpTable: one page, the only count the source asks for.
- KernelHeap.ChunkHeap.Kfree: takes live pointers only; the source does not detect others.
- PageSteps.MapSmallElsewhere: says nothing of pages under a table just taken from uncleared memory; MapSmallLeftover does.
- Machine.Memory.MapRange: takes ranges that stay below 4 GB and whose small pages meet no 4 MB entry, nor for user pages an entry without the user bit; BootMap proves this of boot and Building of processes.
- PageWords.MapRangeWords: takes the same ranges.
- ElfModel.StackExactly: takes page-aligned segments, as user.ld lays them out.
- Machine.Memory.LoadSegment: takes segments below the kernel base whose file part lies in the file; the source checks neither.
- Machine.Memory.LoadElf: takes images under the same two conditions.
- Machine.Memory.CreateProcess: takes images under the same two conditions.
- ProcessTheorems.LoadedImage: takes page-aligned, page-disjoint segments below the kernel whose file part lies in the file, as user.ld lays them out.
- The kernel stack, the Thread record and the first register frame of a process: machine state; setup_kerenl_stack is not part of this model.
- KernelDrift.HeapDriftComesHome: takes page maps at whose end no block below order 10 ends; BuddyDrift shows that otherwise the page allocator itself can break.
- KernelDrift.ProcessesStayApartDrifting: takes the same page maps.
- Preemption inside one list, heap or allocator operation.
- Release of a process's directory, image and stack pages: the source does not release them.
