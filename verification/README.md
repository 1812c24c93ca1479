# A verified model of the RT-Thread kernel

This project models the core of the RT-Thread real-time kernel: the three memory allocators, the timers, the
scheduler and the inter-thread communication objects. It states what the C code promises and proves it with Dafny.

`dafny verify dfyconfig.toml` checks the whole project.

## How the model is built

* **Objects with mutable fields are classes.** A heap, a timer list, a scheduler or a mailbox is a class whose methods
  follow the C functions statement by statement: the same branches, constants, word widths and loops. A `Valid()`
  predicate ties its fields to a ghost view, and every method says what the new view is.
* **The views are plain values**: a `Tiling` for a heap, a list of runs for the page allocator, a flat list with
  unbounded time for the timers, a sequence for a queue. What the kernel promises is proved about them.
* **A critical section is one step.** The IPC modules model each interrupt-disabled region as one step and quantify over
  all sequences of steps, so a run is any interleaving of threads, including barging, timeouts and resets. Message
  queues also step through the copies that run with interrupts enabled; their runs (`QueueRuns`) take exactly the steps
  that the methods of the class are proved to take, and a log follows each message from copy in to copy out.
* **Words.** Sizes, addresses, ticks, the semaphore value and the mutex hold count are unbounded numbers with the 32-, 16-
  or 8-bit wrap written out. Bitmap words are numbers with bitwise operations (`Bits`); event words are sets of bit numbers.
* **Threads, timers and nodes** are numbered. `rt_list_t` rings are proved to be rings once, in `Rings`. Both lists of
  memheap.c are such rings; the links of mem.c, slab.c and the message queues are modelled link by link; ready queues,
  wait lists and timer rows are sequences.

| module | models |
|---|---|
| `Words`, `Sequences`, `Tilings`, `Payloads`, `Servings` | words and alignment; lists; the theory of an address range cut into blocks, of the bytes in it, and of what a realloc owes its caller |
| `Rings` | `include/rtservice.h` |
| `SmallHeaps` | `src/mem.c` |
| `MemHeaps` | `src/memheap.c` |
| `PageLists`, `SlabZones`, `SlabHeaps` | `src/slab.c` |
| `SkipRows`, `Timers`, `TimerLists`, `TimerCallbacks` | `src/timer.c`, the tick in `src/clock.c` |
| `Bits`, `ReadyMaps`, `RoundRobin`, `Schedulers`, `ResumeRuns` | `__rt_ffs` in `src/kservice.c`, `src/scheduler.c`, `src/thread.c`, the time slice in `src/clock.c` |
| `WaitLists`, `Semaphores`, `Mutexes`, `Events`, `Mailboxes`, `MessageQueues`, `QueueRuns` | `src/ipc.c` |

## Where the code and what one would expect of it differ

Each is stated as a lemma, with the exact condition.

* mem.c never serves an exact fit at the very last offset, because its search limit is strict (`FitsExactly`,
  `WholeArenaIsMissed`); memheap.c never serves a request equal to `available_size` (`WholePoolIsMissed`).
* A shrinking realloc in mem.c need not leave `lfree` at the lowest free block (`LowestAfterShrink`,
  `ShrinkMissesLowest`).
* In an arena below the minimum block the search of mem.c never ends (`TinyArenaSpins`, `TinyExample`).
* A request within 8 of 2^32 is rounded to 0 by both heaps (`RtAlignMeaning`). They then hand out, keep or cut down a block
  that does not hold the size asked for, and exactly then (`RequestIsServed` and `ReallocServes` for mem.c,
  `MemHeap.Alloc` and `ReallocServes` for memheap.c, with `ReallocCutsToMinimum`).
* A realloc to size 0 in mem.c frees nothing: it cuts the block to nothing if the payload is longer than 28 bytes, and
  otherwise, unless there is nothing to cut, returns NULL with the block still live.
* The fit test of the growing realloc in memheap.c wraps for sizes from 2^32-15 to 2^32-8; if the next block is free, the
  headers it leaves describe no heap (`WrapGrow` and `Broken` in `MemHeap.Realloc`, `GrowTestWraps`, `GrowTestFails`).
* The chunks of slab.c are on multiples of their size if that is a power of two, but only up to a page: above that,
  exactly if the zone is (`BigChunkAlignment`, `BigChunkExample`).
* A pool of memheap.c below two headers is not refused, and its `available_size` wraps (`MemHeap.Init`).
* A due periodic timer of period 0 keeps rt_timer_check from ever ending, and nothing else does
  (`ZeroPeriodNeverDrains`, `CheckEndsExactly`).
* A timer is left in the list without its ACTIVATED flag, so that rt_timer_stop refuses it, exactly if it is a one-shot
  timer and its timeout function, as the last thing it does to it, starts it again (`StraysAfterTurn`, `StrayStays`,
  `StrayExample`).
* rt_thread_resume tests the state with interrupts enabled and then works in two separate interrupt-disabled regions. Of
  any number of calls for one thread, the ready structure comes out coherent if and only if no region of one call runs
  between the two regions of another (`ResumesEndWell`, `MetBetweenTheRegions`); a call that falls between the test and
  the first region does no lasting harm (`MetAfterTheTest`), but until the second region is over the thread says READY,
  is in no queue, and the bit of its priority may be set over an empty queue (`BetweenTheRegions`, `ReadyInNoQueue`).
* The wrapping comparison of ticks is right exactly for distances from H - 2^32 up to, not including, H, where H
  is 0x7fffffff (`WrapTestIsExact`).
* The 256th nested take of a mutex makes its 8-bit hold count 0 (`HoldLimit`); 65536 unanswered releases of a semaphore
  make its value 0 (`ConservationIsExact`).
* A FIFO mutex keeps priority inheritance over a hand-off only if its first waiter is a most urgent one (`FifoHandOff`).

## Model

| member | source | states |
|---|---|---|
| Words.RtAlignMeaning | RT-THREAD/src/mem.c:263-270 | RT_ALIGN gives the least multiple of 8 that is large enough, exactly when the word does not wrap; otherwise 0 |
| Words.RtAlignDownMeaning | RT-THREAD/src/mem.c:184-195 | RT_ALIGN_DOWN gives the greatest multiple of 8 that is not above |
| Rings.LinkAfterRing | RT-THREAD/include/rtservice.h:62-69 | the four link writes of an insertion turn a ring into the ring with the new node in that place |
| Rings.UnlinkRing | RT-THREAD/include/rtservice.h:90-96 | the two link writes of a removal leave a ring of the other nodes in the same order |
| Rings.ListMemory.Init | RT-THREAD/include/rtservice.h:51-54 | a node becomes a ring of its own and other rings are untouched |
| Rings.ListMemory.InsertAfter | RT-THREAD/include/rtservice.h:62-69 | the ring gains the node behind the given one; rings it shares no node with stay as they are |
| Rings.ListMemory.InsertBefore | RT-THREAD/include/rtservice.h:77-84 | the same in front of the given one; in front of the head means at the end |
| Rings.ListMemory.Remove | RT-THREAD/include/rtservice.h:90-96 | the node leaves its ring and is alone; a node already alone stays alone |
| Rings.ListMemory.IsEmpty | RT-THREAD/include/rtservice.h:102-105 | true exactly for a ring of one node |
| Tilings.CoalescedIsCanonical | RT-THREAD/src/mem.c:136-174 | a heap without adjacent free blocks is determined by its used extents: the same live blocks always mean the same block list, whatever the history |
| Tilings.TakeThenRelease | RT-THREAD/src/mem.c:505-559 | freeing the block just allocated restores the very same block list, split or not |
| Tilings.ReleaseCommutes | RT-THREAD/src/mem.c:505-559 | two blocks may be freed in either order with the same resulting block list |
| Tilings.TotalConservation | RT-THREAD/src/memheap.c:60-131 | used and free blocks account for every byte and one header per block |
| Tilings.TakeExtents | RT-THREAD/src/mem.c:285-343 | an allocation adds exactly its own extent to the used ones |
| Tilings.ReleaseExtents | RT-THREAD/src/mem.c:136-174 | a free with its joins removes exactly the extent of the block freed |
| Tilings.ShrinkExtents | RT-THREAD/src/mem.c:431-455 | an in-place shrink replaces one used extent by its lower part |
| Tilings.GrowExtents | RT-THREAD/src/memheap.c:354-406 | an in-place growth replaces one used extent by a longer one |
| Payloads.MovedSurvives | RT-THREAD/src/mem.c:458-467 | after allocate, copy, free the copied prefix and all other live payload bytes are intact |
| SmallHeaps.SmallHeap.Init | RT-THREAD/src/mem.c:184-230 | succeeds exactly when two headers fit between the aligned ends; then one free block spans the arena and every invariant holds |
| SmallHeaps.SmallHeap.Walk | RT-THREAD/src/mem.c:136-174 | `next` from offset 0 visits the blocks in order and ends at heap_end; `prev` is the true predecessor except at the first block and heap_end |
| SmallHeaps.SmallHeap.Layout | RT-THREAD/src/mem.c:246-375 | live payloads are 8-aligned, below heap_end, clear of all headers and pairwise disjoint |
| SmallHeaps.SmallHeap.BytesConserved | RT-THREAD/src/mem.c:320-340 | used_mem is the total extent of used blocks and, with the free extents, the offset of heap_end |
| SmallHeaps.SmallHeap.PlugHoles | RT-THREAD/src/mem.c:136-174 | joins a free block with both free neighbours, leaves no two free neighbours, moves lfree with the block it pointed at, and touches no live payload |
| SmallHeaps.SmallHeap.Carve | RT-THREAD/src/mem.c:285-343 | splits or takes a fitting block, updating used_mem and max_mem, all other blocks and payloads unchanged |
| SmallHeaps.SmallHeap.AdvanceLfree | RT-THREAD/src/mem.c:345-352 | moves lfree to the first free block at or above, or to heap_end |
| SmallHeaps.SmallHeap.SearchIsComplete | RT-THREAD/src/mem.c:279-283 | while lfree is the lowest free block, nothing fits above it exactly when nothing fits at all |
| SmallHeaps.FitsExactly | RT-THREAD/src/mem.c:279-283 | the search accepts a block exactly if it is free and large enough, save an exact fit at the last offset |
| SmallHeaps.WholeArenaIsMissed | RT-THREAD/src/mem.c:279-283 | a fresh arena is one free block that a request for all of it does not get |
| SmallHeaps.SmallHeap.Malloc | RT-THREAD/src/mem.c:246-375 | the first fitting block at or above lfree, or NULL with nothing changed and only when nothing there fits; keeps the invariants, the lowest-free property of lfree and max_mem as the maximum |
| SmallHeaps.SmallHeap.RequestIsServed | RT-THREAD/src/mem.c:263-274 | a block handed out holds the size asked for exactly when rounding up did not wrap, and has less than 32 bytes to spare over the rounded size, 16 at least |
| SmallHeaps.SmallHeap.Free | RT-THREAD/src/mem.c:505-559 | NULL and foreign pointers change nothing; a live pointer's block is released and joined, other payloads intact, lfree still lowest if it was |
| SmallHeaps.SmallHeap.CutBack | RT-THREAD/src/mem.c:431-455 | the shrinking branch frees the tail, joins it and keeps all payloads |
| SmallHeaps.TinyArenaSpins | RT-THREAD/src/mem.c:265-283 | below 16 bytes of arena, a request not refused by its size makes the search take one more turn after any number of turns |
| SmallHeaps.TinyExample | RT-THREAD/src/mem.c:265-283 | an arena of 8 bytes and a request for 8 bytes |
| SmallHeaps.SmallHeap.MoveBlock | RT-THREAD/src/mem.c:458-467 | the moving branch: first fit, copy of min(old, new) bytes, release of the old block, max_mem the greater of what it was and used_mem while both blocks were live; NULL changes nothing |
| SmallHeaps.SmallHeap.ReallocLive | RT-THREAD/src/mem.c:420-467 | for a live block: kept or cut in place if and only if its payload is the rounded size or more than 28 bytes longer, whatever else is free; else moved to the first fit, or NULL with nothing changed |
| SmallHeaps.SmallHeap.Realloc | RT-THREAD/src/mem.c:386-467 | every branch: refuse, keep, shrink, move, allocate for NULL; the block stays where it is if and only if its payload is the rounded size or more than 28 bytes longer, and then is exactly the rounded size; min(old, rounded new) bytes and all other payloads survive, max_mem stays the maximum, and failure, also for size 0, leaves the old block live and intact |
| SmallHeaps.ReallocServes | RT-THREAD/src/mem.c:386-467 | a pointer returned leads to a block of at least newsize bytes that starts with the first min(old, newsize) bytes, all other blocks and payloads as before, if and only if rounding newsize up did not wrap |
| SmallHeaps.LowestAfterShrink | RT-THREAD/src/mem.c:431-455 | after a shrink lfree is the lowest free block if and only if it was below the cut or pointed at the free block that the tail joins |
| SmallHeaps.ShrinkMissesLowest | RT-THREAD/src/mem.c:431-455 | a heap of two used blocks and a free one in which it is not |
| SmallHeaps.LowestAfterRelease | RT-THREAD/src/mem.c:546-557 | lfree stays the lowest free block over a free |
| SmallHeaps.LowestAfterTake | RT-THREAD/src/mem.c:345-352 | lfree stays the lowest free block over an allocation |
| MemHeaps.MemHeap.Init | RT-THREAD/src/memheap.c:60-131 | one free block, one tailer, one entry in the free list, available_size what is left: a sound heap if and only if two headers fit; otherwise available_size wraps |
| MemHeaps.MemHeap.BlockListIsOrdered | RT-THREAD/src/memheap.c:60-131 | the circular block list is in address order, `prev` is its reverse, and blocks are at least a header apart |
| MemHeaps.MemHeap.FreeListIsExact | RT-THREAD/src/memheap.c:499-596 | the free list holds exactly the blocks whose USED bit is clear, each once |
| MemHeaps.MemHeap.BytesConserved | RT-THREAD/src/memheap.c:60-131 | pool_size is available_size plus used payloads plus one header per block, tailer included |
| MemHeaps.MemHeap.Layout | RT-THREAD/src/memheap.c:146-288 | live payloads are disjoint, inside the pool and clear of all headers |
| MemHeaps.MemHeap.Search | RT-THREAD/src/memheap.c:176-187 | stops at the first entry of the free list that is large enough |
| MemHeaps.MemHeap.Commit | RT-THREAD/src/memheap.c:190-265 | takes and cuts that entry; the remainder heads the free list |
| MemHeaps.MemHeap.Alloc | RT-THREAD/src/memheap.c:146-288 | NULL, with nothing changed, if and only if the size is not below available_size or no free block is large enough; else the first large enough entry, with room for the size asked for if and only if rounding it up did not wrap, and less than 36 bytes to spare over the rounded size, 12 at least |
| MemHeaps.WholePoolIsMissed | RT-THREAD/src/memheap.c:162 | the one free block of a fresh heap is large enough for a request that is refused |
| MemHeaps.MemHeap.JoinLeft | RT-THREAD/src/memheap.c:541-558 | joins with a free left neighbour, which is in the free list already, and gains one header |
| MemHeaps.MemHeap.JoinRight | RT-THREAD/src/memheap.c:561-579 | joins with a free right neighbour, which leaves the free list, and gains one header |
| MemHeaps.MemHeap.Free | RT-THREAD/src/memheap.c:499-596 | the block is released and joined, the free list is exactly the new free blocks in the stated order, other payloads intact |
| MemHeaps.LastFreedIsReused | RT-THREAD/src/memheap.c:146-596 | a block freed without a free left neighbour is the first to be used again for any size it has room for; when it had no free neighbour and no remainder is left, that allocation undoes the free, down to the order of the free list |
| MemHeaps.NextIsAdjacent | RT-THREAD/src/memheap.c:190-240 | the remainder of an allocation serves the next one that fits in there, right behind the first |
| MemHeaps.MemHeap.GrowInPlace | RT-THREAD/src/memheap.c:354-406 | the free successor gives up its lower end; block list, free list and counts agree; with a size that wraps in the fit test, the headers describe no heap |
| MemHeaps.MemHeap.CutBack | RT-THREAD/src/memheap.c:437-489 | the tail becomes a free block joined with a free successor |
| MemHeaps.MemHeap.MoveBlock | RT-THREAD/src/memheap.c:412-421 | first large enough entry, copy of the old payload, release of the old block, max_used_size the greater of what it was and the use while both blocks were live; NULL exactly when none fits, with nothing changed |
| MemHeaps.MemHeap.Realloc | RT-THREAD/src/memheap.c:291-496 | the heap stays sound if and only if the fit test of the growing branch does not wrap into success; then size 0 frees, NULL allocates, failure changes nothing, max_used_size is the maximum, and a live block is served as asked if and only if rounding the size up did not wrap |
| MemHeaps.MemHeap.ReallocLive | RT-THREAD/src/memheap.c:311-496 | the branches for a live block: keep, shrink, grow in place, move or fail, each with the new blocks, bytes and maximum in terms of the rounded size |
| MemHeaps.ReallocServes | RT-THREAD/src/memheap.c:304-496 | a pointer returned leads to a block of at least newsize bytes that starts with the first min(old, newsize) bytes, all other blocks and payloads as before, if and only if rounding newsize up did not wrap |
| MemHeaps.ReallocCutsToMinimum | RT-THREAD/src/memheap.c:304-306 | a live block of 100 bytes and a size for which it is cut to 12 bytes |
| MemHeaps.GrowTestWraps | RT-THREAD/src/memheap.c:354 | for a used block with a free successor, the 32-bit fit test decides as the true comparison if and only if not (the size is from 2^32-15 to 2^32-8 and there is room for the wrapped sum) |
| MemHeaps.GrowTestFails | RT-THREAD/src/memheap.c:354 | a heap of 1024 bytes and a size for which it decides wrongly |
| MemHeaps.StrayHeader | RT-THREAD/src/memheap.c:380-395 | once a header is linked in inside the header before it, no block list and no free list satisfy the invariant |
| PageLists.CanonicalIsUnique | RT-THREAD/src/slab.c:282-332 | a set of free pages has exactly one sorted, disjoint, fully coalesced run list |
| PageLists.RunIffConsecutive | RT-THREAD/src/slab.c:246-277 | some run is long enough if and only if that many consecutive pages are free anywhere |
| PageLists.AllocThenFree | RT-THREAD/src/slab.c:246-332 | allocating pages and freeing them restores the identical list |
| PageLists.FreeCommutes | RT-THREAD/src/slab.c:282-332 | freeing two ranges in either order gives the identical list |
| PageLists.PageAllocator.Init | RT-THREAD/src/slab.c:337-343 | one run of all pages |
| PageLists.PageAllocator.Alloc | RT-THREAD/src/slab.c:246-277 | the front of the first run long enough; NULL, unchanged, if and only if nowhere that many consecutive pages are free; exactly those pages leave |
| PageLists.PageAllocator.Free | RT-THREAD/src/slab.c:282-332 | afterwards exactly the pages given back are free in addition and the list is canonical again |
| SlabZones.ZoneIndexMeaning | RT-THREAD/src/slab.c:411-469 | one chunk size per index whichever branch computed it, at least the request, at most 8 bytes or an eighth more |
| SlabZones.ZoneIndexIsTightest | RT-THREAD/src/slab.c:411-469 | a chunk size of the table is large enough if and only if its index is not below the one computed |
| SlabZones.AllocChunkOk | RT-THREAD/src/slab.c:571-583 | a zone with free chunks hands out one that is not live, the chunk list is not empty when popped, and live chunks, list and unused tail still partition the indices |
| SlabZones.FreeChunkOk | RT-THREAD/src/slab.c:861-873 | the same partition after a chunk is given back |
| SlabZones.ReusedInOrder | RT-THREAD/src/slab.c:571-583 | chunks never used are handed out from the lowest up; after that the one given back last, and taking it undoes giving it back |
| SlabZones.WholeIffNoneLive | RT-THREAD/src/slab.c:885 | z_nfree is z_nmax less the live chunks, so it equals z_nmax if and only if no chunk is live |
| SlabZones.FreshZoneFacts | RT-THREAD/src/slab.c:641-658 | a new zone holds at least two chunks, all inside it and behind its header, the first one live |
| SlabZones.FreshZoneIsBased | RT-THREAD/src/slab.c:641-658 | in a new zone the chunks start on a multiple of 8, and on a multiple of their size if that is a power of two |
| SlabZones.FreshZoneIsPacked | RT-THREAD/src/slab.c:641-658 | they start at the first such place behind the 36 bytes of the header, and there is no room for one more at the end |
| SlabZones.ChunkIsAligned | RT-THREAD/src/slab.c:643-650 | every chunk of such a zone is on a multiple of 8; of its size, if that is a power of two up to a page; and of a page, if it is a larger power of two |
| SlabZones.BigChunkAlignment | RT-THREAD/src/slab.c:643-650 | for any power of two, a chunk is on a multiple of its size if and only if its zone is |
| SlabZones.BigChunkExample | RT-THREAD/src/slab.c:643-650 | a zone whose first chunk of 8192 bytes is on no multiple of 8192 |
| SlabZones.ChunkInZone | RT-THREAD/src/slab.c:574 | chunks of a zone do not overlap, and the page of a chunk's start is one of the zone's pages |
| SlabZones.TakeFromListOk | RT-THREAD/src/slab.c:554-592 | taking from a zone keeps every list exactly the zones of its index that have free chunks |
| SlabZones.GiveBackOk | RT-THREAD/src/slab.c:861-877 | giving back keeps the same, and shows whether the zone is now whole |
| SlabZones.GiveThenTake | RT-THREAD/src/slab.c:554-592 | when every chunk of a zone was live, giving one back and taking a chunk of that index undo each other, lists included |
| SlabZones.RetireOk | RT-THREAD/src/slab.c:894-905 | retiring a zone keeps the same, with the zone among those kept back |
| SlabHeaps.ChooseZoneSize | RT-THREAD/src/slab.c:385-387 | the largest of 32K, 64K and 128K below a 1024th of the heap, at least 32K |
| SlabHeaps.MarkZone | RT-THREAD/src/slab.c:628-634 | the loop marks every page of a new zone with its offset |
| SlabHeaps.ClearZone | RT-THREAD/src/slab.c:917-922 | afterwards the entries of the zone's pages are free and all others as before |
| SlabHeaps.UnlinkZone | RT-THREAD/src/slab.c:894-896 | the loop takes exactly the zone out of its list |
| SlabHeaps.RequestFacts | RT-THREAD/src/slab.c:549-550 | every request below the limit has an index and fits a zone for it at least twice |
| SlabHeaps.ChunkIsFound | RT-THREAD/src/slab.c:826-858 | from the address of a live chunk alone, the usage entry of its page leads to its own zone and the offset to its index |
| SlabHeaps.LiveChunksAreAligned | RT-THREAD/src/slab.c:643-650 | every live chunk of a sound heap is on a multiple of 8, of its size if that is a power of two up to a page, and of a page if it is a larger one |
| SlabHeaps.LiveChunksAreDisjoint | RT-THREAD/src/slab.c:488-684 | the bytes of two live chunks never overlap, in one zone or two |
| SlabHeaps.ChunksAndPagesAreDisjoint | RT-THREAD/src/slab.c:488-684 | a live chunk overlaps no large block and no free page |
| SlabHeaps.LiveUsage | RT-THREAD/src/slab.c:826-828 | the usage entry of a live pointer says LARGE exactly for large blocks, with their size |
| SlabHeaps.AloneInList | RT-THREAD/src/slab.c:885-886 | the pointer test finds out exactly whether another zone of this index has free chunks |
| SlabHeaps.SlabHeap.constructor | RT-THREAD/src/slab.c:354-404 | sets up pages, zone size and limit, by the size of the heap, with the usage table's own pages taken off the free ones |
| SlabHeaps.SlabHeap.Malloc | RT-THREAD/src/slab.c:488-684 | NULL, unchanged, exactly for size 0 or when no zone, spare zone or run of pages can serve it; else a chunk of the tightest size that was not live, or whole pages owned by nobody; the pointer is on a multiple of 8 and, for a size that is a power of two, of that, up to a page |
| SlabHeaps.SlabHeap.MallocLarge | RT-THREAD/src/slab.c:508-540 | whole pages for large requests, the fewest that hold the size |
| SlabHeaps.SlabHeap.TakeChunk | RT-THREAD/src/slab.c:554-592 | a chunk that was not live, out of the first zone of the list |
| SlabHeaps.SlabHeap.NewZone | RT-THREAD/src/slab.c:603-664 | a spare zone if there is one, else new pages; fails only when no such run of pages is free |
| SlabHeaps.SlabHeap.Free | RT-THREAD/src/slab.c:793-935 | exactly the block given is released; a zone is given up only when no chunk of it is live and another zone has free chunks; at most two zones are kept back |
| SlabHeaps.SlabHeap.PutBack | RT-THREAD/src/slab.c:861-877 | the chunk is free again and the zone back in its list |
| SlabHeaps.SlabHeap.GiveUpZone | RT-THREAD/src/slab.c:893-931 | the whole zone is kept back, or its pages are free again when two are kept already |
| Timers.WrapTestIsExact | RT-THREAD/src/timer.c:356-363 | the wrapping test agrees with the true order of two times if and only if their distance is in a stated range |
| Timers.StartFlatOk | RT-THREAD/src/timer.c:293-421 | starting keeps the list sorted by true deadline, without repeats, all deadlines in the window the wrap test needs |
| Timers.CheckFlatFacts | RT-THREAD/src/timer.c:488-546 | a check fires exactly the timers whose deadline is reached, in deadline-then-start order; nothing due is left; the periodic ones are due one period on |
| Timers.FiresOnTime | RT-THREAD/src/timer.c:488-546 | over any run of starts, stops and ticks in which the checks end, a listed timer nobody touches fires first at its deadline, or at the next tick if that has passed, and, if periodic, at every whole period after it, across wraparound; a timer not listed never fires |
| Timers.StartedTimerFiresOnTime | RT-THREAD/src/timer.c:293-421 | a timer started at s fires first at s + init_tick, or at the next tick for init_tick 0, never earlier |
| Timers.ZeroPeriodNeverDrains | RT-THREAD/src/timer.c:501-540 | with a due periodic timer of period 0 in the list, the head of the list is due after every number of turns |
| Timers.CheckEndsExactly | RT-THREAD/src/timer.c:501-540 | the check comes to an end if and only if no due periodic timer has period 0 |
| SkipRows.TallInsert | RT-THREAD/src/timer.c:373-388 | sorted insertion into the flat list is sorted insertion into the rows that are low enough, and leaves the others |
| SkipRows.TallWithout | RT-THREAD/src/timer.c:123-131 | removal from the flat list is removal from every row |
| SkipRows.RowIsSubsequence | RT-THREAD/src/timer.c:339-388 | every row is sorted and a subsequence of the row below |
| TimerLists.MoveDown | RT-THREAD/src/timer.c:365-366 | the place found in a row is a place to go on from in the row below |
| TimerLists.CompareOk | RT-THREAD/src/timer.c:356-363 | the 32-bit comparison of the search orders any listed timer and the new one like their true deadlines |
| TimerLists.DueTestOk | RT-THREAD/src/timer.c:506-510 | the 32-bit test of the check says truly whether a listed timer is due |
| TimerLists.HeightBounds | RT-THREAD/src/timer.c:373-388 | a timer gets into the bottom row and at most all rows |
| TimerLists.HeightIs | RT-THREAD/src/timer.c:373-388 | a timer is put into row k above the bottom if and only if the counter is divisible by the k-th power of the fan-out |
| TimerLists.TimerList.RemoveRows | RT-THREAD/src/timer.c:123-131 | the timer leaves every row it is in |
| TimerLists.TimerList.FindHeads | RT-THREAD/src/timer.c:339-367 | the row-by-row search stops in every row behind exactly the timers that are not later |
| TimerLists.TimerList.PushRows | RT-THREAD/src/timer.c:373-388 | the timer goes into as many rows from the bottom as the counter says |
| TimerLists.TimerList.Start | RT-THREAD/src/timer.c:293-421 | for any number of rows the skip list represents stable sorted insertion into the flat list |
| TimerLists.TimerList.Stop | RT-THREAD/src/timer.c:430-454 | an active timer leaves the list; an inactive one is refused |
| TimerLists.TimerList.Check | RT-THREAD/src/timer.c:488-546 | unless a due periodic timer has period 0, the loop ends and does what the flat model's check does, in order |
| TimerLists.TimerList.TickIncrease | RT-THREAD/src/clock.c:83-105 | one tick of the 32-bit clock is one tick of the flat model |
| TimerCallbacks.StraysAfterTurn | RT-THREAD/src/timer.c:511-540 | whatever sequence of starts and stops the timeout function makes, the list stays in order, and a timer ends up listed without its flag exactly if it is the one that fired, is one-shot and was last started, or was so before and was not started |
| TimerCallbacks.StrayStays | RT-THREAD/src/timer.c:425-426 | such a timer cannot be stopped |
| TimerCallbacks.InertTurn | RT-THREAD/src/timer.c:511-540 | with a timeout function that leaves the timers alone the turn is that of the flat model |
| TimerCallbacks.StrayExample | RT-THREAD/src/timer.c:511-540 | a one-shot timer of 5 ticks that starts itself |
| Bits.TableIsRight | RT-THREAD/src/kservice.c:1194-1212 | the table holds the lowest set bit of every byte but 0 |
| Bits.FfsMeaning | RT-THREAD/src/kservice.c:1224-1238 | 0 exactly for 0, otherwise one more than the index of the lowest set bit of the 32 |
| ReadyMaps.HighestIsTop | RT-THREAD/src/scheduler.c:201-210 | in both layouts the computed priority is the least one whose queue is not empty |
| ReadyMaps.SetBitsOk | RT-THREAD/src/scheduler.c:297-300 | setting the masks of a priority keeps bit p set if and only if queue p is not empty |
| ReadyMaps.ClearBitsOk | RT-THREAD/src/scheduler.c:338-349 | the same for clearing, including the group bit only when the byte becomes 0 |
| Schedulers.ChosenIsMostUrgent | RT-THREAD/src/scheduler.c:201-218 | the head of that queue is ready and no ready thread is more urgent |
| Schedulers.Scheduler.constructor | RT-THREAD/src/scheduler.c:120-147 | empty queues and bitmap, no current thread |
| Schedulers.Scheduler.StartScheduler | RT-THREAD/src/scheduler.c:154-179 | the most urgent ready thread becomes current |
| Schedulers.Scheduler.Schedule | RT-THREAD/src/scheduler.c:191-258 | right after an unlocked scheduling step the current thread heads the most urgent queue, and if it is another than before rt_current_priority is the priority of that queue; a locked one changes nothing |
| Schedulers.Scheduler.InsertThread | RT-THREAD/src/scheduler.c:267-304 | a thread that is in no queue becomes READY at the back of its own, and queues, states and bits agree again |
| Schedulers.Scheduler.RemoveThread | RT-THREAD/src/scheduler.c:313-353 | a thread leaves its queue, and the bits go exactly when the queue is empty, so that all but this thread agree |
| Schedulers.Scheduler.Startup | RT-THREAD/src/thread.c:203-234 | the thread is ready at its initial priority with the masks of that priority, and the scheduler is settled |
| Schedulers.Scheduler.SuspendThread | RT-THREAD/src/thread.c:554-585 | a ready thread leaves its queue, in which the others keep their order, coherence kept; any other is refused |
| Schedulers.Scheduler.ResumeThread | RT-THREAD/src/thread.c:595-627 | a suspended thread is back at the end of its queue; any other is refused |
| ResumeRuns.ResumesEndWell | RT-THREAD/src/thread.c:595-627 | after any interleaving of the tests and regions of any number of calls for one thread, followed link by link, the ready structure is coherent if and only if no region of one call ran between the two regions of another |
| ResumeRuns.BetweenTheRegions | RT-THREAD/src/thread.c:613-624 | between the regions of an undisturbed call the thread is in no queue; the structure is coherent there if and only if no call has put the thread in yet, and otherwise its bit is set whatever else is in the queue |
| ResumeRuns.LinkTwiceTears | RT-THREAD/include/rtservice.h:77-84 | inserting a node that is in the list already leaves links that lead to it but not back |
| ResumeRuns.TornStays | RT-THREAD/include/rtservice.h:77-96 | and neither inserting nor removing it again mends them |
| ResumeRuns.TornIsNoRing | RT-THREAD/include/rtservice.h:62-96 | such links are no list of whatever nodes |
| ResumeRuns.MetBetweenTheRegions | RT-THREAD/src/thread.c:595-627 | a run of two calls that tears the queue |
| ResumeRuns.MetAfterTheTest | RT-THREAD/src/thread.c:595-627 | a run of two calls that ends well although the second runs after the test of the first |
| ResumeRuns.ReadyInNoQueue | RT-THREAD/src/thread.c:613-624 | the same run before its last region: READY and in no queue |
| Schedulers.Scheduler.TimeoutThread | RT-THREAD/src/thread.c:636-657 | a timed-out thread is ready and marked, and the scheduler settled |
| Schedulers.Scheduler.ChangePriority | RT-THREAD/src/thread.c:485-526 | a ready thread moves to the back of its new queue, any other only changes its fields; masks follow the priority |
| Schedulers.Scheduler.Yield | RT-THREAD/src/thread.c:377-411 | the current thread goes to the back of its queue if another thread shares it |
| Schedulers.Scheduler.Exit | RT-THREAD/src/thread.c:47-82 | the current thread closes and leaves its queue, in which the others keep their order, and the most urgent other thread runs |
| Schedulers.Scheduler.TickIncrease | RT-THREAD/src/clock.c:83-105 | the current thread is charged one tick, locked or not, and at 0 gets a new slice and goes to the back of its queue; unlocked, that is one step of the round-robin model on the running queue, all other queues unchanged |
| Schedulers.Scheduler.RunTicks | RT-THREAD/src/clock.c:83-105 | n ticks with nothing in between are n steps of the round-robin model, and the current thread is thread j of the queue exactly during its own ticks |
| Schedulers.Scheduler.ExitCritical | RT-THREAD/src/scheduler.c:379-401 | leaving the outermost lock settles the scheduler |
| RoundRobin.AfterTurns | RT-THREAD/src/clock.c:93-101 | after exactly the ticks left to the first j threads the queue is rotated j times and those threads have fresh slices |
| RoundRobin.RoundRobinBound | RT-THREAD/src/clock.c:93-101 | thread j heads the queue exactly during its own ticks, counted after those of the threads before it |
| RoundRobin.NotBeforeItsTurn | RT-THREAD/src/clock.c:93-101 | and at no earlier tick |
| WaitLists.SuspendOn | RT-THREAD/src/ipc.c:92-135 | the search puts a thread at the end (FIFO) or behind every thread not less urgent (PRIO) |
| WaitLists.PrioComesByUrgency | RT-THREAD/src/ipc.c:105-131 | on a sorted list a newcomer is served after exactly those who are at least as urgent |
| WaitLists.FifoComesLast | RT-THREAD/src/ipc.c:101-103 | on a FIFO list a newcomer is served after everyone |
| WaitLists.EnqueueKeepsOrder | RT-THREAD/src/ipc.c:92-135 | those who wait keep their order |
| WaitLists.HeadIsNext | RT-THREAD/src/ipc.c:92-135 | the head of a list built by such insertions and removals is the next in line of those who came to wait |
| Sequences.InsertSorted | RT-THREAD/src/ipc.c:105-131 | insertion keeps a list sorted |
| Sequences.InsertIsStable | RT-THREAD/src/ipc.c:105-131 | a newcomer goes behind exactly the smaller and equal keys, and nobody else moves |
| Semaphores.Semaphore.Take | RT-THREAD/src/ipc.c:328-411 | succeeds exactly with a positive value, waits in the order of the flag exactly at 0 and if it may, else times out; nobody waits while the value is positive |
| Semaphores.Semaphore.Release | RT-THREAD/src/ipc.c:435-468 | serves the first waiter, or counts when nobody waits |
| Semaphores.Semaphore.Timeout | RT-THREAD/src/thread.c:636-657 | the waiter leaves, nothing else changes |
| Semaphores.Semaphore.Reset | RT-THREAD/src/ipc.c:481-507 | every waiter is sent away and the value set, cut to 16 bits |
| Semaphores.Conservation | RT-THREAD/src/ipc.c:328-468 | over any run without reset, initial value plus releases is value plus takes plus whole turns of 2^16, and waiters imply value 0 |
| Semaphores.ConservationIsExact | RT-THREAD/src/ipc.c:435-468 | without the turns if and only if no release met a full value with nobody waiting |
| Semaphores.TakeAnswers | RT-THREAD/src/ipc.c:328-411 | after any run a take succeeds if and only if there was more, at first and by releases, than was taken and turned over; it waits, in the list, if and only if there was not and it may |
| Semaphores.ServedInOrder | RT-THREAD/src/ipc.c:328-468 | the order of two waiters never changes while both wait, and a release never serves the later one first |
| Semaphores.RunRanked | RT-THREAD/src/ipc.c:328-468 | over any run with steady priorities whoever has the better claim waits before the other: arrival for FIFO, priority and then arrival for PRIO |
| Semaphores.ServedByClaim | RT-THREAD/src/ipc.c:435-468 | after any run from a fresh semaphore the list is sorted by priority under PRIO, and the waiter a release serves has the better claim over every other one |
| Mutexes.TakeConsistent | RT-THREAD/src/ipc.c:642-761 | owner, hold and value agree after any take of either flag below the hold limit, and the taker owns it exactly if it succeeded |
| Mutexes.ReleaseConsistent | RT-THREAD/src/ipc.c:772-859 | the same for a release; the last one hands over to the first waiter without the mutex becoming free |
| Mutexes.ReachableOk | RT-THREAD/src/ipc.c:642-859 | in every reachable state owner != NULL iff hold > 0 iff value = 0, every non-owner runs at its initial priority and original_priority is the owner's; with the PRIO flag the list is sorted and the owner at least as urgent as every waiter |
| Mutexes.StepOk | RT-THREAD/src/ipc.c:642-859 | each take, release, hand-off and waiter timeout keeps that |
| Mutexes.HoldLimit | RT-THREAD/src/ipc.c:672-676 | a recursive take keeps the invariant if and only if the hold is below 255 |
| Mutexes.RunRanked | RT-THREAD/src/ipc.c:642-859 | over any run whoever has the better claim waits before the other: arrival for FIFO, own priority and then arrival for PRIO, whatever the owner inherits meanwhile |
| Mutexes.ServedByClaim | RT-THREAD/src/ipc.c:819-839 | in every reachable state the thread next in line has the better claim over every other waiter |
| Mutexes.StepAgrees | RT-THREAD/src/ipc.c:642-859 | each step does to owner, hold, priorities and wait list what it does to a ledger of takes and releases |
| Mutexes.RefinesIdeal | RT-THREAD/src/ipc.c:642-859 | after every run the owner is the one by the ledger, hold is its takes less its releases since it became the owner, it runs at the most urgent priority among itself and those who came to wait for it, everybody else at its own, and the first waiter is the next in line |
| Mutexes.LetsGoAtLastRelease | RT-THREAD/src/ipc.c:772-859 | a mutex changes hands or becomes free only at the release that matches the first take of its owner |
| Mutexes.TakeAnswers | RT-THREAD/src/ipc.c:642-761 | after every run a take succeeds if and only if the mutex is nobody's or the caller's, and waits if and only if it is not and the caller may |
| Mutexes.NestedTakes | RT-THREAD/src/ipc.c:667-671 | two takes and one release leave the mutex with its owner |
| Mutexes.FifoHandOff | RT-THREAD/src/ipc.c:819-839 | a FIFO hand-off keeps the inheritance if and only if the first waiter is a most urgent one |
| Mutexes.Mutex.TakeBy | RT-THREAD/src/ipc.c:642-761 | the critical section does the step that the runs are made of, inheritance included |
| Mutexes.Mutex.ReleaseBy | RT-THREAD/src/ipc.c:772-859 | the release does that step; only the owner may |
| Mutexes.Mutex.TimeoutOf | RT-THREAD/src/thread.c:636-657 | a waiter leaves and the owner keeps what it inherited |
| Events.DeferredIsImmediate | RT-THREAD/src/ipc.c:1030-1058 | a deferred delivery yields and clears the bits that an immediate receive at that point would |
| Events.RecvLeaves | RT-THREAD/src/ipc.c:1120-1199 | a receive gets the bits asked for that are set, exactly when all or, with OR, any of them are; with CLEAR exactly those asked for are then gone, otherwise, or if it gets none, the set is as it was |
| Events.ServeQuiesces | RT-THREAD/src/ipc.c:1020-1066 | although CLEAR shrinks the set during the pass, in the end no waiter left is satisfied, and every waiter is either left or served |
| Events.SendIsAskAgain | RT-THREAD/src/ipc.c:998-1077 | a send leaves the set, the waiters and the received bits that come of setting the bits and letting each waiter, in the order of the list, receive by itself |
| Events.SendToOne | RT-THREAD/src/ipc.c:998-1077 | a lone waiter is served exactly if its bits are there, with those that are, and the set that is left is the one that a receive after the send would leave |
| Events.AlwaysQuiescent | RT-THREAD/src/ipc.c:998-1236 | after every step of every run of sends, receives, timeouts and resets no waiter is satisfied by the set |
| Events.Event.Send | RT-THREAD/src/ipc.c:998-1077 | the loop serves each waiter in turn as if it received by itself with the set left by those before; an empty set is refused |
| Events.Event.Recv | RT-THREAD/src/ipc.c:1093-1199 | error, bits at once, timeout or wait, in that order of tests; AND goes before OR; the set loses the bits asked for if some were got with CLEAR, and nothing otherwise |
| Events.Event.TimeoutOf | RT-THREAD/src/thread.c:636-657 | a waiter leaves and the state stays quiescent |
| Events.Event.ResetAll | RT-THREAD/src/ipc.c:1211-1233 | all waiters leave and the set is empty |
| Mailboxes.NeverLost | RT-THREAD/src/ipc.c:1404-1715 | from any good state, every interleaving keeps the wake-up and order properties |
| Mailboxes.ReachableOk | RT-THREAD/src/ipc.c:1404-1715 | in every reachable state a suspended receiver means at least as many woken receivers as mails, a suspended sender at least as many woken senders as free places, and the mails sent since the reset are those received followed by the contents |
| Mailboxes.LooksAnswer | RT-THREAD/src/ipc.c:1404-1674 | after every run a send succeeds if and only if fewer mails than places are sent and not received, a receive if and only if some are; else the thread waits, in the list, if and only if it may; a success adds the mail to those sent, or the oldest one to those received |
| Mailboxes.WokenInOrder | RT-THREAD/src/ipc.c:1404-1674 | after every run with steady priorities the suspended receivers and senders are those who came to wait, and the first to be woken of each is the next in line: the first to arrive or, with the PRIO flag, the first of the most urgent |
| Mailboxes.IndexIsModular | RT-THREAD/src/ipc.c:1498-1501 | the offset kept is (out_offset + entry) mod size |
| Mailboxes.Mailbox.constructor | RT-THREAD/src/ipc.c:1253-1281 | an empty mailbox |
| Mailboxes.Mailbox.SendStep | RT-THREAD/src/ipc.c:1421-1522 | full: refused or suspended; else the mail is stored behind the others in the ring and a receiver woken |
| Mailboxes.Mailbox.RecvStep | RT-THREAD/src/ipc.c:1570-1674 | empty: refused or suspended; else the oldest mail and a sender woken |
| Mailboxes.Mailbox.TimeoutOf | RT-THREAD/src/thread.c:636-657 | the thread leaves the lists, no wake-up is lost |
| Mailboxes.Mailbox.ResetAll | RT-THREAD/src/ipc.c:1686-1715 | all suspended threads leave and the ring is empty |
| MessageQueues.MessageQueue.constructor | RT-THREAD/src/ipc.c:1738-1785 | all max_msgs nodes are in the free list |
| MessageQueues.NodesConserved | RT-THREAD/src/ipc.c:1924-2221 | free nodes, queue entries and threads in mid-copy add up to max_msgs |
| MessageQueues.InFlight | RT-THREAD/src/ipc.c:1955-1961 | a node being copied is in neither list and in nobody else's hands |
| MessageQueues.AllocOk | RT-THREAD/src/ipc.c:1943-1953 | taking a node off the free list keeps lists, places, head, tail and entry consistent |
| MessageQueues.FillOk | RT-THREAD/src/ipc.c:1958-1961 | the unlocked copy disturbs neither list, no queued message and no other copy |
| MessageQueues.LinkBackOk | RT-THREAD/src/ipc.c:1966-1979 | linking at the tail appends the payload |
| MessageQueues.LinkFrontOk | RT-THREAD/src/ipc.c:2052-2061 | linking at the head prepends it |
| MessageQueues.PopOk | RT-THREAD/src/ipc.c:2193-2202 | unlinking the head removes the first payload |
| MessageQueues.ReturnOk | RT-THREAD/src/ipc.c:2210-2216 | the node is back in the free list |
| MessageQueues.DrainOk | RT-THREAD/src/ipc.c:2250-2264 | one turn of the reset loop moves the first node from the queue to the free list |
| QueueRuns.StepOk | RT-THREAD/src/ipc.c:1924-2275 | every critical section, copy, timeout and reset keeps the pool, the wake-up and the log invariants |
| QueueRuns.RunOk | RT-THREAD/src/ipc.c:1924-2275 | and so does every interleaving of them |
| QueueRuns.EveryMessageOnce | RT-THREAD/src/ipc.c:1924-2275 | after every run from rt_mq_init, a message copied in is in exactly one place: in one node, queued or in one thread's hands, with its bytes still at the start of that node's buffer; or copied out; or thrown away by a reset |
| QueueRuns.CopiedOutOnce | RT-THREAD/src/ipc.c:2207-2208 | after every run, what any receiver copied out is the payload of one earlier copy in, as far as its buffer goes, and no two receivers got the same one |
| QueueRuns.NoLostWakeup | RT-THREAD/src/ipc.c:1963-1998 | after every run, while a receiver is suspended each queued message has a woken receiver on its way, and free, queued and held nodes add up to the pool |
| QueueRuns.UrgentFirst | RT-THREAD/src/ipc.c:1963-2202 | after every run, of two messages an urgent one leaves before every earlier one that was in the queue when it was linked, and one that is not urgent leaves after every earlier one |
| QueueRuns.QueueIsInOrder | RT-THREAD/src/ipc.c:1963-2202 | after every run the messages linked are those that left and those in the queue, each once, and the queue is in the order in which its messages are to leave |
| QueueRuns.FirstInFirstOut | RT-THREAD/src/ipc.c:1963-2202 | after every run in which no urgent message was linked, the messages linked are those that left the queue followed by those in it, in the same order |
| QueueRuns.WokenInOrder | RT-THREAD/src/ipc.c:1981-2175 | after every run with steady priorities the suspended receivers are those who came to wait, and the first to be woken is the next in line |
| MessageQueues.MessageQueue.SendBegin | RT-THREAD/src/ipc.c:1933-1956 | too big, full, or a node nobody else holds: the step BeginSend of a run |
| MessageQueues.MessageQueue.CopyIn | RT-THREAD/src/ipc.c:1958-1961 | the payload is in the node, all else unchanged |
| MessageQueues.MessageQueue.Link | RT-THREAD/src/ipc.c:1963-1998 | the payload joins the sequence at the stated end and the first receiver is woken |
| MessageQueues.MessageQueue.RecvBegin | RT-THREAD/src/ipc.c:2115-2205 | the first payload leaves the sequence, or the thread is refused or suspended, exactly when there is none |
| MessageQueues.MessageQueue.CopyOut | RT-THREAD/src/ipc.c:2207-2208 | the receiver gets what the sender copied in, cut only by its own buffer |
| MessageQueues.MessageQueue.RecvEnd | RT-THREAD/src/ipc.c:2210-2216 | the node is free again |
| MessageQueues.MessageQueue.TimeoutOf | RT-THREAD/src/thread.c:636-657 | a suspended receiver leaves |
| MessageQueues.MessageQueue.ResetAll | RT-THREAD/src/ipc.c:2241-2275 | the queue is empty, all its nodes are free, and copies in progress go on undisturbed |

## Left out

- SmallHeaps.SmallHeap.Malloc: requires an arena of at least 16 bytes or a request that is refused at once, because otherwise its loop does not end (TinyArenaSpins).
- SmallHeaps.SmallHeap.Realloc: for a NULL pointer, the same.
- MemHeaps.MemHeap.Realloc: in the case WrapGrow says only that the headers describe no heap; the new header overlaps the one before it, which the model shows in the bytes of the pool and not in the links of the overlapped header.
- MemHeaps.MemHeap.Layout: does not state 8-alignment, because the 12-byte minimum of memheap.c breaks it.
- SlabHeaps.SlabHeap.Malloc: sequential, without the heap semaphore, because the failure path of slab.c releases it a second time; the list through free chunks holds chunk indices instead of addresses.
- TimerLists.TimerList.Check: the loop over the skip list runs timeout functions that leave the timers alone; TimerCallbacks has the turn with any other, on the flat list.
- TimerLists.TimerList.Start: no tick comes between reading the clock and the insertion, and rt_tick_set does not move the clock.
- Schedulers.Scheduler.ResumeThread: the test and the two regions are one step; ResumeRuns steps through them.
- ResumeRuns.ResumesEndWell: the calls are for one thread and nothing else moves threads meanwhile; stopping the timer of the thread is not modelled.
- Schedulers.Scheduler.EnterCritical: the 16-bit limit on lock nesting, which the source leaves to its callers too.
- Schedulers.Scheduler.Schedule: requires some thread to be ready, as the idle thread always is; rt_current_priority is claimed to be the priority of the queue only when the current thread changes, because a priority change of the running thread leaves it stale.
- Mutexes.ReachableOk: one mutex; a thread's priority is changed by nothing but its inheritance, and an owner does not wait for another mutex.
- Mailboxes.Mailbox.SendStep: the recalculation of the remaining waiting time after a wake-up is the parameter `wait`, so any outcome of it is covered.
- Semaphores.RunRanked: priorities do not change while threads wait; the source does not reorder the list either.
- Mailboxes.WokenInOrder: priorities do not change while threads wait, as in Semaphores.RunRanked.
- QueueRuns.WokenInOrder: the same.
- MessageQueues.MessageQueue.CopyIn: a copy is one step, which loses nothing because no other thread can reach the node.
- Slab statistics, the slab rt_realloc and rt_calloc: wrappers over malloc, copy and free.
- The heap locks of mem.c and memheap.c: the operations are modelled as the sequential code they protect.
- Contents of the magic words, hooks, debug output, object names and RT_ASSERT failures: no effect on the state modelled; asserted conditions are preconditions.
- Memory pools, soft timers, the idle thread's clean-up, thread creation and deletion, stack contents and context switching.
- Loading of modules and its allocator, formatted output and string routines, device drivers and board support.
