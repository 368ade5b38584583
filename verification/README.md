# Verification of the tuduOS kernel cores

tuduOS is a fork of the RT-Thread 4.0.3 kernel. This project models the parts of it that keep intricate state,
proves what every operation keeps, and ties each operation to what it is for. `dafny verify dfyconfig.toml`
checks everything.

**Heaps.** `Tiling` is about lists of blocks that fill an address range, `HeapMemory` about block headers and
payload bytes. `SmallMem` (`src/mem.c`) and `MemHeap` (`src/memheap.c`) are the two heaps on top: their
methods update the header fields in place, as the source does, and a ghost block list says what the headers
mean. Writing a header destroys the bytes under it, so that reallocation keeps data is a real claim. A
canonical block list is determined by its live blocks, which makes allocation followed by freeing an identity.
`Ring` is the linked list of `include/rtservice.h`; the free list of `MemHeap` is such a ring.

**Slab allocator.** `Pages` is the list of free page runs, `Zones` one zone and the size classes, `ZoneLists`
the lists of zones, and `Slab` the allocator with its page table (`src/slab.c`).

**Scheduling.** `Bits` is `__rt_ffs`; `Scheduler` has the ready lists, their bitmap with one or two levels,
`rt_schedule` and the thread operations. `Timer` is the skip list of timers with its 32-bit wrap-around
comparison, and the expiry loop.

**IPC.** `WaitList`, `MessageQueue`, `Mutex`, `Mailbox`, `Event` and `MemPool`. Every region between disabling
and enabling interrupts is one method, a class invariant (`Valid`) is kept by each of them, and so it holds
for any interleaving of threads. `Activity` says what each thread is doing at a mailbox or memory pool. The
two copies of the message queue that take place with interrupts enabled are steps of their own.

**Build tools.** `KconfigExpr`, `KconfigCache` and `KconfigParse` are the expressions, the value cache, and
the parser with its grammar and the printer of `tools/kconfiglib.py`; `StackUsage` is the worst-case stack
analysis of `tools/WCS.py`.

`Options`, `Threads`, `Arithmetic` and `Seqs` hold what several modules share.

Results that differ from what the source suggests:

- First fit in `src/mem.c` overlooks one block, an exact fit that ends at the heap end
  (`SmallMem.FirstFitComplete`, `SmallMem.WholeHeapRefused`).
- `rt_memheap_alloc` refuses a request for exactly all the free bytes (`MemHeap.Heap.AllocRefuses`,
  `MemHeap.WholePoolRefused`).
- `src/memheap.c` hands out aligned blocks when the alignment divides the minimum size of 12; when it does
  not, a request for nothing leaves a free block that is misaligned (`MemHeap.Heap.PayloadAligned`,
  `MemHeap.RestMisaligned`).
- Slab chunks of a power-of-two size above a page are aligned only when their zone is (`Zones.PowersAligned`,
  `Zones.TwoPagesMisaligned`).
- The nesting count of a mutex has eight bits. A thread that takes a mutex more than 256 times loses it before
  the last release, and only then (`Mutex.HoldTells`, `Mutex.Mutex.Nest`).
- A thread that waits for a memory pool block goes to the front of the list, so the one that has waited least
  is served first (`MemPool.MemPool.Alloc`, `MemPool.MemPool.Free`).
- `rt_mp_init` writes the end of the free chain in front of a pool in which no block fits. All its writes are
  in the pool exactly when a block fits, but for sizes that add up to the whole address space
  (`MemPool.StoresInside`, `MemPool.EightBytes`).
- The tick comparisons agree with real time exactly within a window of half the range (`Timer.LaterAgrees`,
  `Timer.ExpiredAgrees`). A timer can be started exactly while no pending timer is overdue by more than
  0x80000001 ticks less its initial tick, which leaves three ticks for the longest one (`Timer.LatestStart`,
  `Timer.ThreeTicksLate`).

## Model

| member | source | states |
|---|---|---|
| `Tiling.CanonicalUnique` | src/mem.c:156-194 | Two tilings of the same range with no two neighbouring free blocks and the same used blocks are equal: merging free neighbours leaves one possible block list for a given set of live blocks. |
| `Tiling.Conservation` | src/memheap.c:50-121 | Payload of used blocks, payload of free blocks and one header per block add up to the whole range, so nothing is lost between the blocks. |
| `Tiling.MergeLive` | src/mem.c:156-194 | Joining a block with the free block after it takes only that free block off the free ones; the live blocks stay, but for the joined one if it is live, which is then the longer block. |
| `HeapMemory.CopyBytes` | src/kservice.c:210-280 | For ranges that do not overlap, the destination gets the bytes of the source, and no byte outside the destination changes. |
| `HeapMemory.MovedBytes` | src/mem.c:507-516 | Allocate, copy, free: the new block begins with the bytes the old block had before the allocation, and every other live block keeps its bytes. |
| `SmallMem.Heap.constructor` | src/mem.c:204-257 | The heap starts as one free block followed by the used end stub, with the cursor at the first block and no used bytes; the invariant holds. |
| `SmallMem.Heap.PlugHoles` | src/mem.c:156-194 | Given that only the pairs around `mem` may be free neighbours, afterwards no two neighbours are free; live blocks, used bytes and the meaning of the cursor are unchanged. |
| `SmallMem.Heap.Search` | src/mem.c:305-312 | Starting at the lowest free block, the loop stops at the first block of the whole heap that serves the request, or runs to its bound when there is none. |
| `SmallMem.Heap.CarveBlock` | src/mem.c:311-378 | The block is split exactly when the rest can hold a header and the minimum payload; `used_mem` is again the extent of the used blocks; no live payload is overwritten. |
| `SmallMem.Heap.AdvanceLowest` | src/mem.c:380-387 | After the lowest free block was taken, the cursor stops at the new lowest free block, or at the end stub when none is left. |
| `SmallMem.Heap.Malloc` | src/mem.c:272-410 | Keeps tiling, back links, merged free blocks, lowest-free cursor and used-byte count. It returns null exactly for size 0, a size above the heap, or when every free block that could hold the request is an exact fit at the heap end; otherwise it hands out the lowest block that is not, cut exactly when the rest can hold a header and the minimum, adds exactly that block to the live ones and keeps all live bytes. |
| `SmallMem.Heap.WantLeast` | src/mem.c:285-303 | The bytes that are looked for are the least multiple of the alignment that holds the request, or the minimum if that is more. |
| `SmallMem.Heap.Free` | src/mem.c:552-615 | Exactly the freed block leaves the live blocks, free neighbours are merged and the whole invariant is re-established; null does nothing. |
| `SmallMem.Heap.MallocThenFree` | src/mem.c:272-615 | Freeing what was just allocated restores the very same block list, cursor and used-byte count, whatever was split or merged. |
| `SmallMem.Heap.Shrink` | src/mem.c:471-504 | The block is cut to the new size, the rest is merged with a free successor, the kept part and all other live blocks keep their bytes. |
| `SmallMem.Heap.Move` | src/mem.c:507-516 | A new block gets the first min(old, new) bytes and the old block goes; when the allocation fails nothing has changed. |
| `SmallMem.Heap.Realloc` | src/mem.c:421-516 | A live block and a non-zero size: a block of exactly the requested size, or with room for another header and minimum behind it, stays where it is and is cut to that size. Otherwise null is returned exactly when the size exceeds the heap or allocation fails, and leaves everything as it was; a new block begins with the first min(old, new) bytes. All other live payloads are unchanged. Null pointer: as an allocation, null exactly when that fails. Size 0: the block is freed and no byte changes. An address outside the heap is handed back. |
| `SmallMem.FirstFitComplete` | src/mem.c:305-312 | No block serves exactly when every free block large enough is an exact fit that ends at the heap end: first fit is complete with this one exception. |
| `SmallMem.WholeHeapRefused` | src/mem.c:305-312 | The exception is real: an untouched heap hands out null for a request for all of its payload. |
| `Ring.RingInsert` | include/rtservice.h:58-80 | The four stores of an insertion turn a doubly linked ring into the ring with the node after the given one, `next` and `prev` inverse to each other. |
| `Ring.RingRemove` | include/rtservice.h:86-92 | The stores of a removal give the ring without the node, also when the node is linked to itself afterwards. |
| `Ring.Lists.InsertAfter` | include/rtservice.h:58-65 | The node comes right after the given one in the ring; links outside the ring are untouched. |
| `Ring.Lists.InsertBefore` | include/rtservice.h:73-80 | The node comes right before the given one, which is the end of the list when that is the head; links outside the ring are untouched. |
| `Ring.Lists.Remove` | include/rtservice.h:86-92 | The node leaves the ring and becomes a ring of its own; removing a node that is alone changes nothing; links outside the ring are untouched. |
| `Ring.Lists.IsEmpty` | include/rtservice.h:98-101 | A list is reported empty exactly when its ring has no node but the head. |
| `MemHeap.Heap.constructor` | src/memheap.c:50-121 | A pool of at least two headers starts as one free block, which may be empty, and a used tail without payload; the free list holds that block; `available_size` is its payload. |
| `MemHeap.Heap.FreeInsert` | src/memheap.c:221-225 | A block enters the free list at its front, and the links stay a ring that holds each entry once. |
| `MemHeap.Heap.FreeRemove` | src/memheap.c:251-254 | A block leaves the free list from anywhere in it, and the order of the others is kept. |
| `MemHeap.Heap.Search` | src/memheap.c:169-180 | The loop finds the first entry of the free list whose block is large enough, or reports that there is none. |
| `MemHeap.Heap.TakePart` | src/memheap.c:188-236 | The front of the block becomes used, the rest takes its place at the front of the free list, and the byte count drops by payload and one header. |
| `MemHeap.Heap.TakeWhole` | src/memheap.c:237-258 | A block too small to split becomes used as it is and leaves the free list. |
| `MemHeap.Heap.Alloc` | src/memheap.c:138-281 | Keeps the block ring, the free list of exactly the free blocks, and the byte count. It refuses exactly when no free block holds the request or the request is for exactly all the free bytes; otherwise the first large enough entry of the free list is taken, and cut when the rest can be a block; the new lists and the high-water mark are stated, and no live byte changes. |
| `MemHeap.Heap.AllocRefuses` | src/memheap.c:155-183 | The test of the byte count and the search of the free list turn a request away exactly when no free block holds it, or when it is for exactly all the free bytes, because the comparison is strict. |
| `MemHeap.Heap.WantLeast` | src/memheap.c:147-150 | The bytes that are looked for are the least multiple of the alignment that holds the request, or the minimum if that is more. |
| `MemHeap.WholePoolRefused` | src/memheap.c:155 | The second case is real: a freshly initialised pool refuses every request for all of its free bytes, which its one block could hold. |
| `MemHeap.Heap.PayloadAligned` | src/memheap.c:147-150 | In every reachable state, if the alignment divides the minimum size, the header size and the pool size, every block handed out is aligned and so is its size. |
| `MemHeap.RestMisaligned` | src/memheap.c:147-150 | If it does not divide the minimum size, a request for nothing in a fresh pool leaves a free block whose payload is not aligned. |
| `MemHeap.Heap.MergeLeft` | src/memheap.c:540-557 | A free block before the freed one absorbs it, one header joins the free bytes, and the freed block is not to enter the free list. |
| `MemHeap.Heap.MergeRight` | src/memheap.c:559-578 | A free block after the freed one is absorbed and leaves the free list; no two neighbours are free afterwards. |
| `MemHeap.Heap.Free` | src/memheap.c:495-595 | Exactly the freed block leaves the live blocks; the free list gains it at the front unless the block before it was free, and loses the block after it if that was free; byte count and invariant are re-established. |
| `MemHeap.Heap.AllocThenFree` | src/memheap.c:138-595 | Freeing what was just allocated restores the same block list, byte count and set of free-list entries. |
| `MemHeap.Heap.Grow` | src/memheap.c:350-402 | The free block after the block leaves the free list before the smaller one is built and enters it; the block takes its front and keeps its bytes. |
| `MemHeap.Heap.Shrink` | src/memheap.c:432-491 | The cut-off rest joins a free successor and enters the free list; the kept part and all other live blocks keep their bytes. |
| `MemHeap.Heap.Move` | src/memheap.c:408-416 | A new block gets the old contents and the old block is freed; null exactly when the allocation is refused, and then nothing has changed. |
| `MemHeap.Heap.CanGrowNext` | src/memheap.c:333-350 | The test on the next block in the list says whether the free bytes right after a block are enough for it to grow. |
| `MemHeap.Heap.Realloc` | src/memheap.c:284-492 | A live block and a non-zero size: the block stays where it is when it is large enough, or the bytes right after it belong to a free block and both together have more than the request and the minimum; it then has the requested size, but for a rest too small for a block. Otherwise null is returned exactly when no other free block holds the request, or the request is for all the free bytes, and leaves everything as it was; a new block begins with the old contents. All other live payloads are unchanged. Null pointer: as an allocation. Size 0: the block is freed and no byte changes. |
| `Pages.CanonicalUnique` | src/slab.c:272-322 | Sorted, disjoint, maximal runs are determined by the set of free pages. |
| `Pages.InOneRun` | src/slab.c:236-270 | Free pages in a row always lie in a single run, so looking at runs one by one misses no place. |
| `Pages.CutPages` | src/slab.c:245-263 | Cutting pages off the front of a run removes exactly these pages from the free ones and keeps the list canonical. |
| `Pages.GrownFreed` | src/slab.c:291-300 | When the freed pages begin where a run ends, growing that run, and joining the next one if it is now reached, frees exactly these pages and keeps the list canonical. |
| `Pages.PrependedFreed` | src/slab.c:302-309 | When the freed pages end where a run begins, the longer run in its place frees exactly these pages. |
| `Pages.InsertedFreed` | src/slab.c:311-317 | A new run between two runs it does not touch frees exactly these pages. |
| `Pages.PageList.constructor` | src/slab.c:327-334 | The free pages are exactly those given. |
| `Pages.PageList.Alloc` | src/slab.c:236-270 | It fails exactly when there are not that many free pages in a row; otherwise the pages returned are at the lowest address there is, exactly they stop being free, and the list stays canonical. |
| `Pages.PageList.Free` | src/slab.c:272-322 | Exactly the given pages become free, their number is added, and the list is canonical again. |
| `Pages.PageList.AllocThenFree` | src/slab.c:236-322 | Freeing the pages just allocated restores the identical list of runs. |
| `Zones.SmallestClass` | src/slab.c:401-459 | The chunk size of a request is that of its class, is large enough, and no class of smaller index would be. |
| `Zones.ClassesDouble` | src/slab.c:401-459 | The classes are the multiples of 8 up to 128 bytes, and then eight steps from each size to its double. |
| `Zones.ClassesMatch` | src/slab.c:401-459 | Two requests are in one class exactly when they get the same chunk size, and chunk sizes grow with requests. |
| `Zones.ChunkFits` | src/slab.c:401-459 | Rounding never gives less than the request, gives a multiple of 8, and from 128 bytes on wastes less than an eighth of the request. |
| `Zones.NeverEmpty` | src/slab.c:541-568 | A zone whose counter says it has a free chunk has one: when no fresh chunk is left, the free chain that is popped is not empty. |
| `Zones.TakeChunkOk` | src/slab.c:543-568 | Taking a chunk hands out one that was not live, makes exactly it live, and keeps the counter equal to the fresh chunks plus the length of the free chain. |
| `Zones.PutChunkOk` | src/slab.c:830-842 | Giving a live chunk back makes exactly it not live and keeps the count. |
| `Zones.LiveInside` | src/slab.c:543-568 | Every live chunk lies behind the zone header and within the zone. |
| `Zones.LiveDisjoint` | src/slab.c:543-568 | Two live chunks of a zone do not overlap. |
| `Zones.FreeChainBound` | src/slab.c:842-855 | The free count stays between none and all chunks, although the chain it counts is only known to have no repetition. |
| `Zones.FullIsUnused` | src/slab.c:854-855 | A zone that counts as entirely free has no live chunk. |
| `Zones.NewZoneOk` | src/slab.c:625-648 | For every zone size the heap can choose, a new zone has room for three chunks, its invariant holds and exactly its first chunk is live. |
| `Zones.NewZoneFull` | src/slab.c:625-648 | A new zone has as many chunks as fit behind its header, from the first aligned place on. |
| `Zones.PowersAligned` | src/slab.c:631-638 | Chunks of a power-of-two size up to a page are aligned to that size; larger ones are exactly when their zone is aligned to it. |
| `Zones.TwoPagesMisaligned` | src/slab.c:631-638 | A zone that starts at an odd page has no aligned chunk of two pages. |
| `ZoneLists.Taken` | src/slab.c:539-548 | When the chunk taken was the last, dropping the zone from its list keeps every zone with free chunks, and no other, on the list of its class. |
| `ZoneLists.Returned` | src/slab.c:842-846 | Linking a zone when its count leaves zero keeps the zone lists right. |
| `ZoneLists.Added` | src/slab.c:650-652 | A zone from new pages goes to the list of its class. |
| `ZoneLists.Unparked` | src/slab.c:590-595 | The first parked zone, entirely free, may be laid out for any class. |
| `ZoneLists.Parked` | src/slab.c:862-874 | Moving an entirely free zone from anywhere in its list to the parked zones keeps both right. |
| `ZoneLists.Dropped` | src/slab.c:881-883 | The first parked zone can be given up. |
| `Slab.BlocksDisjoint` | src/slab.c:478-667 | Any two live blocks of the heap, chunks or large blocks, are disjoint. |
| `Slab.Lookup` | src/slab.c:795-828 | The page table leads from every live chunk to the zone that owns it, and gives the page count of every large block. |
| `Slab.Slab.constructor` | src/slab.c:344-395 | The usage table takes the first pages of the heap, four bytes for each page, and exactly the pages after it are free; there are no zones, no parked zones and no live blocks, and the zone size is as chosen. |
| `Slab.ChooseZoneSize` | src/slab.c:374-377 | The loop picks the largest of 32, 64 and 128 KiB that is 32 KiB or below a 1024th of the heap. |
| `Slab.Slab.LargeAlloc` | src/slab.c:493-521 | It fails exactly when there are not enough pages in a row, and then nothing has changed; otherwise the lowest such pages are taken and exactly one block of that many pages is added, and all others keep their bytes. |
| `Slab.Slab.FromZone` | src/slab.c:539-577 | Exactly one chunk of the first zone of the class is added to the live blocks; the zone leaves its list exactly when that was its last free chunk. |
| `Slab.Slab.FromNewZone` | src/slab.c:579-659 | It fails exactly when no zone is parked and there is no run of pages for a zone, and then nothing has changed; otherwise the first parked zone, or else a zone on the lowest free pages, becomes the only zone of the class with free chunks, and its first chunk is added. |
| `Slab.Slab.Malloc` | src/slab.c:378-667 | Requests below a quarter of a zone and 16 KiB are served by the first zone of their class, else by the first parked zone, else by new pages, all others by whole pages; it fails exactly for size 0 or when none of these is there, and then nothing has changed. Otherwise one new block, large enough, is added, all others keep place, size and bytes, and the new zone lists, parked zones and free pages are stated. |
| `Slab.Slab.FreeLarge` | src/slab.c:796-820 | Exactly that block goes, exactly its pages become free, and all others keep their bytes. |
| `Slab.Slab.ReturnChunk` | src/slab.c:825-846 | Exactly that chunk goes; its zone joins the list of its class exactly when it had no free chunk before. |
| `Slab.Slab.Park` | src/slab.c:862-874 | The search for the link finds the zone, which becomes the first parked zone. |
| `Slab.Slab.ReleaseZone` | src/slab.c:876-897 | The first parked zone is given up and exactly its pages become free; no live block changes. |
| `Slab.Slab.FreeChunk` | src/slab.c:825-903 | The new zone lists, parked zones, zone headers and free pages after a chunk is freed, with parking and release exactly as the counts say. |
| `Slab.Slab.Free` | src/slab.c:771-904 | Exactly the freed block goes, all others keep size and bytes, and every structural invariant holds again. A zone that becomes entirely free while its class has another zone is parked, or, with two zones parked already, given up with exactly its pages becoming free; otherwise parked zones and free pages stay. A large block gives back exactly its pages. |
| `Slab.Slab.Move` | src/slab.c:700-735 | Null exactly when the allocation fails, which changes nothing; otherwise a new block gets the first min(old, new) bytes and the old one goes. |
| `Slab.Slab.Realloc` | src/slab.c:678-735 | Every result is a live block of at least the new size that begins with the first min(old, new) bytes; no other live block changes. The block stays exactly when it is a chunk and the request has its chunk size. For a live block and a non-zero size null is returned exactly when it does not stay and the allocation fails, and then nothing has changed; a null pointer gives what allocation gives, and size 0 frees. |
| `KconfigExpr.ReadsDecide` | tools/kconfiglib.py:5849-5864 | An evaluation depends only on the symbols it looked at, short-circuiting included: valuations that agree there give the same value and look at the same symbols. |
| `KconfigExpr.OperatorLaws` | tools/kconfiglib.py:5849-5864 | A conjunction is y when both sides are and n when one side is, a disjunction the other way round, and negation exchanges n and y. |
| `KconfigExpr.RelationLaws` | tools/kconfiglib.py:5866-5892 | Relations between typed symbols compare n, m and y as 0, 1 and 2. |
| `KconfigExpr.RelationKinds` | tools/kconfiglib.py:5866-5892 | For any operands, numbers or names, the six relations complement and mirror each other. |
| `KconfigExpr.StrcmpFirst` | tools/kconfiglib.py:6220-6223 | Names compare by their first difference, a proper beginning being less. |
| `KconfigCache.StepDecides` | tools/kconfiglib.py:4307-4384 | The value of a symbol depends only on what computing it reads. |
| `KconfigCache.ScratchIsStep` | tools/kconfiglib.py:4307-4384 | The from-scratch values are the solution of the defining equations of all symbols. |
| `KconfigCache.ValueLaw` | tools/kconfiglib.py:4307-4384 | What the value of a symbol is: never m for a bool; at least what selects it; otherwise the visible user value as far as visibility allows, or the first active default, raised by an implied value when the direct dependencies are not n; m becomes y for a bool or with an implied y. The visibility is at least every prompt condition and, but for promotion, one of them. |
| `KconfigCache.Untouched` | tools/kconfiglib.py:4737-4766 | For symbols whose reads stay among themselves, changing the user value of any other symbol changes neither their values nor what they read. |
| `KconfigCache.PromptlessIgnoresUser` | tools/kconfiglib.py:4768-4788 | The user value of a symbol without a prompt has no effect on any symbol. |
| `KconfigCache.StillCoherent` | tools/kconfiglib.py:4737-4766 | Dropping a set that is closed under `has a cached dependent` is enough for every remaining cached value to be right for the new user values. |
| `KconfigCache.InvalidatedCoherent` | tools/kconfiglib.py:4737-4766 | Invalidation that stops at symbols without a cached visibility reaches far enough. |
| `KconfigCache.PromptlessCoherent` | tools/kconfiglib.py:4768-4788 | Skipping invalidation for a symbol without a prompt leaves every cached value right. |
| `KconfigCache.Kconfig.ExprValue` | tools/kconfiglib.py:5838-5892 | Returns the value of the expression under the from-scratch values, leaves the cache coherent and no smaller, and every symbol it looked at is cached afterwards. |
| `KconfigCache.Kconfig.Visibility` | tools/kconfiglib.py:4396-4402 | Returns the visibility under the from-scratch values, at least every prompt condition and one of them but for promotion, from the cache or computed, and caches what it depends on. |
| `KconfigCache.Kconfig.ComputeVisibility` | tools/kconfiglib.py:6145-6172 | The largest prompt condition, promoted from m to y for a symbol that acts as bool. |
| `KconfigCache.Kconfig.TriValue` | tools/kconfiglib.py:4307-4384 | Returns the from-scratch value of the symbol under the current user values, which obeys the laws of selects, user values, visibility, defaults, implied values and promotion, whatever was cached, and leaves a coherent cache that holds at least as much. |
| `KconfigCache.Kconfig.FirstDefault` | tools/kconfiglib.py:4343-4349 | The loop gives the minimum of value and condition of the first default whose condition is not n. |
| `KconfigCache.Kconfig.MakeDependOn` | tools/kconfiglib.py:6175-6191 | Exactly the symbols of the expression gain the dependent. |
| `KconfigCache.Kconfig.BuildDep` | tools/kconfiglib.py:3354-3413 | Afterwards the dependents of each symbol are exactly the symbols whose properties mention it. |
| `KconfigCache.Kconfig.constructor` | tools/kconfiglib.py:3354-3413 | For any configuration without dependency cycles, whose expressions may mention undefined symbols, the dependents are built, the cache is empty and the invariant holds. |
| `KconfigCache.Kconfig.RecInvalidate` | tools/kconfiglib.py:4737-4766 | It terminates, also with dependents that depend on each other; what it drops includes the symbol, and no dependent of anything dropped has a cached visibility left. |
| `KconfigCache.Kconfig.InvalidateIfPrompted` | tools/kconfiglib.py:4768-4788 | After the user value of a symbol has changed, the remaining cache is coherent with the new user values. |
| `KconfigCache.Kconfig.SetValue` | tools/kconfiglib.py:4430-4517 | Accepts exactly the values of the symbol's type (none for an undefined symbol) or the value it already has, sets it, and keeps every cached value equal to a from-scratch evaluation. |
| `KconfigCache.Kconfig.UnsetValue` | tools/kconfiglib.py:4519-4526 | The user value is gone and every cached value still equals a from-scratch evaluation. |
| `KconfigCache.Kconfig.SetThenRead` | tools/kconfiglib.py:4307-4517 | A read after an assignment gives the from-scratch value for the new user values, for any earlier state of the cache. |
| `KconfigParse.Parser.Check` | tools/kconfiglib.py:2476-2482 | The token is consumed exactly when it is the next one. |
| `KconfigParse.Parser.Expression` | tools/kconfiglib.py:3264-3303 | Advances over exactly the tokens of one disjunction or fails, as `ParseExpr` says, which is the grammar by `KconfigParse.Grammatical`. |
| `KconfigParse.Parser.Conjunction` | tools/kconfiglib.py:3305-3312 | Advances over exactly the tokens of one conjunction, as the grammar gives it, or fails. |
| `KconfigParse.Parser.Factor` | tools/kconfiglib.py:3314-3348 | Advances over one symbol, relation, negation or parenthesised expression, or fails. |
| `KconfigParse.Grammatical` | tools/kconfiglib.py:3260-3348 | For any tokens, the parser succeeds with an expression and a rest exactly when the grammar derives the tokens before the rest, as a tree that stands for the expression and that the rest does not continue. |
| `KconfigParse.ExprComplete` | tools/kconfiglib.py:3260-3303 | Every derivation of the grammar is read, as the expression that it stands for. |
| `KconfigParse.ExprSound` | tools/kconfiglib.py:3260-3303 | Whatever is read has a derivation, which is given. |
| `KconfigParse.AndBeforeOr` | tools/kconfiglib.py:3260-3312 | For any factors, `&&` binds closer than a following disjunction. |
| `KconfigParse.OrAfterAnd` | tools/kconfiglib.py:3260-3312 | For any factors, `&&` binds closer than a disjunction before it. |
| `KconfigParse.NotBeforeAnd` | tools/kconfiglib.py:3305-3348 | Negation binds closer than `&&`, and a relation closer than negation. |
| `KconfigParse.NormalMeaning` | tools/kconfiglib.py:5838-5892 | Associating conjunctions and disjunctions to the right changes no value. |
| `KconfigParse.WholeRead` | tools/kconfiglib.py:5910-5951 | Parsing the printed tokens of an expression gives its right-associated form and stops where the print ends. |
| `KconfigParse.RoundTrip` | tools/kconfiglib.py:5910-5951 | Parsing a printed expression gives one with the same tristate value under every assignment. |
| `KconfigParse.NormalPrint` | tools/kconfiglib.py:6194-6199 | The right-associated form prints as the same tokens, so one round trip reaches a fixed point. |
| `WaitList.Suspend` | src/ipc.c:80-123 | The thread joins the list at its end (FIFO) or before the first less urgent thread (priority). |
| `WaitList.InsertedSorted` | src/ipc.c:92-119 | A priority list stays sorted. |
| `WaitList.InsertedStable` | src/ipc.c:92-119 | Among threads of equal priority, those that came first stay in front; nobody else moves. |
| `WaitList.InsertedLast` | src/ipc.c:88-90 | A FIFO list ends with the new thread, behind all others in their order. |
| `WaitList.SuspendThenTimeout` | src/thread.c:813-835 | A thread that is suspended and times out leaves the list as it was. |
| `WaitList.QueueGives` | src/ipc.c:134-147 | Giving back a unit and resuming the first waiting thread loses no wake-up. |
| `WaitList.QueueTakes` | src/ipc.c:1595-1719 | Taking a unit loses no wake-up, also when a thread that was not resumed for it takes it. |
| `MessageQueue.Conserved` | src/ipc.c:1786-1836 | Free slots, queued slots and slots in flight add up to the pool; each slot in flight is with one thread. |
| `MessageQueue.NoLostWakeUp` | src/ipc.c:1980-2389 | While receivers wait, the messages do not outnumber the receivers resumed and not yet run; likewise free slots and senders. |
| `MessageQueue.LinksAtTail` | src/ipc.c:2097-2111 | Linking a filled slot at the tail keeps the chain, the pointers, the counter and the contents right and appends the message. |
| `MessageQueue.LinksAtHead` | src/ipc.c:2202-2211 | Linking a filled slot at the head does the same and prepends the message. |
| `MessageQueue.TakesMessage` | src/ipc.c:2344-2354 | Unlinking the head hands its slot and contents to the receiver and keeps everything else. |
| `MessageQueue.HeadIffTail` | src/ipc.c:2097-2111 | The head is null exactly when the tail is, and exactly when the counter is zero. |
| `MessageQueue.MessageQueue.constructor` | src/ipc.c:1786-1836 | All slots are on the free chain once, and the queue is empty. |
| `MessageQueue.MessageQueue.SendTry` | src/ipc.c:2007-2088 | A thread, new or resumed, claims the first free slot, or gives up, or joins the waiting senders, exactly as the free list and the timeout say. |
| `MessageQueue.MessageQueue.Send` | src/ipc.c:1980-2088 | Refuses messages that are too long; otherwise as for a thread that tries to claim a slot. |
| `MessageQueue.MessageQueue.Urgent` | src/ipc.c:2160-2194 | Claims a slot for the front of the queue, or reports a long message or a full queue; it never waits. |
| `MessageQueue.MessageQueue.Fill` | src/ipc.c:2090-2093 | The copy outside the critical section disturbs nobody: every other thread may act before and after it. |
| `MessageQueue.MessageQueue.LinkAtTail` | src/ipc.c:2095-2129 | At link time the message is appended to the deque of sent messages and the first waiting receiver is resumed. |
| `MessageQueue.MessageQueue.LinkAtHead` | src/ipc.c:2199-2229 | At link time the message is prepended to the deque and the first waiting receiver is resumed. |
| `MessageQueue.MessageQueue.Receive` | src/ipc.c:2267-2357 | A thread, new or resumed, takes the front message of the deque, or gives up, or joins the waiting receivers. |
| `MessageQueue.MessageQueue.TakeMessage` | src/ipc.c:2344-2354 | The fields after the unlinking are exactly the state that `TakesMessage` is about. |
| `MessageQueue.MessageQueue.CopyOut` | src/ipc.c:2359-2360 | The buffer gets the message that was at the front when it was taken, up to the shorter of the two lengths, whatever happened in between. |
| `MessageQueue.MessageQueue.Release` | src/ipc.c:2362-2388 | The slot becomes the first free slot and the first waiting sender is resumed. |
| `MessageQueue.MessageQueue.Timeout` | src/thread.c:813-835 | The thread leaves the waiting list and fails; nothing else changes. |
| `MessageQueue.MessageQueue.Reset` | src/ipc.c:2402-2450 | Every waiting thread fails, the deque becomes empty, and slots claimed or held by threads are not touched. |
| `Mutex.OwnerMostUrgent` | src/ipc.c:721-733 | In every reachable state waiting threads imply an owner, and the owner is at least as urgent as each of them. |
| `Mutex.HoldTells` | src/ipc.c:681-701 | `value` is 1 exactly when there is no owner; `hold` is 0 exactly when there is no owner if and only if the nesting depth is 0 or no multiple of 256, because the counter has eight bits. |
| `Mutex.HandedOffGood` | src/ipc.c:831-871 | Giving up the mutex, with or without waiting threads, restores the owner's priority and re-establishes the invariant. |
| `Mutex.HandedToMostUrgent` | src/ipc.c:833-861 | The releasing thread is back at its base priority, nobody else's changes, and the thread that gets the mutex is as urgent as any that waits. |
| `Mutex.Mutex.constructor` | src/ipc.c:530-550 | The mutex is free and every thread has its base priority. |
| `Mutex.Mutex.Take` | src/ipc.c:654-779 | Taken exactly when free or already owned; otherwise the thread gives up or joins the sorted waiting list, and the owner's priority becomes the minimum of its own and the thread's. |
| `Mutex.Mutex.Release` | src/ipc.c:790-881 | Only the owner can release; the mutex is given up exactly when the depth was one more than a multiple of 256, to the most urgent waiting thread, with the releasing thread back at its base priority. |
| `Mutex.Mutex.Timeout` | src/thread.c:813-835 | A thread that times out leaves the list; the owner stays at least as urgent as every thread that still waits. |
| `Mutex.Mutex.Nest` | src/ipc.c:654-881 | Nested takes and as many releases: the mutex is lost before the last release exactly when the nesting is deeper than 256. |
| `Event.ServeUnsatisfied` | src/ipc.c:1054-1101 | After all waiting threads were served in order, none that stays is satisfied by what is left, also when a later one has cleared events. |
| `Event.Needs` | src/ipc.c:1063-1084 | With the AND flag a receiver needs all the events that it wants, otherwise one of them. |
| `Event.Leaves` | src/ipc.c:1090-1092 | With the CLEAR flag exactly the events that are not wanted are left, otherwise all. |
| `Event.ServesFirst` | src/ipc.c:1054-1101 | The first waiting thread that the events satisfy is served first, and those after it with what it has left. |
| `Event.ServeExclusive` | src/ipc.c:1054-1101 | An event that one thread has cleared is not received by any after it, and nobody receives an event that was not there. |
| `Event.ClearsSame` | src/ipc.c:1090-1092 | Clearing the received events in send is clearing the wanted ones, as an immediate receive does. |
| `Event.Grant` | src/ipc.c:1063-1099 | The test in the send loop, the received mask and the set left over are those of an immediate receive. |
| `Event.Event.constructor` | src/ipc.c:915-933 | No events and no waiting threads. |
| `Event.Event.Send` | src/ipc.c:1029-1111 | Adds the events and then gives every waiting thread, in list order, what an immediate receive would: same threads resumed, same masks, same set left. No thread that stays is satisfied. |
| `Event.Event.Recv` | src/ipc.c:1127-1242 | Receives at once exactly when the condition holds, else gives up or waits; the set and the list change accordingly. |
| `Event.Event.Timeout` | src/thread.c:813-835 | The thread leaves the list and nobody who stays is satisfied. |
| `Mailbox.RingPut` | src/ipc.c:1540-1545 | Storing at the input offset and advancing it with wrap-around appends to the mails in the ring. |
| `Mailbox.RingTake` | src/ipc.c:1688-1694 | The output offset is at the oldest mail, and advancing it removes that mail. |
| `Mailbox.Mailbox.constructor` | src/ipc.c:1299-1327 | An empty mailbox of the given size. |
| `Mailbox.Mailbox.Send` | src/ipc.c:1447-1566 | Stored as the newest mail exactly when there is room, and then the first waiting receiver is resumed; otherwise full or waiting. No wake-up is lost. |
| `Mailbox.Mailbox.Recv` | src/ipc.c:1595-1719 | The oldest mail exactly when there is one, and then the first waiting sender is resumed; otherwise empty or waiting. No wake-up is lost. |
| `Mailbox.Mailbox.Timeout` | src/thread.c:813-835 | The thread leaves its list and fails; nothing else changes. |
| `Mailbox.Mailbox.Reset` | src/ipc.c:1731-1763 | No mails and nobody on a list; exactly the waiting threads fail. |
| `Mailbox.Mailbox.NoLostWakeUp` | src/ipc.c:1447-1763 | In every reachable state: while a thread waits to receive, the mails do not outnumber the threads resumed to receive and not yet run, and with none of these the mailbox is empty; likewise senders and free places, and with none resumed it is full. |
| `Mailbox.Mailbox.SendThenReceive` | src/ipc.c:1447-1719 | A mail put behind others comes out after them, whoever waits: the mails received until the mailbox is empty are the mails sent, in order. |
| `MemPool.Conserved` | src/mempool.c:77-124 | Free and allocated blocks add up to the pool. |
| `MemPool.MemPool.constructor` | src/mempool.c:77-124 | All blocks are on the free chain once. The words written are exactly those of `MemPool.Stored`, and all of them lie in the pool exactly when a rounded-up block with its word is not larger than the rounded-down pool, or pool and block together reach the size of the address space. |
| `MemPool.MemPool.LinkAll` | src/mempool.c:108-122 | The initialisation loop builds a chain through every block of the pool that ends; it writes to the first word of every block and to one stride before the place that it has reached, and nowhere else. |
| `MemPool.StoresInside` | src/mempool.c:108-120 | For all sizes and alignments: every address that initialisation computes lies in the pool exactly when a block fits, or the address wraps around into the pool because pool and block together reach the size of the address space. |
| `MemPool.StoreAtFront` | src/mempool.c:119-120 | Without a block, the unsigned index of the last block is the largest number, and the end mark goes to one stride in front of the pool. |
| `MemPool.EightBytes` | src/mempool.c:92-120 | With blocks of 8 bytes in 8 bytes and pointers of 4, the only word written is the end mark, 12 bytes in front of the pool. |
| `MemPool.BlocksApart` | src/mempool.c:92-122 | The bytes of a block lie in the pool and share none with another block or with the word in front of it. |
| `MemPool.MemPool.Alloc` | src/mempool.c:303-391 | A free block exactly when there is one, marked as allocated; otherwise none, or the thread waits at the front of the list. No wake-up is lost. |
| `MemPool.MemPool.Free` | src/mempool.c:399-449 | The block is the first free block again and the first waiting thread is resumed. |
| `MemPool.MemPool.Timeout` | src/thread.c:813-835 | The thread leaves the list and fails; nothing else changes. |
| `MemPool.MemPool.NoLostWakeUp` | src/mempool.c:303-449 | In every reachable state: while a thread waits, the free blocks do not outnumber the threads resumed and not yet run, and with none of these no block is free. |
| `Timer.LaterAgrees` | src/timer.c:368-375 | The wrap-around test of insertion agrees with the order of the deadlines exactly when they lie within the half-range window. |
| `Timer.ExpiredAgrees` | src/timer.c:538 | The wrap-around test of the expiry loop agrees with the passing of the deadline exactly within the same window. |
| `Timer.LatestStart` | src/timer.c:305-375 | The 32-bit test orders a new timer against all pending ones exactly while none of them is overdue by more than 0x80000001 ticks less its initial tick. |
| `Timer.ThreeTicksLate` | src/timer.c:368-375 | Beside a timer with the longest initial tick that is allowed, a pending timer may be overdue by at most three ticks; with four, the 32-bit test takes the earlier deadline for the later one. |
| `Timer.RowSorted` | src/timer.c:351-400 | Every row of the skip list is sorted, without repetition and a subsequence of the row below. |
| `Timer.TallInserted` | src/timer.c:388-400 | Inserting a timer of some height after all earlier-or-equal deadlines of each row is inserting it in the bottom row: rows stay the bottom row filtered by height. |
| `Timer.TallRemoved` | src/timer.c:130-138 | Unlinking a timer from each row is removing it from the bottom row. |
| `Timer.RowTests` | src/timer.c:368-375 | In every row the 32-bit test tells exactly which pending timers are due later than the new one. |
| `Timer.InsertedSorted` | src/timer.c:351-389 | The row stays sorted when a timer goes behind all that are due no later. |
| `Timer.TimerList.constructor` | src/timer.c:701-709 | Rows without timers. |
| `Timer.TimerList.Unlink` | src/timer.c:130-138 | The timer leaves every row and the order of the others stays. |
| `Timer.TimerList.SearchRow` | src/timer.c:354-376 | From any place not behind a later deadline, the search stops right after all timers of the row due no later than the new one. |
| `Timer.TimerList.Search` | src/timer.c:351-379 | Going on in each row from where the row above stopped finds that place in all rows. |
| `Timer.TimerList.Link` | src/timer.c:385-400 | The new timer enters the bottom row after all earlier-or-equal deadlines and some rows above, which stay in step. |
| `Timer.TimerList.Start` | src/timer.c:305-421 | A timer, pending or not, comes after all other pending timers due no later than it, for any number of rows, when its initial tick is below half the range and every other pending timer lies in the window of its deadline. |
| `Timer.TimerList.Stop` | src/timer.c:431-456 | Succeeds exactly for a pending timer, which leaves the list. |
| `Timer.TimerList.NextTimeout` | src/timer.c:108-128 | The deadline that no pending timer precedes, or the largest tick. |
| `Timer.TimerList.Tick` | src/clock.c:68-100 | The tick counter wraps around and the list stays valid, as long as no pending timer gets overdue by half the range. |
| `Timer.TimerList.Check` | src/timer.c:516-575 | It terminates and fires exactly the timers whose deadline has passed, once each, by deadline and for equal deadlines in the order in which they were started; the new list is stated: the later timers, into which the periodic ones that fired have been started again one after the other; every deadline left is after the current tick. |
| `Bits.FfsIsLowest` | src/kservice.c:1286-1330 | For every non-zero 32-bit word the table look-up gives one more than the index of the lowest bit that is set. |
| `Bits.BitOfSet` | src/scheduler.c:708-742 | Setting a bit changes that bit only. |
| `Bits.BitOfClear` | src/scheduler.c:805-835 | Clearing a bit changes that bit only. |
| `Scheduler.IndexSet` | src/scheduler.c:733-737 | With more than 32 priorities: when a list becomes non-empty, setting its bit and the group bit keeps table and group in agreement with all lists. |
| `Scheduler.IndexClear` | src/scheduler.c:820-831 | With more than 32 priorities: when a list becomes empty, clearing its bit, and the group bit if the table entry is now zero, keeps them in agreement. |
| `Scheduler.OneLevelSet` | src/scheduler.c:733-737 | With at most 32 priorities: when a list becomes non-empty, setting its bit of the group keeps the group in agreement with all lists. |
| `Scheduler.OneLevelClear` | src/scheduler.c:820-831 | With at most 32 priorities: when a list becomes empty, clearing its bit of the group keeps the group in agreement. |
| `Scheduler.HighestIsMinimal` | src/scheduler.c:170-171 | With more than 32 priorities the double look-up gives the smallest priority whose list is not empty. |
| `Scheduler.OneLevelHighest` | src/scheduler.c:173 | With at most 32 priorities the single look-up gives the smallest priority whose list is not empty. |
| `Scheduler.GroupZero` | src/scheduler.c:432 | The group is zero exactly when no thread is ready. |
| `Scheduler.SwitchedOk` | src/scheduler.c:437-471 | After the switch exactly one thread runs and it is at least as urgent as every ready one. |
| `Scheduler.SwitchMoves` | src/scheduler.c:449-471 | In a switch the new thread leaves the front of its list, a thread that was running goes to the end of its own without its yield flag, and nobody else moves. |
| `Scheduler.YieldRotates` | src/scheduler.c:449-471 | A running thread with its yield flag set goes from running to the end of the list of its priority, whose head takes over. |
| `Scheduler.Scheduler.constructor` | src/scheduler.c:246-270 | For any number of priorities from 1 to 256, the idle thread runs, no list has a thread and no bit is set. |
| `Scheduler.Scheduler.Create` | src/thread.c:115-209 | A thread that is not started is on no list. |
| `Scheduler.Scheduler.Insert` | src/scheduler.c:708-742 | The thread is ready, at the end of the list of its priority, and the index agrees. |
| `Scheduler.Scheduler.Remove` | src/scheduler.c:805-835 | The thread leaves the list of its priority, and the index agrees. |
| `Scheduler.Scheduler.GetHighest` | src/scheduler.c:162-184 | The first of the most urgent ready threads, and its priority, with either form of the bitmap. |
| `Scheduler.Scheduler.Schedule` | src/scheduler.c:418-538 | Unlocked, afterwards the current thread runs and no ready thread is more urgent; it stays exactly when it was running and more urgent than all ready threads, or as urgent and not yielding; otherwise states and lists are exactly those after the switch, in which no thread is lost or duplicated. Locked, nothing changes. |
| `Scheduler.Scheduler.SwitchTo` | src/scheduler.c:456-471 | States and lists after a switch from the current thread to the head of a list. |
| `Scheduler.Scheduler.Resume` | src/thread.c:770-804 | Exactly a suspended thread is resumed, to the end of its list; the current thread, resumed before the switch, runs on. |
| `Scheduler.Scheduler.Startup` | src/thread.c:289-321 | The thread is at its initial priority, ready at the end of that list, and then one scheduling takes place. |
| `Scheduler.Scheduler.SuspendThread` | src/thread.c:721-760 | Exactly a ready or running thread is suspended and leaves its list. |
| `Scheduler.Scheduler.Timeout` | src/thread.c:813-835 | The thread is ready at the end of its list, and then one scheduling takes place. |
| `Scheduler.Scheduler.ChangePriority` | src/thread.c:626-677 | A ready thread moves to the end of the list of its new priority; any other keeps its state; the index agrees. |
| `Scheduler.Scheduler.Delete` | src/thread.c:434-468 | The thread is closed and on no list; nobody else changes. |
| `Scheduler.Scheduler.SliceEnds` | src/clock.c:83-96 | With the yield flag set one scheduling takes place; the thread keeps running only if it is more urgent than every ready thread. |
| `StackUsage.Analysis.ResolveCalls` | tools/WCS.py:224-233 | The calls that lead to an entry of the global table or, failing that, of the static functions of the unit, and exactly the names that are in neither. |
| `StackUsage.CallsByTables` | tools/WCS.py:87-100 | A function calls exactly the functions that its names lead to, the global one of that name or else the static one of its unit, and its unresolved names are exactly those in neither table. |
| `StackUsage.WeightParts` | tools/WCS.py:269-290 | The weight of a chain of calls is the sum of the stack use of its functions. |
| `StackUsage.Analysis.ResolveAll` | tools/WCS.py:223-242 | Every function has its resolved calls and its own unresolved names. |
| `StackUsage.Analysis.constructor` | tools/WCS.py:182-200 | Exactly the manual entries start with a result, the stack use they were given. |
| `StackUsage.RecursionEndless` | tools/WCS.py:264-267 | A function met again among the functions under analysis lies on a cycle of calls. |
| `StackUsage.PathBounded` | tools/WCS.py:269-290 | No chain of calls from a bounded function repeats a function, ends in a pointer call or outweighs the result. |
| `StackUsage.PathAttained` | tools/WCS.py:269-290 | Some chain of calls from a bounded function weighs exactly the result. |
| `StackUsage.NamesReached` | tools/WCS.py:286-288 | The unresolved names of a bounded function are exactly those of the functions it can reach. |
| `StackUsage.Analysis.CalcWcs` | tools/WCS.py:246-290 | The search terminates for any call graph, gives the function a result and keeps what was known. |
| `StackUsage.Analysis.CalcAll` | tools/WCS.py:245-299 | Every function gets a result: unbounded exactly when a chain of calls from it can reach a pointer call or repeat a function, otherwise the largest weight of a chain of calls, which some chain attains. |

## Left out

Heaps:

- Heap locks, hooks, magic words, assertions on them, debug output and thread names in headers.
- The width of the offset and size fields: requests are taken not to overflow when they are rounded up, and `src/mem.c` is taken to have at least `MIN_SIZE_ALIGNED` bytes, without which its search bound underflows.
- `heap_end->prev` in `src/mem.c`, which is never read and not kept up to date.
- `rt_calloc`, the system-heap wrappers over several memheaps, and the statistics printers.
- Copying by words in `rt_memcpy`; the model copies byte by byte, as the tiny variant does.
- Failure of the heap lock in `src/memheap.c`, which makes an operation return without effect.
- The single C functions appear as several methods, one for each part, called in the order of the source.
- Slab.Slab.Malloc: the bytes of free pages are unknown, because the page allocator keeps its links there; the size of the zone header is a parameter between 1 and 128.
- The links between zones, between free chunks and between page runs are sequences here, so aliasing of these links is not part of the model; the ring and memheap modules model links as such.
- Memory statistics of the slab allocator.

Scheduling and timers:

- The SMP variants, context switches, stack checks and signals.
- `number`, `number_mask` and `high_mask` of a thread: they are computed from its current priority where they are used.
- Ready lists and timer rows are sequences; pointers into them are positions.
- Scheduler.Scheduler.Delete: a thread that waits on an IPC object when it is deleted is not taken off the list of that object.
- `rt_thread_yield`, `rt_thread_delay_until` and the object registry.
- Bits.FfsIsLowest: words are natural numbers below 2 to the 32nd, and the table is kept as its first row and first column, since the entry of a byte depends on one nibble.
- Timer.TimerList.Check: timeout functions do not start or stop timers; pending periodic timers have a period of at least one tick, and when one is started again every other pending timer lies in the window of its new deadline, outside of which the 32-bit test is wrong (Timer.LaterAgrees).
- Timer.TimerList.Start: the initial tick is below half the range, as the source asserts, and every other pending timer lies in the window of the new deadline.
- Timer.TimerList.Tick: timers are checked before any is overdue by half the range.
- Soft timers and the timer thread.

IPC:

- Creation by name, deletion and detaching of objects, semaphores, and `bin_channel_*`.
- Deletion of threads and signals while a thread waits; the retry of `rt_mutex_take` after a signal.
- Mutex.Mutex.Take: one mutex with `RT_IPC_FLAG_PRIO`, no priority changes from outside; with a FIFO list or several mutexes priority inheritance does not hold.
- Remaining time is not counted down; a step is told whether its timeout is zero.
- Where a thread is in the code is the map `phase` of the message queue and the map `doing` of mailbox and memory pool; mutex and event keep only their waiting lists.
- MemPool.MemPool.constructor: the size of a rounded-up block with its word is below that of the address space, and the pool does not reach beyond its end.
- Contents of pool blocks and mail values are not interpreted.

Build tools:

- KconfigCache.Kconfig.SetValue: choices, symbols of other types, a change of MODULES, and the string and assignable caches are left out; dependencies are acyclic, as the parser checks.
- Symbols of type string, int or hex. In relations, a constant or an undefined symbol counts as its name, and the number that `int()` makes of the name, if any, is a parameter.
- Warnings, `_write_to_conf` and `_was_set`.
- KconfigParse.RoundTrip: on tokens, not characters, and without the rewriting of `m`.
- File parsing, preprocessor and `.config` files.
- StackUsage.Analysis.CalcWcs: the test whether a function is under analysis compares dictionaries by value in the script; two functions are the same here when they are the same entry.
- Reading object, RTL and stack-usage files, demangling and printing in `tools/WCS.py`.
