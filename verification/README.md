# RT-Thread kernel: a verified model

RT-Thread is a real-time kernel written in C. This project models the parts of it that
carry the hardest promises and proves them:

- the three **heap allocators**: the boundary-tag heap of `mem.c`, the ring-and-free-list
  heap of `memheap.c`, and the slab allocator of `slab.c` with its page allocator;
- the **IPC objects** of `ipc.c` and `mempool.c`: semaphore, mutex with priority inheritance,
  event, mailbox, message queue and memory pool, each as a step system whose steps are the
  regions the kernel runs with interrupts disabled;
- the **scheduler** of `scheduler.c` with its two-level bitmap index and both versions of
  `__rt_ffs`;
- the bounded **formatter** and the **aligned allocation** of `kservice.c`, and the
  scatter/gather loops of the Ethernet driver.

## How it is built

Each component has a *specification module* (`…Spec`), made of values: the state, one
function for every operation, an invariant, and the theorems about them: what each operation
delivers, that every step keeps the invariant, and what follows for whole runs. Beside it
stands a *class* that follows the C code store by store (headers in memory, links between
nodes, bitmaps, ring buffers, loops) and whose methods are proved to have exactly the effect of
the specification's functions. What each call comes to is stated once more without the functions
that specify it, in terms of the state it finds and leaves (`SmallMemSpec.AllocExactly`,
`MsgQueueSpec.RunIsDeque`, `MutexSpec.TakeComesTo`, `SchedulerSpec.ScheduleChooses` and the like).
`hide` statements keep definitions out of proofs that do not need them.

- `Memory`, `Blocks`, `Layout`: memory in which writing a header destroys the bytes and headers it
  overlaps, and sequences of blocks that tile a heap. Both boundary-tag heaps are built on these.
- `Lists`, `WaitList`, `Lobby`: lists without duplicates, `_ipc_list_suspend`, and threads that
  wait at the two sides of an object.
- A blocking call is split where the kernel switches threads away. A thread that is woken is
  `Woken` until it runs again; a timeout may strike any suspended thread at any moment.

## Findings

Where the code does not do what its documentation or its neighbours suggest, the code is kept
and the exact condition is proved.

- `rt_memheap_alloc` refuses a request that fits exactly when the only free block has exactly the
  clamped size (`MemHeapSpec.AllocRefusesFit`): `memheap.c:202` compares with `<`. A fresh pool
  asked for its one free item is such a case (`MemHeapSpec.FreshPoolRefused`).
- `rt_smem_realloc` may refuse a *smaller* size: a block that shrinks by too little to leave room for
  a remainder must move (`SmallMemSpec.ReallocFails`, with instances in
  `SmallMemSpec.SmallerRefused`).
- Nested mutexes break priority inheritance. A step keeps it at every mutex if and only if its guard
  holds (`Inheritance.StepInheritsIff`, and for runs `Inheritance.RunInheritsIff`): a take that
  boosts an owner which itself waits needs room in front of that owner, because `ipc.c:985-1002`
  boosts the direct owner only; a last release must not restore a priority below that of a waiter of
  another mutex its caller owns. `Inheritance.ChainBreaksInheritance` is a failing run of takes,
  `MutexSpec.NestedUseBreaksInheritance` one with a release.
- A thread is back at its own priority after a last release if and only if it was running at it when it
  acquired the mutex (`MutexSpec.ReleaseRestoresIff`); `MutexSpec.OutOfOrderStaysLent` is a run in
  which it is not.
- `rt_mutex_release` calls `rt_schedule` only after waking a waiter. It leaves the running thread at
  least as urgent as every ready one if and only if somebody waited or nobody ready is more urgent
  than the priority restored (`MutexScheduling.ReleaseLeavesMostUrgentIff`); after a waiter has
  timed out that may fail (`MutexScheduling.ReleaseKeepsRunningBelowReady`).
- Of the mutex overflow returns only the one of a recursive take is reachable, exactly when the owner
  takes again at the hold limit (`MutexSpec.OnlyRecursionOverflows`,
  `MutexSpec.RecursionDoesOverflow`); those of the message queue are unreachable
  (`MsgQueueSpec.NoOverflow`).
- `rt_malloc_align` honours an alignment for every block if and only if it is a power of two
  (`MallocAlign.AlignedIffPowerOfTwo`, with `MallocAlign.TwentyFourIsMissed`), and the mask of
  `RT_ALIGN` rounds up to a multiple if and only if the alignment is one
  (`MallocAlign.RtAlignIffPowerOfTwo`).
- `print_number` divides by 16 for every base but 10, so `%o` is right if and only if its argument
  is below 8 (`PrintfSpec.OctalIffBelowEight`); 8 is printed as "8"
  (`PrintfSpec.EightPrintsEight`).
- A field width cuts strings: without a precision a string is printed whole if and only if it has no
  width or is not longer than it (`PrintfSpec.StringWholeIff`), because `kservice.c:993` stops at the
  width; `%2s` prints two characters of "abc" (`PrintfSpec.WidthCuts`).
- With precision 0 `print_number` prints no digits of any number, yet counts them in the field: the
  output denotes the number if and only if it is zero (`PrintfSpec.PrecisionZeroIffZero`), and the
  field is filled if and only if the precision is not 0 or sign and prefix fill it
  (`PrintfSpec.FieldFilledIff`).
- Threads that wait for a memory pool block are served last come, first served
  (`MemPoolSpec.LastComeFirstServed`), because `mempool.c:354` inserts at the front. A run serves in
  the order of arrival if and only if no two threads are suspended whenever a block is given back
  (`MemPoolSpec.InOrderIffAlone`); in `MemPoolSpec.SecondServedFirst` the second of two is first.

## Model

| member | source | states |
|---|---|---|
| `Alignment.Align` | rt-thread/include/rtdef.h:329 | the aligned size is the least multiple of the alignment that is not smaller |
| `Alignment.AlignIsMacro` | rt-thread/include/rtdef.h:329 | counting up in steps of the alignment agrees with rounding up by division, for every alignment |
| `MallocAlign.RtAlignIffPowerOfTwo` | rt-thread/include/rtdef.h:329 | the bit mask of the macro agrees with that rounding for every size if and only if the alignment is a power of two |
| `Blocks.PlugHolesRestores` | rt-thread/src/mem.c:125-163 | coalescing around a block just freed restores "no two neighbours are free" whatever its neighbours are, moves no used block and keeps the charge |
| `Blocks.LivePayloads` | rt-thread/src/mem.c:360-403 | live payloads are aligned, lie inside the heap behind a header, and do not overlap |
| `Blocks.LayoutDetermined` | rt-thread/src/mem.c:125-163 | two well-formed heaps with the same used blocks are laid out identically, so no history of calls leaves a trace |
| `SmallMemSpec.FirstFitLowest` | rt-thread/src/mem.c:313-319 | the scan finds the lowest free block that fits, and none exactly when none fits |
| `SmallMemSpec.AllocDelivers` | rt-thread/src/mem.c:279-404 | null exactly when no free block fits (and then nothing changes); otherwise an aligned block, the lowest that fits, new and large enough, with every live block kept |
| `SmallMemSpec.FreeDelivers` | rt-thread/src/mem.c:512-556 | exactly the freed block dies, its bytes leave the charge, neighbours coalesce, the high-water mark stays |
| `SmallMemSpec.ReallocDelivers` | rt-thread/src/mem.c:418-503 | a successful resize trades the block for one large enough and leaves the others; a failed one changes nothing; size 0 frees |
| `SmallMemSpec.ReallocFails` | rt-thread/src/mem.c:418-503 | a nonzero resize returns null if and only if the size is beyond the heap, or the block must move and no free block fits |
| `SmallMemSpec.AllocExactly` | rt-thread/src/mem.c:279-404 | to the byte: with the request and the least size rounded up, what is handed out is the lowest free block with room, cut at the request if a header and the least size fit behind it and whole if not; null exactly for 0 bytes or when no free block has room |
| `SmallMemSpec.ReallocExactly` | rt-thread/src/mem.c:418-503 | to the byte: null beyond the heap; an exact fit stays; a block with a header and more than the least size behind the new size is cut there, in place; every other one is allocated anew and freed |
| `SmallMemSpec.ReallocEdges` | rt-thread/src/mem.c:430-447 | without a pointer a resize allocates, and to 0 bytes it frees and returns null |
| `SmallMemSpec.SmallerRefused` | rt-thread/src/mem.c:455-500 | a heap taken up by one block refuses every smaller size that leaves no room for a remainder |
| `SmallMemSpec.WholeHeapTaken` | rt-thread/src/mem.c:279-404 | and a fresh heap asked for its whole size is such a heap |
| `SmallMemSpec.FreeUndoesAlloc` | rt-thread/src/mem.c:279-556 | allocate then free is the identity on the layout |
| `SmallMemSpec.FreesCommute` | rt-thread/src/mem.c:512-556 | the order of two frees does not matter |
| `SmallMemSpec.AllFreed` | rt-thread/src/mem.c:125-163 | a heap without used blocks is one single free block with nothing charged |
| `SmallMemSpec.StepKeepsInv` | rt-thread/src/mem.c:279-556 | every legal call keeps tiling, alignment and coalescing |
| `SmallMemSpec.RunKeepsInv` | rt-thread/src/mem.c:279-556 | the same in every state of every run from initialisation |
| `SmallMemSpec.RunFreesAll` | rt-thread/src/mem.c:512-556 | a run of any length that has freed everything, in any order, ends in the initial layout |
| `SmallMemSpec.MaxIsHighWater` | rt-thread/src/mem.c:355-370 | `max` is the greatest charge any moment of the run has reached, the moment when a moving realloc holds both blocks included |
| `SmallMem.SmallHeap.constructor` | rt-thread/src/mem.c:178-242 | the headers written tie to the empty heap |
| `SmallMem.SmallHeap.Alloc` | rt-thread/src/mem.c:279-404 | scanning from `lfree` and stopping at `mem_size_aligned - size` terminates and has exactly the specified outcome; headers, `prev` links, `lfree`, `used`, `max` stay tied to the blocks; no used payload byte changes |
| `SmallMem.SmallHeap.Occupy` | rt-thread/src/mem.c:320-391 | handing out the block found, split or whole, with the charge, the high-water mark and `lfree` that belong to it |
| `SmallMem.SmallHeap.Splice` | rt-thread/src/mem.c:338-354 | the header stores of a split, which never write the `prev` of the end stub |
| `SmallMem.SmallHeap.NextFree` | rt-thread/src/mem.c:381-391 | the `lfree` loop stops at the lowest free block or the end stub |
| `SmallMem.SmallHeap.Free` | rt-thread/src/mem.c:512-556 | the stores have exactly the specified outcome and keep every other client's bytes |
| `SmallMem.SmallHeap.Plug` | rt-thread/src/mem.c:125-163 | the header stores of both merges, and `lfree` moved off a header that disappears |
| `SmallMem.SmallHeap.Fuse` | rt-thread/src/mem.c:133-162 | the stores of one merge join exactly two blocks and keep every used payload |
| `SmallMem.SmallHeap.Realloc` | rt-thread/src/mem.c:418-503 | specified outcome; the first min(old, new) bytes are in the block returned; the bytes of all other blocks are kept |
| `SmallMem.SmallHeap.ShrinkAt` | rt-thread/src/mem.c:464-491 | the shrinking branch in place keeps the bytes that remain |
| `SmallMem.SmallHeap.Move` | rt-thread/src/mem.c:494-502 | allocate, copy, free: the bytes copied arrive, and all others' survive both calls |
| `SmallMem.SmallHeap.ClientWrite` | rt-thread/src/mem.c:403 | a client's store into its own block disturbs no header and nobody else's bytes |
| `MemHeapSpec.InitKeeps` | rt-thread/src/memheap.c:74-150 | the fresh pool satisfies the invariant with everything available |
| `MemHeapSpec.FirstListedFits` | rt-thread/src/memheap.c:216-230 | the free-list walk comes to its end exactly when no free item fits |
| `MemHeapSpec.AllocDelivers` | rt-thread/src/memheap.c:183-346 | refused exactly when the request is not below the available size or nothing fits; otherwise a new, aligned, large enough item and nothing else changed |
| `MemHeapSpec.AllocRefusesFit` | rt-thread/src/memheap.c:202 | a request that fits is refused if and only if the only free item has exactly its size |
| `MemHeapSpec.FreshPoolRefused` | rt-thread/src/memheap.c:202 | a fresh pool refuses a request for its one free item, although that fits |
| `MemHeapSpec.FreeDelivers` | rt-thread/src/memheap.c:597-724 | exactly the freed item dies; its payload and one header for each free neighbour become available |
| `MemHeapSpec.ReallocDelivers` | rt-thread/src/memheap.c:361-588 | the pointer stays unless the item must move; a successful resize trades the item for one large enough, a failed one changes nothing |
| `MemHeapSpec.ReallocFails` | rt-thread/src/memheap.c:361-588 | a nonzero resize returns null if and only if the item must move, and the request is not below the available size or fits no free item |
| `MemHeapSpec.AllocExactly` | rt-thread/src/memheap.c:183-346 | to the byte: the first item on the free list with room is taken off it and cut at the request if a header and the least allocation fit behind it, the rest being listed first |
| `MemHeapSpec.FreeExactly` | rt-thread/src/memheap.c:597-724 | the item freed is listed first, unless it became part of a free left neighbour, and a free right neighbour is listed no more; the others keep their order |
| `MemHeapSpec.ReallocExactly` | rt-thread/src/memheap.c:361-588 | to the byte: when an item stays, is cut, grows into its right neighbour, or is allocated anew and freed, and what the free list is afterwards |
| `MemHeapSpec.ReallocEdges` | rt-thread/src/memheap.c:371-385 | without a pointer a resize allocates, and to 0 bytes it frees and returns null |
| `MemHeapSpec.PoolConserved` | rt-thread/src/memheap.c:116-139 | used bytes, `available_size` and the free headers always add up to the pool |
| `MemHeapSpec.StepKeepsInv` | rt-thread/src/memheap.c:183-724 | every legal call keeps: the items tile the pool, no two free neighbours, the free list names exactly the free items |
| `MemHeapSpec.RunKeepsInv` | rt-thread/src/memheap.c:183-724 | the same in every state of every run |
| `MemHeapSpec.RunFreesAll` | rt-thread/src/memheap.c:597-724 | a run that has freed everything ends with one free item, listed alone |
| `MemHeapSpec.MaxIsHighWater` | rt-thread/src/memheap.c:282-294 | `max_used_size` is the high-water mark of the pool in use over the whole run |
| `MemHeap.MemoryHeap.constructor` | rt-thread/src/memheap.c:74-150 | ring, tail item and free list as initialised |
| `MemHeap.MemoryHeap.Alloc` | rt-thread/src/memheap.c:183-346 | list walk, split and unlinking have exactly the specified outcome and keep every used payload |
| `MemHeap.MemoryHeap.Occupy` | rt-thread/src/memheap.c:232-325 | handing out the item found, split or whole, with the free list and the counters that belong to it |
| `MemHeap.MemoryHeap.Split` | rt-thread/src/memheap.c:246-265 | the ring stores of a split put one new item behind the front part and keep all payloads |
| `MemHeap.MemoryHeap.Free` | rt-thread/src/memheap.c:597-724 | merging left and right on the ring and on the free list has exactly the specified outcome |
| `MemHeap.MemoryHeap.Realloc` | rt-thread/src/memheap.c:361-588 | specified outcome; the first min(old, new) bytes survive; all others' bytes are kept |
| `MemHeap.MemoryHeap.GrowAt` | rt-thread/src/memheap.c:392-486 | growing into the right neighbour in place keeps the bytes |
| `MemHeap.MemoryHeap.ShrinkAt` | rt-thread/src/memheap.c:504-588 | shrinking in place, with the tail joined to a free right neighbour |
| `MemHeap.MemoryHeap.Move` | rt-thread/src/memheap.c:494-502 | allocate, copy, free: the bytes copied arrive, and all others' survive both calls |
| `MemHeap.MemoryHeap.MergeLeft` | rt-thread/src/memheap.c:650-668 | whether the item was swallowed by a free left neighbour, and which header remains |
| `MemHeap.MemoryHeap.MergeRight` | rt-thread/src/memheap.c:670-689 | a free right neighbour is unlisted and swallowed |
| `MemHeap.MemoryHeap.Merge` | rt-thread/src/memheap.c:660-684 | the two ring stores join exactly two items and keep every used payload |
| `MemHeap.MemoryHeap.Link` | rt-thread/src/memheap.c:273-277 | inserting behind the list head puts the item first, in memory too |
| `MemHeap.MemoryHeap.Unlink` | rt-thread/src/memheap.c:267-271 | the two link stores remove exactly that item |
| `MemHeap.MemoryHeap.ClientWrite` | rt-thread/src/memheap.c:335-338 | a client's store into its own block disturbs neither headers nor others' bytes |
| `SlabPagesSpec.CanonicalUnique` | rt-thread/src/slab.c:252-294 | the set of free pages determines the run list |
| `SlabPagesSpec.AllocDelivers` | rt-thread/src/slab.c:211-241 | fails exactly when no stretch of that many free pages exists (or 0 is asked); otherwise takes the lowest one and nothing else |
| `SlabPagesSpec.FreeDelivers` | rt-thread/src/slab.c:252-294 | exactly the pages given become free, and the list stays sorted, disjoint and fully coalesced |
| `SlabPagesSpec.FreeUndoesAlloc` | rt-thread/src/slab.c:211-294 | giving back an allocation restores the list itself |
| `SlabPagesSpec.FreesCommute` | rt-thread/src/slab.c:252-294 | the order of two frees leaves no trace |
| `SlabPagesSpec.StepKeepsInv` | rt-thread/src/slab.c:211-294 | free and held pages partition the heap after every step |
| `SlabPagesSpec.RunConservesPages` | rt-thread/src/slab.c:211-306 | over any run no page is lost or doubled, and once all are back the list is the initial one |
| `SlabPages.PageList.constructor` | rt-thread/src/slab.c:299-306 | one run of all pages |
| `SlabPages.PageList.Alloc` | rt-thread/src/slab.c:211-241 | the walk through the pointer-to-pointer has exactly the specified outcome |
| `SlabPages.PageList.Free` | rt-thread/src/slab.c:252-294 | all five ways to link or extend a run have exactly the specified outcome |
| `SlabPages.PageList.ClientWrite` | rt-thread/src/slab.c:228-236 | a client that scribbles over a page it owns does not disturb the list |
| `SizeClasses.ZoneIndexIsBestFit` | rt-thread/src/slab.c:408-466 | the class chosen is the smallest whose chunks fit; the waste is under 8 bytes, or under an eighth from 128 bytes on |
| `SizeClasses.ChunksIncrease` | rt-thread/src/slab.c:408-466 | chunk sizes grow strictly with the class |
| `SizeClasses.ClassIffChunk` | rt-thread/src/slab.c:706-708 | comparing chunk sizes, as realloc does, is comparing classes |
| `SizeClasses.ZoneIndexIdempotent` | rt-thread/src/slab.c:706-715 | rounding a rounded size changes nothing |
| `SizeClasses.PowerOfTwoTrick` | rt-thread/src/slab.c:628 | among chunk sizes the test recognises exactly the powers of two by which the layout of a zone goes |
| `SizeClasses.TrickIsPower` | rt-thread/src/slab.c:628 | the test on a size or-ed with its predecessor holds of exactly the powers of two, among all numbers |
| `SizeClasses.ZoneHolds` | rt-thread/src/slab.c:620-638 | the chunk array lies behind the zone header and inside the zone, and holds at least two chunks |
| `SlabSpec.AllocDelivers` | rt-thread/src/slab.c:487-653 | null exactly when the size is 0 or nothing large enough is left; otherwise a pointer that was not live, with room for the size, and the only change to what is live; used and max follow |
| `SlabSpec.FreeDelivers` | rt-thread/src/slab.c:736-853 | exactly that pointer dies and its capacity leaves the charge |
| `SlabSpec.ReallocDelivers` | rt-thread/src/slab.c:667-725 | success trades the pointer for one with room for the (rounded) size, failure changes nothing, size 0 frees |
| `SlabSpec.ReallocFails` | rt-thread/src/slab.c:667-725 | a nonzero resize returns null if and only if the chunk does not already have the rounded size and nothing large enough is left |
| `SlabSpec.FittingChunkStays` | rt-thread/src/slab.c:703-709 | a chunk whose class is the smallest that serves the new size is returned as it is, and nothing changes |
| `SlabSpec.ResizeAsksFor` | rt-thread/src/slab.c:685-725 | any other resize asks for a new allocation: of the chunk size of the class that serves the size when it comes from a chunk, of the size itself otherwise |
| `SlabSpec.AllocTakes` | rt-thread/src/slab.c:487-653 | what is taken: for a large size the lowest stretch of just enough pages; else the next untouched or, failing that, the last freed chunk of the first listed zone, else chunk 0 of the first idle zone, else of a new zone on the lowest stretch of pages |
| `SlabSpec.RetiresIff` | rt-thread/src/slab.c:814-853 | a zone leaves its class if and only if the chunk freed was its last live one and another zone of the class has a free chunk |
| `SlabSpec.FreeLeavesZone` | rt-thread/src/slab.c:792-853 | such a zone becomes the first idle one, or gives its pages back if two are idle; any other keeps the chunk at the head of its list and, if it was full, is listed first in its class |
| `SlabSpec.LiveInside` | rt-thread/src/slab.c:541-650 | an allocation lies inside the pages of its owner and behind the zone header |
| `SlabSpec.LiveApart` | rt-thread/src/slab.c:541-650 | two allocations never share a byte, nor does a live one with a chunk on a free list |
| `SlabSpec.TableLeadsBack` | rt-thread/src/slab.c:759-790 | the page table entry of any live address leads back to its own zone or page count |
| `SlabSpec.LiveAligned` | rt-thread/src/slab.c:624-637 | power-of-two chunks of up to a page are aligned to their size, large allocations to the page |
| `SlabSpec.FreeBound` | rt-thread/src/slab.c:801-810 | `z_nfree` never exceeds `z_nmax`, and reaches it only with every chunk free |
| `SlabSpec.InitInv` | rt-thread/src/slab.c:321-380 | the fresh allocator satisfies the invariant |
| `SlabSpec.StepAccounts` | rt-thread/src/slab.c:487-853 | every call keeps zones, zone lists (at most one wholly free zone per class), idle list (at most two), page table and the byte count equal to what is held |
| `SlabSpec.RunAccounts` | rt-thread/src/slab.c:487-853 | the same over every run, and once all is freed nothing is charged and nothing is live |
| `SlabSpec.MaxIsHighWater` | rt-thread/src/slab.c:524-527 | `max` is the greatest charge any moment of the run has reached, the moment when a moving realloc holds both allocations included |
| `SlabSpec.InitAccounts` | rt-thread/src/slab.c:321-380 | the base case: a fresh allocator charges nothing and holds the whole invariant |
| `Slab.SlabHeap.constructor` | rt-thread/src/slab.c:321-380 | the initial structures satisfy the whole invariant |
| `Slab.SlabHeap.ChooseZoneSize` | rt-thread/src/slab.c:358-365 | the doubling loop ends with the largest of 64 and 128 KiB that is below 1/1024 of the heap, or else with 32 KiB |
| `Slab.SlabHeap.Alloc` | rt-thread/src/slab.c:487-653 | exactly the specified outcome, and the address returned is the start of the chunk or page named by it |
| `Slab.SlabHeap.AllocLarge` | rt-thread/src/slab.c:503-527 | sizes from `zone_limit` on are served in whole pages, entered in the table and charged |
| `Slab.SlabHeap.FromZone` | rt-thread/src/slab.c:541-577 | a chunk from the first listed zone, by index or off the in-chunk list |
| `Slab.SlabHeap.FromNewZone` | rt-thread/src/slab.c:579-650 | a zone from the idle list or the page allocator is set up, entered in the table and listed |
| `Slab.SlabHeap.GetZone` | rt-thread/src/slab.c:590-616 | idle zones are used before pages are taken |
| `Slab.SlabHeap.MarkZone` | rt-thread/src/slab.c:609-615 | the loop enters every page of the zone with its distance from the start |
| `Slab.SlabHeap.UnmarkZone` | rt-thread/src/slab.c:839-845 | the loop strikes every page of the zone |
| `Slab.SlabHeap.Free` | rt-thread/src/slab.c:736-853 | from the address alone, through the table, exactly the specified outcome |
| `Slab.SlabHeap.FreeLarge` | rt-thread/src/slab.c:761-779 | the page count found in the table is what goes back |
| `Slab.SlabHeap.PushChunk` | rt-thread/src/slab.c:781-851 | the chunk heads its zone's list, a zone that was full is listed again, a wholly free one with a companion retires |
| `Slab.SlabHeap.Retire` | rt-thread/src/slab.c:808-851 | a wholly free zone with a companion leaves its list for the idle list, and a third idle zone goes back to the page allocator |
| `Slab.SlabHeap.Unlist` | rt-thread/src/slab.c:817-819 | the walk removes exactly that zone from its class list |
| `Slab.SlabHeap.Realloc` | rt-thread/src/slab.c:667-725 | exactly the specified outcome, found from the address through the table, where `SlabSpec.FittingChunkStays` and `SlabSpec.ResizeAsksFor` say which size is wanted; the bytes that fit both sizes are in the allocation returned, and no other live allocation's bytes change |
| `Slab.SlabHeap.Trade` | rt-thread/src/slab.c:693-722 | allocate, copy, free: the bytes copied arrive, all others stay, and nothing happens when the allocation fails |
| `Slab.ClientMemory.Copy` | rt-thread/src/slab.c:695 | a copy between ranges that do not overlap changes the destination and nothing else |
| `WaitList.SuspendOn` | rt-thread/src/ipc.c:121-168 | the walk inserts where the specification says |
| `WaitList.SuspendAdds` | rt-thread/src/ipc.c:121-168 | the new waiter is on the list once, the others as before, and removing it restores the list |
| `WaitList.SuspendSorted` | rt-thread/src/ipc.c:134-160 | a priority list stays sorted, first come first served among equals |
| `WaitList.JoinsBehind` | rt-thread/src/ipc.c:121-168 | a newcomer stands behind everybody on a FIFO list, and behind everybody at least as urgent on a sorted priority list |
| `WaitList.WithoutSorted` | rt-thread/src/ipc.c:190-203 | leaving keeps the list sorted |
| `Lobby.EnterOk` | rt-thread/src/ipc.c:121-168 | suspending a thread keeps lists and standings in agreement and takes a woken one off the count |
| `Lobby.AdmitOk` | rt-thread/src/ipc.c:121-168 | the same for any list that adds the thread, wherever it is put |
| `Lobby.LeaveOk` | rt-thread/src/ipc.c:2057-2072 | a woken thread that runs is no longer counted, and no list changes |
| `Lobby.WakeOk` | rt-thread/src/ipc.c:190-203 | resuming the first waiter moves one thread, and adds one to the woken of its side |
| `Lobby.ExpireOk` | rt-thread/src/ipc.c:235-239 | a timeout unlinks the thread and leaves the woken alone |
| `Lobby.DismissOk` | rt-thread/src/ipc.c:219-247 | resuming everybody with an error empties both lists and wakes nobody for a reason |
| `Lobby.WakeTakesFirst` | rt-thread/src/ipc.c:190-203 | the first on the list is resumed and taken off it; everybody else stands as before |
| `Lobby.EnterJoins` | rt-thread/src/ipc.c:121-168 | a suspended thread waits on its side, at the end of a FIFO list, and the others keep their order and standing |
| `Lobby.ExpireLeaves` | rt-thread/src/ipc.c:235-239 | a timed-out thread is on no list; the others keep their order and standing |
| `Lobby.DismissFrees` | rt-thread/src/ipc.c:219-247 | after a reset nobody waits, and threads woken before still count as woken |
| `MsgQueueSpec.StepKeepsInv` | rt-thread/src/ipc.c:2770-3260 | every locked region, unlocked copy, timeout and reset of any thread keeps: each node is in the free list, the queue or one thread's hands; `entry` is the queue length; queued buffers carry the messages sent; no wake-up is lost |
| `MsgQueueSpec.RunKeepsInv` | rt-thread/src/ipc.c:2770-3260 | the same after every interleaving of any number of threads |
| `MsgQueueSpec.InitInv` | rt-thread/src/ipc.c:2474-2525 | the fresh queue satisfies the invariant |
| `MsgQueueSpec.CopiesAreUndisturbed` | rt-thread/src/ipc.c:2846-2849 | the node a thread copies to or from without the lock is in no list and in nobody else's hands |
| `MsgQueueSpec.ReceivesWhatWasSent` | rt-thread/src/ipc.c:3168-3169 | the receiver's buffer holds the front message, as much of it as fits |
| `MsgQueueSpec.NoOverflow` | rt-thread/src/ipc.c:2867-2876 | `entry` is below its limit whenever a send links a node: the overflow return is unreachable |
| `MsgQueueSpec.NoLostWakeup` | rt-thread/src/ipc.c:2878-2890 | corollary of the invariant: with no woken thread pending, suspended receivers mean an empty queue and suspended senders an empty free list |
| `MsgQueueSpec.SendDelivers` | rt-thread/src/ipc.c:2770-2919 | the three steps of a send that finds a node are legal in turn and end with the message behind all others, or before them if it is urgent |
| `MsgQueueSpec.ReceiveDelivers` | rt-thread/src/ipc.c:3075-3196 | the three steps of a receive are legal in turn, take the front message, deliver what fits of it, and put its node first on the free list |
| `MsgQueueSpec.RunIsDeque` | rt-thread/src/ipc.c:2770-3260 | over every interleaving of any number of threads the queue holds what a double-ended queue, driven by the calls alone, holds: linked messages not yet taken, in order; whoever copies out finds what it took from the front |
| `MsgQueueSpec.FirstIsWoken` | rt-thread/src/ipc.c:2880-3182 | a message linked resumes the first suspended receiver, a node given back the first suspended sender, and nobody else moves |
| `MsgQueueSpec.NoRoomNoChange` | rt-thread/src/ipc.c:2755-2800 | a call that finds no node, or no message, and does not block changes nothing, nor does a message that is too long |
| `MsgQueueSpec.TimeoutLeaves` | rt-thread/src/ipc.c:2820-2828 | a timeout takes one thread off its list and lets it return; nothing else changes |
| `MsgQueueSpec.ResetEmpties` | rt-thread/src/ipc.c:3215-3263 | a reset leaves no message and nobody suspended, every queued node free, and threads in the middle of a copy where they are |
| `MsgQueue.MessageQueue.constructor` | rt-thread/src/ipc.c:2474-2525 | the loop chains all nodes on the free list |
| `MsgQueue.MessageQueue.TrySend` | rt-thread/src/ipc.c:2770-2844 | the first locked region is the specified step: it takes a node, waits or gives up; `MsgQueueSpec.SendDelivers` says what becomes of the message and at which end |
| `MsgQueue.MessageQueue.CopyIn` | rt-thread/src/ipc.c:2846-2849 | the unlocked copy is the specified step |
| `MsgQueue.MessageQueue.Link` | rt-thread/src/ipc.c:2851-2896 | an ordinary send links behind the tail, an urgent one before the head; a receiver is resumed; no overflow |
| `MsgQueue.MessageQueue.ResumeReceiver` | rt-thread/src/ipc.c:2878-2890 | the first receiver leaves the list and counts as woken |
| `MsgQueue.MessageQueue.ResumeSender` | rt-thread/src/ipc.c:3176-3188 | likewise the first sender |
| `MsgQueue.MessageQueue.TryRecv` | rt-thread/src/ipc.c:3075-3166 | the front node is unlinked, or the caller waits |
| `MsgQueue.MessageQueue.CopyOut` | rt-thread/src/ipc.c:3168-3169 | the buffer holds the first bytes of the message taken |
| `MsgQueue.MessageQueue.GiveBack` | rt-thread/src/ipc.c:3171-3196 | the node returns to the free list and a sender is resumed |
| `MsgQueue.MessageQueue.TimeOut` | rt-thread/src/ipc.c:2820-2828 | a timed-out thread leaves its list, whatever else is in flight |
| `MsgQueue.MessageQueue.Reset` | rt-thread/src/ipc.c:3215-3263 | waiters return with an error and the loop moves every queued node to the free list, while nodes in threads' hands stay there |
| `MutexSpec.StepSafe` | rt-thread/src/ipc.c:909-1193 | hand-off safety, nested use included: `value` is 1 iff no owner iff `hold` is 0, waiters imply an owner, `hold` is the owner's takes minus releases |
| `MutexSpec.RunSafe` | rt-thread/src/ipc.c:909-1193 | the same for every run |
| `MutexSpec.BlockInherits` | rt-thread/src/ipc.c:985-1002 | a blocking take lends its priority to the owner, keeps the list sorted and changes no other priority |
| `MutexSpec.HandOffInherits` | rt-thread/src/ipc.c:1123-1183 | the last release hands over to the first, most urgent waiter and gives the old owner its own priority back |
| `MutexSpec.TakeComesTo` | rt-thread/src/ipc.c:909-1047 | every outcome of a take: a free mutex is acquired, the owner takes it again up to the limit, anybody else is refused without any change or waits behind its betters, lending its priority to the owner if that is more urgent |
| `MutexSpec.ReleaseComesTo` | rt-thread/src/ipc.c:1085-1193 | every outcome of a release: refused without any change to all but the owner; one hold less; or the saved priority back and the mutex free, or in the hands of the first waiter |
| `MutexSpec.TimeoutComesTo` | rt-thread/src/ipc.c:1020-1030 | a timeout takes the waiter off the list, the others in order, and changes no priority |
| `MutexSpec.StepKeepsInv` | rt-thread/src/ipc.c:909-1193 | with one mutex at a time per thread: wait lists sorted, owners at least as urgent as their waiters |
| `MutexSpec.RunKeepsInv` | rt-thread/src/ipc.c:909-1193 | the same in every reachable state |
| `MutexSpec.InitInv` | rt-thread/src/ipc.c:736-759 | fresh mutexes satisfy the invariant |
| `MutexSpec.LastReleaseRestores` | rt-thread/src/ipc.c:1123-1135 | after its last release a thread is back at its own priority and owns nothing of the mutex |
| `MutexSpec.OnlyRecursionOverflows` | rt-thread/src/ipc.c:937-972 | the overflow code is returned if and only if the owner takes again at the hold limit |
| `MutexSpec.RecursionDoesOverflow` | rt-thread/src/ipc.c:937-951 | and it is: the 256th take by the same owner fails |
| `MutexSpec.NestedRelease` | rt-thread/src/ipc.c:1126-1134 | the release case for one mutex: a release keeps inheritance for another mutex of the same owner exactly when the saved priority is urgent enough |
| `Inheritance.StepInheritsIff` | rt-thread/src/ipc.c:976-1193 | any take, release or timeout, nested use included, keeps inheritance at every mutex if and only if its guard holds before it: where a boosted owner itself waits, everybody in front of it is at least as urgent as the new waiter; no waiter of another mutex of the releasing thread is more urgent than the priority saved; a timeout needs nothing |
| `Inheritance.RunInheritsIff` | rt-thread/src/ipc.c:909-1193 | over any run inheritance holds in every state if and only if every step meets its guard |
| `Inheritance.InitInherits` | rt-thread/src/ipc.c:736-759 | fresh mutexes are safe and inherit |
| `Inheritance.TakeIff` | rt-thread/src/ipc.c:985-1002 | the take case, for every mutex at once |
| `Inheritance.ReleaseIff` | rt-thread/src/ipc.c:1123-1183 | the release case, for every mutex at once |
| `Inheritance.TimeoutKeepsAll` | rt-thread/src/ipc.c:1020-1030 | a timeout never breaks inheritance |
| `Inheritance.ChainBreaksInheritance` | rt-thread/src/ipc.c:985-1002 | a concrete run of takes alone: the boost stops at a thread that itself waits, and the owner it waits for stays less urgent |
| `MutexSpec.NestedUseBreaksInheritance` | rt-thread/src/ipc.c:1126-1134 | a concrete run whose release leaves an owner less urgent than its waiter |
| `MutexSpec.ReleaseRestoresIff` | rt-thread/src/ipc.c:1126-1134 | over any run, nested use included: a last release puts its caller back at the priority it had on acquiring the mutex, so at its own priority if and only if it was running at its own priority then |
| `MutexSpec.OutOfOrderStaysLent` | rt-thread/src/ipc.c:1126-1134 | a concrete run, released out of order, that leaves a thread above its own priority although it owns nothing |
| `MutexScheduling.ReleaseLeavesMostUrgentIff` | rt-thread/src/ipc.c:1123-1190 | after a last release the running thread is at least as urgent as every ready one if and only if somebody was waiting, or nobody ready is more urgent than the priority restored |
| `MutexScheduling.PrioritiesAgree` | rt-thread/src/ipc.c:1123-1190 | the mutex and the scheduler agree on every priority after the release |
| `MutexScheduling.TimedOutWaiterLeavesLoan` | rt-thread/src/ipc.c:985-1030 | a waiter that times out leaves the owner at the priority lent, with nobody waiting |
| `MutexScheduling.ReleaseKeepsRunningBelowReady` | rt-thread/src/ipc.c:1186-1190 | the release that follows drops the priority and lets the thread run on below a ready one |
| `Mutex.RtMutex.constructor` | rt-thread/src/ipc.c:736-759 | a fresh mutex |
| `Mutex.RtMutex.Take` | rt-thread/src/ipc.c:909-1047 | the fields, the priorities and the error codes become exactly what the specification says |
| `Mutex.RtMutex.Release` | rt-thread/src/ipc.c:1085-1193 | likewise, the non-owner and hand-off branches included |
| `Mutex.RtMutex.TimeOut` | rt-thread/src/ipc.c:1020-1030 | the waiter leaves; the priority it lent stays |
| `SemaphoreSpec.StepKeepsInv` | rt-thread/src/ipc.c:479-699 | waiters imply value 0, and start value plus releases minus granted takes is the value, after every step |
| `SemaphoreSpec.RunKeepsInv` | rt-thread/src/ipc.c:479-699 | the same over every run |
| `SemaphoreSpec.NothingGrantedTwice` | rt-thread/src/ipc.c:498-563 | corollary of the invariant: never more granted than put in, and all of it granted while somebody waits |
| `SemaphoreSpec.ReleasesServeInOrder` | rt-thread/src/ipc.c:622-639 | n releases in a row grant the first n waiters, in order |
| `SemaphoreSpec.NoOvertaking` | rt-thread/src/ipc.c:498-639 | a thread that comes while another of its class, or a more urgent one, waits is granted nothing before that one as long as both wait, whatever takes, releases and timeouts come between |
| `SemaphoreSpec.TakeComesTo` | rt-thread/src/ipc.c:479-564 | a take is granted exactly when the value is positive; otherwise it changes nothing or joins the waiters, who keep their order |
| `SemaphoreSpec.ReleaseComesTo` | rt-thread/src/ipc.c:601-649 | a release goes to the first waiter, without one to the value, and overflows, changing nothing, if and only if nobody waits and the value is at its limit |
| `SemaphoreSpec.LeavingComesTo` | rt-thread/src/ipc.c:551-699 | a timeout grants nothing and keeps the order of the others; a reset leaves nobody waiting and the new value |
| `SemaphoreSpec.InitInv` | rt-thread/src/ipc.c:295-317 | a fresh semaphore whose value fits 16 bits satisfies the invariant |
| `Semaphore.RtSemaphore.constructor` | rt-thread/src/ipc.c:295-317 | a fresh semaphore |
| `Semaphore.RtSemaphore.Take` | rt-thread/src/ipc.c:479-564 | fields and code as specified, up to the switch |
| `Semaphore.RtSemaphore.Release` | rt-thread/src/ipc.c:601-649 | fields as specified; overflow exactly when nobody waits and the value is at its limit |
| `Semaphore.RtSemaphore.TimeOut` | rt-thread/src/ipc.c:551-557 | the waiter leaves and nothing is granted |
| `Semaphore.RtSemaphore.Reset` | rt-thread/src/ipc.c:667-699 | every waiter is dismissed and the value is cut to 16 bits |
| `MailboxSpec.StepKeepsInv` | rt-thread/src/ipc.c:1986-2413 | while a receiver is suspended there are no more mails than receivers woken for them, while a sender is suspended no more room than senders woken for it, after every step |
| `MailboxSpec.RunKeepsInv` | rt-thread/src/ipc.c:1986-2413 | the same over every run |
| `MailboxSpec.NoLostWakeup` | rt-thread/src/ipc.c:2012-2362 | corollary of the invariant: once the woken have run, suspended receivers face an empty and suspended senders a full mailbox |
| `MailboxSpec.FirstInFirstOut` | rt-thread/src/ipc.c:1986-2363 | over any run without urgent mails and resets, whoever sends, receives, waits or times out: the mails taken out, then those left, are the mails there, then those put in |
| `MailboxSpec.MailsConserved` | rt-thread/src/ipc.c:1986-2363 | with urgent mails among them no mail is lost or doubled |
| `MailboxSpec.SendsAppend` | rt-thread/src/ipc.c:2080-2089 | sends that find room, by whichever threads, append their mails in order |
| `MailboxSpec.ReceivesDrain` | rt-thread/src/ipc.c:2322-2340 | as many receives return the first mails in order and leave the rest |
| `MailboxSpec.UrgentFirst` | rt-thread/src/ipc.c:2159-2211 | an urgent mail is the next one received; on a full mailbox it changes nothing, and a send or a receive that cannot proceed leaves the mails alone and its caller suspended or going on |
| `MailboxSpec.MailWakesFirst` | rt-thread/src/ipc.c:2097-2346 | a mail resumes the first suspended receiver, room the first suspended sender |
| `MailboxSpec.ResetEmpties` | rt-thread/src/ipc.c:2381-2413 | a reset leaves no mail and nobody suspended |
| `MailboxSpec.InitInv` | rt-thread/src/ipc.c:1775-1804 | an empty mailbox satisfies the invariant |
| `Mailbox.SlotIsMod` | rt-thread/src/ipc.c:2080-2085 | the wrap by comparison is addition modulo the size |
| `Mailbox.RtMailbox.constructor` | rt-thread/src/ipc.c:1775-1804 | an empty ring |
| `Mailbox.RtMailbox.Send` | rt-thread/src/ipc.c:1986-2115 | storing at `in_offset` appends to the deque, and offsets and `entry` stay tied to it; `MailboxSpec.FirstInFirstOut` says what comes out again, and in which order |
| `Mailbox.RtMailbox.Urgent` | rt-thread/src/ipc.c:2159-2211 | stepping `out_offset` back prepends to the deque |
| `Mailbox.RtMailbox.Recv` | rt-thread/src/ipc.c:2233-2363 | the value returned is the front of the deque, which loses it |
| `Mailbox.RtMailbox.TimeOut` | rt-thread/src/ipc.c:2057-2065 | the suspended thread leaves its list, the mails stay |
| `Mailbox.RtMailbox.Reset` | rt-thread/src/ipc.c:2381-2413 | all waiters are dismissed and the ring is empty |
| `MemPoolSpec.StepKeepsInv` | rt-thread/src/mempool.c:319-465 | every block is free or handed out, and suspended threads imply no more free blocks than woken threads |
| `MemPoolSpec.RunKeepsInv` | rt-thread/src/mempool.c:319-465 | the same over every run |
| `MemPoolSpec.BlocksConserved` | rt-thread/src/mempool.c:115-133 | free and held blocks always add up to the total; once all are back every block is free |
| `MemPoolSpec.NoLostWakeup` | rt-thread/src/mempool.c:335-384 | corollary of the invariant: once the woken have run, a suspended thread means no free block |
| `MemPoolSpec.AllocHandsOut` | rt-thread/src/mempool.c:319-407 | a block is returned exactly when one is free; it was free, nobody held it, and it is exactly what is held in addition; otherwise the caller waits in front of all others, or goes on |
| `MemPoolSpec.FreeTakesBack` | rt-thread/src/mempool.c:415-465 | a block given back is held no more, resumes the first waiter and is the next to be handed out |
| `MemPoolSpec.DetachDismisses` | rt-thread/src/mempool.c:146-182 | a detach leaves nobody suspended and moves no block |
| `MemPoolSpec.LastComeFirstServed` | rt-thread/src/mempool.c:354 | threads that found the pool empty are resumed by the blocks given back in exactly the reverse order |
| `MemPoolSpec.ArrivalOrderIffAlone` | rt-thread/src/mempool.c:354 | once all are served, that is the order of arrival if and only if at most one thread waited |
| `MemPoolSpec.SecondServedFirst` | rt-thread/src/mempool.c:354 | two threads and two blocks: the second thread is served first |
| `MemPoolSpec.StepKeepsNewestFirst` | rt-thread/src/mempool.c:319-465 | every step keeps the waiters in the order newest first |
| `MemPoolSpec.InOrderIffAlone` | rt-thread/src/mempool.c:319-465 | any run, timeouts and retries included, resumes the thread suspended first every time if and only if no two are suspended whenever a block is given back |
| `MemPoolSpec.InitInv` | rt-thread/src/mempool.c:89-136 | the fresh pool satisfies the invariant |
| `MemPool.RtMemPool.constructor` | rt-thread/src/mempool.c:89-136 | the loop chains every block |
| `MemPool.RtMemPool.Alloc` | rt-thread/src/mempool.c:319-407 | the first free block, its header naming the pool, or a suspended caller at the front of the list |
| `MemPool.RtMemPool.Free` | rt-thread/src/mempool.c:415-465 | the header led to this pool, the block heads the chain again, and a waiter is resumed |
| `MemPool.RtMemPool.TimeOut` | rt-thread/src/mempool.c:369-374 | the suspended thread leaves the list, the blocks stay |
| `MemPool.RtMemPool.Detach` | rt-thread/src/mempool.c:146-182 | every waiter is dismissed |
| `EventSpec.SweepQuiets` | rt-thread/src/ipc.c:1456-1514 | after a send has gone down the list nobody left on it is satisfied, although waiters with CLEAR changed the flags on the way |
| `EventSpec.StepKeepsInv` | rt-thread/src/ipc.c:1435-1726 | no suspended waiter's condition holds for the current flags, after every step |
| `EventSpec.RunKeepsInv` | rt-thread/src/ipc.c:1435-1726 | the same in every reachable state |
| `EventSpec.ClearingIsSafe` | rt-thread/src/ipc.c:1501-1503 | clearing bits never satisfies a waiter that was not satisfied |
| `EventSpec.SweepHandsOut` | rt-thread/src/ipc.c:1464-1511 | who leaves received only bits that were set and wanted, all of them under AND and some under OR; who stays received nothing |
| `EventSpec.SweepKeepsUnclaimed` | rt-thread/src/ipc.c:1499-1503 | bits no clearing waiter asks for survive a send |
| `EventSpec.ClearedBitsGoOnce` | rt-thread/src/ipc.c:1499-1503 | a bit handed to a clearing waiter is handed to nobody behind it |
| `EventSpec.SendAdds` | rt-thread/src/ipc.c:1456 | a send adds its bits to those set: of the bits no clearing waiter asks for, exactly those are set afterwards that were set before or are sent |
| `EventSpec.ReceiveByOption` | rt-thread/src/ipc.c:1592-1640 | by the bits of the option: 1 asks for all of the mask, 2 for any of it, and 4 takes the mask off the flags; what is received is what flags and mask share |
| `EventSpec.RecvByOption` | rt-thread/src/ipc.c:1560-1680 | the same for rt_event_recv, which otherwise leaves the flags and waits, if it may |
| `EventSpec.SendServes` | rt-thread/src/ipc.c:1456-1514 | without clearing waiters a send serves exactly those it satisfies, each with all the bits it shares with the flags, and the flags stay |
| `EventSpec.FirstPicksFirst` | rt-thread/src/ipc.c:1460-1511 | the first waiter is served exactly if flags and bits sent satisfy it, with all the bits it shares with them |
| `EventSpec.SendKeepsOrder` | rt-thread/src/ipc.c:1460-1511 | those a send does not serve keep their order |
| `EventSpec.LeavingComesTo` | rt-thread/src/ipc.c:1657-1726 | a timeout takes one waiter off the list, the others in order; a reset clears the flags and leaves nobody waiting |
| `Event.RtEvent.Send` | rt-thread/src/ipc.c:1435-1524 | the in-place walk equals adding the bits, as `EventSpec.SendAdds` says, and letting each waiter in list order do a non-blocking receive |
| `Event.RtEvent.Try` | rt-thread/src/ipc.c:1464-1507 | one waiter's turn, though it clears by `thread->event_set`, is that receive |
| `Event.RtEvent.Test` | rt-thread/src/ipc.c:1592-1607 | the AND/OR test of a receive is the specified condition |
| `Event.RtEvent.Recv` | rt-thread/src/ipc.c:1560-1680 | received exactly when the condition holds, and then the wanted bits that were set |
| `Event.RtEvent.TimeOut` | rt-thread/src/ipc.c:1657-1663 | the waiter leaves, the flags stay |
| `Event.RtEvent.Reset` | rt-thread/src/ipc.c:1698-1726 | all waiters are dismissed and the flags cleared |
| `Bits.TinyFfsCorrect` | rt-thread/src/kservice.c:1706-1709 | the modulo-37 version returns the lowest set bit plus one, 0 for 0, for all 32-bit words |
| `Bits.TableFfsCorrect` | rt-thread/src/kservice.c:1741-1755 | so does the byte-table version |
| `Bits.IsolatesLowest` | rt-thread/src/kservice.c:1708 | `value & (value - 1) ^ value` leaves exactly the lowest set bit |
| `Bits.BitmapIsLowest` | rt-thread/src/kservice.c:1713-1731 | the 256-entry table holds the lowest set bit of every byte |
| `Scheduler.IndexInsert` | rt-thread/src/scheduler.c:718-752 | setting the two bits keeps bitmap and lists in agreement |
| `Scheduler.IndexRemove` | rt-thread/src/scheduler.c:815-845 | clearing bits when a list, then a group, becomes empty keeps them in agreement, also for a thread in no list |
| `Scheduler.IndexLookup` | rt-thread/src/scheduler.c:174-190 | two `__rt_ffs` lookups, by either version, give the smallest nonempty priority |
| `SchedulerSpec.ScheduleDelivers` | rt-thread/src/scheduler.c:423-545 | unlocked and with a ready thread: afterwards the current thread runs, is in no list, is at least as urgent as every ready one; no runnable thread is lost or gained; the displaced one is queued exactly when it was running |
| `SchedulerSpec.ScheduleShape` | rt-thread/src/scheduler.c:433-538 | who runs and what every list holds afterwards |
| `SchedulerSpec.ScheduleChooses` | rt-thread/src/scheduler.c:433-538 | the running thread stays exactly when nobody ready is more urgent, or as urgent while it yields; otherwise the first in line of the most urgent priority runs, and the displaced thread goes to the end of its line |
| `SchedulerSpec.ExitDelivers` | rt-thread/src/scheduler.c:955-980 | after the outermost exit nothing is locked and the current thread runs, at least as urgent as every runnable one; an inner exit only counts down |
| `SchedulerSpec.CriticalSection` | rt-thread/src/scheduler.c:891-980 | over any run that stays inside a critical section, nested ones included, the processor stays with the same thread, and the nesting count is what enters and exits make of it |
| `SchedulerSpec.DisplacedIsRenewed` | rt-thread/src/clock.c:110-123 | a thread that a yield or a tick takes the processor from has a full slice and, if it was running, waits at the end of its line |
| `SchedulerSpec.TickCounts` | rt-thread/src/clock.c:91-127 | a tick takes one from the slice of the current thread, renews a used one, wraps around at 0, and touches no other slice |
| `SchedulerSpec.SuspendLeaves` | rt-thread/src/thread.c:837-871 | a running thread that suspends itself changes its state and no list |
| `SchedulerSpec.ResumeQueues` | rt-thread/src/thread.c:884-918 | a suspended thread goes to the end of its line; resuming any other changes nothing |
| `SchedulerSpec.PriorityQueues` | rt-thread/src/thread.c:720-772 | a ready thread goes to the end of its new line, and lines other than those two stay; a thread in no line just changes |
| `SchedulerSpec.StepKeepsInv` | rt-thread/src/scheduler.c:423-980 | each ready thread is in its own list once, the current one in none, nobody else runs, after every operation |
| `SchedulerSpec.RunKeepsInv` | rt-thread/src/scheduler.c:423-980 | the same over every run |
| `SchedulerSpec.YieldRotates` | rt-thread/src/thread.c:543-556 | a yield among equals sends the caller to the end of the line |
| `SchedulerSpec.RoundRobin` | rt-thread/src/scheduler.c:444-476 | in n yields each of the n equally urgent threads runs exactly once, in order, and the line is as it was |
| `SchedulerSpec.StepKeepsSlices` | rt-thread/src/clock.c:91-127 | the ticks left of a slice stay between 1 and `init_tick` |
| `SchedulerSpec.SliceEnds` | rt-thread/src/clock.c:110-123 | with an equal ready and nothing but ticks, the current thread keeps the processor for exactly the ticks left of its slice |
| `SchedulerSpec.SliceBounds` | rt-thread/src/clock.c:110-123 | whatever is resumed, reprioritised or scheduled between the ticks: as long as a thread keeps running unlocked with an equal ready, fewer ticks pass than its slice had left |
| `SchedulerSpec.StepSpends` | rt-thread/src/clock.c:110-123 | meanwhile a tick costs exactly one tick of the slice and every other step nothing |
| `Scheduler.RtScheduler.constructor` | rt-thread/src/scheduler.c:197-242 | empty lists, empty bitmap |
| `Scheduler.RtScheduler.Insert` | rt-thread/src/scheduler.c:718-752 | lists, bitmaps and thread state change as specified and stay in agreement |
| `Scheduler.RtScheduler.Remove` | rt-thread/src/scheduler.c:815-845 | likewise |
| `Scheduler.RtScheduler.GetHighest` | rt-thread/src/scheduler.c:169-191 | the first thread of the most urgent nonempty list |
| `Scheduler.RtScheduler.Schedule` | rt-thread/src/scheduler.c:423-545 | exactly the specified step, from the bitmaps |
| `Scheduler.RtScheduler.Yield` | rt-thread/src/thread.c:543-556 | exactly the specified step |
| `Scheduler.RtScheduler.TickIncrease` | rt-thread/src/clock.c:91-127 | exactly the specified step |
| `Scheduler.RtScheduler.SuspendCurrent` | rt-thread/src/thread.c:837-871 | exactly the specified step for the running thread |
| `Scheduler.RtScheduler.Resume` | rt-thread/src/thread.c:884-918 | exactly the specified step |
| `Scheduler.RtScheduler.ChangePriority` | rt-thread/src/thread.c:720-772 | a ready thread is requeued at its new priority, any other only changes it |
| `Scheduler.RtScheduler.EnterCritical` | rt-thread/src/scheduler.c:891-906 | the nesting count goes up and nothing else changes |
| `Scheduler.RtScheduler.ExitCritical` | rt-thread/src/scheduler.c:955-980 | only the outermost exit schedules, with what `SchedulerSpec.ExitDelivers` says |
| `RtList.InsertAfter` | rt-thread/include/rtservice.h:58-66 | four stores put the node behind the entry of a ring that stays a ring both ways |
| `RtList.InsertBefore` | rt-thread/include/rtservice.h:73-80 | in front of the entry; in front of the head means at the end |
| `RtList.Remove` | rt-thread/include/rtservice.h:86-92 | the rest stays a ring and the node becomes one of its own, so removing it again is harmless |
| `RtList.IsEmpty` | rt-thread/include/rtservice.h:98-101 | true exactly for a head alone |
| `RtList.Len` | rt-thread/include/rtservice.h:107-118 | the number of entries besides the head |
| `Printf.Vsnprintf` | rt-thread/src/kservice.c:886-1115 | stores the first min(len, size - 1) characters of the unbounded output and a NUL, touches nothing else, and returns len, which does not depend on the size (section 7.21.6.12 of ISO/IEC 9899:2011) |
| `Printf.Convert` | rt-thread/src/kservice.c:895-1103 | each directive emits exactly its text through the bounds check and consumes its arguments |
| `Printf.TakeScan` | rt-thread/src/kservice.c:896-941 | flags, field width and precision, from digits or from an argument, are what the specification scans |
| `Printf.PutChar` | rt-thread/src/kservice.c:966-987 | a character is padded on the side the flags say |
| `Printf.PutString` | rt-thread/src/kservice.c:989-1022 | at most `precision` characters of the string, padded on the side the flags say |
| `Printf.PrintNumber` | rt-thread/src/kservice.c:682-841 | all the padding, sign, prefix and digit loops emit exactly the specified text |
| `Printf.PutLead` | rt-thread/src/kservice.c:759-813 | padding, sign and prefix in front of the digits, and what is left of the field |
| `Printf.PutTail` | rt-thread/src/kservice.c:816-838 | zeros up to the precision, the digits, the rest of the field |
| `Printf.PutReversed` | rt-thread/src/kservice.c:825-831 | the digits come out most significant first |
| `Printf.FillDigits` | rt-thread/src/kservice.c:742-749 | the digit loop never overruns its 16-character buffer |
| `Printf.DigitsFit` | rt-thread/src/kservice.c:742-749 | a 32-bit number has at most ten digits |
| `Printf.SkipAtoi` | rt-thread/src/kservice.c:665-672 | consumes exactly the leading digits and yields their value |
| `Printf.TakeFlags` | rt-thread/src/kservice.c:896-909 | consumes exactly the flag characters |
| `PrintfSpec.DigitsReadBack` | rt-thread/src/kservice.c:635-663 | the digits printed denote the number in base 10 for base 10, and in base 16 for every other base |
| `PrintfSpec.OctalDirective` | rt-thread/src/kservice.c:682-841 | `%o` prints the digits of print_number for base 8 and nothing else |
| `PrintfSpec.OctalIffBelowEight` | rt-thread/src/kservice.c:635-663 | what `%o` prints is a numeral for its argument in base 8 if and only if the argument is below 8 |
| `PrintfSpec.EightPrintsEight` | rt-thread/src/kservice.c:635-663 | the least failing argument: 8 is printed as "8" |
| `PrintfSpec.PlainText` | rt-thread/src/kservice.c:886-894 | text without a directive is printed as it stands |
| `PrintfSpec.PrintsTheNumber` | rt-thread/src/kservice.c:682-841 | `%u` and `%d` print a decimal numeral for the word as an unsigned and as a signed number, `%x` a hexadecimal one |
| `PrintfSpec.ScanUndoesPrint` | rt-thread/src/kservice.c:665-672 | skip_atoi reads back what `%u` prints |
| `PrintfSpec.WidthIsHonoured` | rt-thread/src/kservice.c:911-926 | a width printed by `%u` into a directive is the width of its field, with the number at the right end |
| `PrintfSpec.FieldFlags` | rt-thread/src/kservice.c:900-910 | `-` moves the number to the left end of its field, and `0` fills the field with zeros |
| `PrintfSpec.WidthArgument` | rt-thread/src/kservice.c:914-924 | a width passed as an argument is the width; a negative one means its magnitude, to the left |
| `PrintfSpec.PrecisionIsHonoured` | rt-thread/src/kservice.c:929-945 | a precision, in the directive or passed as an argument, is the least number of digits; a negative one and a lone dot count as 0 |
| `PrintfSpec.NumberLength` | rt-thread/src/kservice.c:682-841 | the length of what print_number prints, for all widths, precisions and flags |
| `PrintfSpec.FieldFilledIff` | rt-thread/src/kservice.c:747-841 | a number fills its field if and only if its precision is not 0 or its sign and prefix fill the field already |
| `PrintfSpec.PrecisionZeroIffZero` | rt-thread/src/kservice.c:826-832 | with precision 0 a number prints nothing, so the output denotes it if and only if it is zero |
| `PrintfSpec.StringWholeIff` | rt-thread/src/kservice.c:993-1019 | without a precision a string is printed whole if and only if it has no field width or is not longer than it |
| `PrintfSpec.WidthCuts` | rt-thread/src/kservice.c:993 | `%2s` prints two characters of "abc" |
| `PrintfSpec.PrecisionCuts` | rt-thread/src/kservice.c:993-996 | a precision other than 0 is the most that is printed of a string |
| `PrintfSpec.CharField` | rt-thread/src/kservice.c:966-987 | a character stands at one end of its field |
| `PrintfSpec.SignFlags` | rt-thread/src/kservice.c:717-731 | `+` and a blank put a sign in front of a number that is not negative |
| `PrintfSpec.PrefixFlag` | rt-thread/src/kservice.c:782-803 | `#` puts 0x, 0X or 0 in front, by the base |
| `PrintfSpec.UpperCase` | rt-thread/src/kservice.c:703-711 | `%x` prints lower-case digits and `%X` the same in upper case |
| `PrintfSpec.Qualifiers` | rt-thread/src/kservice.c:1078-1094 | `h` prints the lower half of a word, for `%hd` with its own sign; `l` changes nothing |
| `PrintfSpec.PointerDirective` | rt-thread/src/kservice.c:1021-1036 | a pointer is eight hexadecimal digits, filled up with zeros |
| `PrintfSpec.OtherDirectives` | rt-thread/src/kservice.c:966-1042 | a string, a character, a null pointer and `%%` are printed as they are, as (NULL) and as a single percent sign |
| `PrintfSpec.UnknownDirective` | rt-thread/src/kservice.c:1060-1074 | what is no conversion is printed as it stands, and so is a percent sign at the end |
| `Ethernet.Transmit` | libraries/HAL_Drivers/drv_eth.c:184-248 | refused exactly when a descriptor the frame needs still belongs to the DMA; otherwise the concatenated payload lies contiguous in the buffers, nothing behind it changes, and `framelength` is its length |
| `Ethernet.SendPayload` | libraries/HAL_Drivers/drv_eth.c:212-238 | one payload is laid out behind what is there, over as many buffers as it takes |
| `Ethernet.SendChunk` | libraries/HAL_Drivers/drv_eth.c:217-237 | one copy moves the frontier between the frame so far and the untouched buffers by exactly its length |
| `Ethernet.Receive` | libraries/HAL_Drivers/drv_eth.c:318-346 | the pbufs together hold the first bytes of the frame, in order |
| `Ethernet.FillPayload` | libraries/HAL_Drivers/drv_eth.c:322-344 | one pbuf is filled from as many buffers as it takes |
| `Ethernet.ChainDetermined` | libraries/HAL_Drivers/drv_eth.c:184-346 | lengths and concatenated bytes determine the chain |
| `Ethernet.RoundTrip` | libraries/HAL_Drivers/drv_eth.c:184-346 | buffers as a transmission leaves them, gathered as a reception gathers them into the same lengths, give the chain back |
| `Ethernet.Loopback` | libraries/HAL_Drivers/drv_eth.c:184-346 | transmission and reception over one ring: unless a descriptor is missing, every chain that fits comes back as it was |
| `MallocAlign.PlacedInside` | rt-thread/src/kservice.c:1622-1663 | for a power of two of at least a word: the pointer is aligned, the word in front of it and every byte asked for lie inside the block allocated |
| `MallocAlign.AlwaysInside` | rt-thread/src/kservice.c:1630-1663 | for every positive alignment: the pointer is a word boundary, the word in front of it and every byte asked for lie inside the block allocated |
| `MallocAlign.FreeFindsBlock` | rt-thread/src/kservice.c:1654-1683 | whatever a client stores in the bytes it asked for, `rt_free_align` reads back the address rt_malloc returned |
| `MallocAlign.AlignedIffPowerOfTwo` | rt-thread/src/kservice.c:1633-1652 | any positive alignment, rounded up to the word as the code does, is honoured for every block if and only if it is a power of two |
| `MallocAlign.Misaligned` | rt-thread/src/kservice.c:1638-1652 | for any other alignment, which blocks fail: one of those at two successive powers of two from the rounded alignment on |
| `MallocAlign.TwentyFourIsMissed` | rt-thread/src/kservice.c:1638-1652 | for instance alignment 24 and the block at 32, returned at 56 |
| `Clock.TickIsCeiling` | rt-thread/src/clock.c:139-155 | forever for a negative time, otherwise the least number of ticks that lasts at least the time asked for |

## Left out

- Signals (`signal.c` and the `RT_USING_SIGNALS` branches): a signal sets the error of a woken thread, which would break the wake-up theorems.
- SMP builds, spinlocks, `cpu.c`, stack switching, interrupt nesting and the stack check in `rt_schedule`.
- Timers: a timeout is a step that may strike any suspended thread; the tick counter's wrap-around and the arithmetic that shortens a timeout after a retry are not modelled.
- Hooks, MEMTRACE, `memcheck`, finsh commands, debug logs, the object registry, and the create/delete/detach variants other than those in the table; `RT_ASSERT`s on arguments are preconditions.
- `RT_ALIGN` wrapping around for requests close to the largest `rt_size_t`: sizes are unbounded integers.
- Heaps of `mem.c` too small for one block of `MIN_SIZE_ALIGNED`: the subtraction at `mem.c:314` wraps around there and the scan has no bound; the constructor requires more.
- The header sizes and `RT_ALIGN_SIZE` of `mem.c` are symbolic; those of `memheap.c` are 4 and the clamp 12, because the clamp there is not aligned again.
- Locking inside `memheap.c` and `_heap_lock` (each call is one step), the `_memheap_*` search over several heaps and `RT_MEMHEAP_BSET_MODE`.
- MemHeap.MemoryHeap.Alloc: the stores to the ring and to the free list are grouped, so states between two stores are not those of the source.
- Slab.SlabHeap.Realloc: zones, pages and free chunks are kept in maps of their own instead of in the memory they describe, apart from the clients' bytes; `SlabSpec.LiveApart` and `SlabSpec.LiveInside` show that the two never overlap.
- SlabPages.PageList.Free: where the source extends a run in place, the model stores the link that is already there.
- Slab.SlabHeap.constructor: rounding the address range passed to `rt_slab_init` to whole pages is left to the caller.
- MsgQueue.MessageQueue.TrySend: the wait lists of the IPC classes are sequences; the ring of list nodes they are made of is proved separately in `RtList`, and `thread.c` enters through what suspending, resuming and timing out do to a thread.
- Mailbox.RtMailbox.constructor: a size beyond 16 bits, which the source truncates, is excluded; so is a message queue of more nodes than its 16-bit count holds.
- MemPool.RtMemPool.constructor: the division of the area into blocks is done by the caller.
- MutexSpec.RunKeepsInv: for threads that hold or wait for at most one mutex at a time and whose priority nothing else changes; `MutexSpec.NestedUseBreaksInheritance` shows why. A waiter that times out leaves the owner at the priority lent, as the source does.
- Scheduler.RtScheduler.constructor: `RT_THREAD_PRIORITY_MAX` is 256, the most the two-level index holds; a smaller maximum leaves the upper lists empty. The one-level index of builds with up to 32 priorities is left out.
- PrintfSpec.Format: a 32-bit target with `RT_PRINTF_PRECISION` and `RT_PRINTF_SPECIAL`, without `RT_PRINTF_LONGLONG`; an argument of the wrong kind reads as zero, and a field width too large for an `int` does not overflow. `rt_sprintf` and `rt_vsprintf`, which pass no useful size, are left out.
- Ethernet.Transmit: descriptor chaining, the ownership handshake, PHY handling and HAL calls; whether a descriptor still belongs to the DMA is a parameter.
- MallocAlign.AlwaysInside: addresses do not wrap around, and the block rt_malloc returns is a parameter.
- Clock.TickIsCeiling: without the wrap-around of the 32-bit product.
- The remaining HAL drivers and board files, device framework, and the string routines of `kservice.c`.
