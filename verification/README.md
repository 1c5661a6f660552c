# nuaf: a model of the allocator and its proofs

nuaf ("no using after freeing") is a `malloc` replacement that never gives a virtual page out twice.
Small objects (at most 2048 bytes) live one per virtual page, in eight power-of-two classes, on top of a
shared backing file; freeing one moves its page, with `mremap`, to the next virtual page never used before
and threads the object onto a free list kept inside the freed objects themselves. Larger objects get whole
pages behind a two-word header and are unmapped when freed. Around it are the malloc-family wrapper, two
mutexes, and two self-contained pieces of the benchmarks: a barrier and a random generator.

The project has four parts.

**The sequential allocator.** `Memory` is the address space as a page table with little-endian words in
pages; `SizeClass` the constants, the classes and the closed form of the bump pointer; `Heap` the abstract
heap (objects, eight stacks, two counters); `Runs`, `Safety` and `RunSafety` its operations and what holds of
every run of them; `Reuse` what malloc gives out again. `Layout` says how a heap lies in memory, also in the middle of an operation, and what
each single store, mapping or counter step does to that; `Machine` joins this to the global variables.
`Nuaf.Allocator` is the C code over those variables; every method is tied to the abstract operation, for
every state the allocator can reach, and keeps `num_mappings` equal to the mapped small pages and the live
large objects together. `Views` restates the results in terms of memory and the backing file.

**The malloc family.** `Wrapper` builds `malloc`, `calloc`, `realloc`, `memalign`, `posix_memalign` and
`aligned_alloc` from the allocator's methods. Each is specified by the allocator operations it performs, which
are a legal run from the heap before to the heap after, so that every theorem about runs holds of clients of
the whole family, and by what it does to the client's blocks. `Bits` has the masks; `Witnesses` has inputs, each
reached from the initial state, on which a call does not do what its caller may expect.

**Concurrency.** `Threads` is the program of each thread, one shared step at a time, with `Fault` as an
explicit outcome of every access to unmapped memory. `ThreadSafety`, `ThreadSteps` and `ThreadMemory` show
that every step of every thread keeps one invariant; `ThreadRuns` draws the conclusions for whole
executions, `Histories` relates what the threads see, their calls and returns, to a sequential run, and `Locks`
says what holding both mutexes gives.
`Barrier` is the condition-variable barrier as a system of N threads over any number of rounds.

**The generator.** `Lran2` has the class, a pure specification of its runs, conservation, and the period.

Where the code and its documentation differ, the code is modelled:

- The threshold between small and large is 2048 (`freelist.h:25`); the comments that say 1024
  (`allocator.c:103`, `freelist.h:16`) are stale.
- `memalign` returns a pointer below the alignment as it is (`wrapper.h:205`): the test compares with the
  pointer and not with 0. `Wrapper.Memalign` proves that the result is aligned if and only if the alignment
  is 8 or at most the address `malloc` would return next; in particular always when the alignment is at most
  2^32 (`Wrapper.AddressFloor`). `Witnesses.MemalignUnaligned` is a first call with an unaligned result.
- `realloc` to 2^63 bytes or more returns NULL and frees the old block (`wrapper.h:269-286`).
  `Wrapper.Realloc` states this case next to the others; `Witnesses.ReallocFails` reaches it.
- `realloc` of a pointer that `memalign` adjusted copies as many bytes as the whole block has
  (`wrapper.h:265-279`). `Wrapper.CopyInsideWhen` says when that stays inside the block, and
  `Wrapper.Realloc` that what comes back holds the bytes asked for, unless the pointer stays where it is with
  fewer behind it. `Witnesses.ReallocCopiesPast` and `Witnesses.ReallocTooShort` are such calls after
  `memalign(64, 100)`.
- `aligned_alloc` computes the rounded size in 64 bits (`wrapper.h:226`). `Wrapper.AlignedAlloc` proves that
  what it returns holds the size asked for if and only if that does not wrap;
  `Witnesses.AlignedAllocTooSmall` is a call where it does.
- Freeing a large object through a pointer past its first page works if and only if no page on the way
  down begins with the magic word (`Views.InteriorPointer`); `Witnesses.MagicLeadsAstray` is a run
  after which one does.

The client's discipline is a hypothesis of every run theorem (`Runs.Disciplined`, `Threads.Allowed`): sizes
below 2^63, frees and writes through pointers into live objects, each object freed by one thread and not
touched by another meanwhile. The code checks neither address range nor the size of the backing file; that
they do not run out is the hypothesis `Runs.Fits` (and `Wrapper.Room` for a call that performs several
operations).

## Model

| member | source | states |
|---|---|---|
| SizeClass.BlockTypeIsLeast | freelist.c:43-45 | every request of at most 2048 bytes gets a class 0..7, it fits, and no smaller class holds it |
| SizeClass.ClassInNumbers | freelist.h:23-26 | up to 2048 bytes, and no further, a request has a class; its objects hold the request and are of 16 bytes or of less than twice the request |
| SizeClass.BumpIsNext | freelist.c:77-92 | the closed form of every object's address: bumping the address of object n of a class gives that of object n + 1, and the page is never filled exactly (the bof == 0 case is never reached) |
| SizeClass.PlacesInNumbers | freelist.c:77-92 | the closed form in numbers: object n of class t lies at (t + 8(n/k))·4096 + 16 + (n mod k)·16·2^t with k = 253, 126, 62, 30, 14, 6, 2, 1 |
| SizeClass.OffsetBounds | freelist.c:77-92 | every canonical object lies inside one page, past the 16-byte header, at a multiple of its size from there |
| SizeClass.CanonicalDisjoint | freelist.c:20-25 | two different canonical objects, of any classes, share no byte of the backing file |
| SizeClass.InsideDataFile | allocator.c:24 | object n of class t lies inside the 2^40 bytes of the data file if and only if n < 2^25·k |
| Memory.DecodeEncode | freelist.c:34-37 | a word that fits is read back as it was stored |
| Memory.EncodeDecode | freelist.c:34-37 | every n bytes are the word they spell, so a load determines the bytes |
| Heap.FreeSmallWF | allocator.c:225-256 | freeing a small object keeps well-formedness: bijection of pages and objects, eight linked duplicate-free stacks of exactly the dead objects, disjoint large objects |
| Heap.ListPopWF | freelist.c:93-97 | so does taking the top of a list |
| Heap.FreshPopWF | freelist.c:48-92 | so does a fresh object on the page at high_vaddr |
| Heap.MallocBigWF | allocator.c:105-144 | so does a large allocation |
| Heap.FreeBigWF | allocator.c:218-223 | so does unmapping a large object |
| Runs.BlocksDisjoint | allocator.c:152-173 | any two live blocks are disjoint |
| Runs.LiveByteInBlock | allocator.c:179-193 | the live bytes are exactly the bytes of the blocks, and the start found for a byte is that of the only block that holds it |
| Runs.BlockInsidePages | allocator.c:111-143 | every byte of a live block is in a mapped page of its own object and past the header |
| Runs.WalkReachesStart | allocator.c:182-185 | the walk down reaches the first page if and only if no page after the first, up to the start of the walk, begins with the magic word |
| Runs.WalkStopExact | allocator.c:182-185 | the walk stops at page k exactly when k is the last page, from its start down, whose first word is 0xC001BE9, or the first page and there is none |
| Safety.StepGood | allocator.c:152-257 | every legal malloc, free or client write, in any order, keeps all invariants and the closed form of every object's place |
| Safety.MallocBlocks | allocator.c:152-173 | malloc adds exactly one block, where no block was; all others keep their bytes; up to 2048 bytes it is of 16 bytes or of less than twice the request, above it ends with a page, leaves 16 bytes at its start for the header and is longer than the request by 1 to 4096 bytes |
| Safety.MallocSplits | allocator.c:158-162 | a request gets an address from 0xFFFF000000 on, among the large objects, if and only if no class holds it, that is, above 2048 bytes |
| Safety.MallocAligned | freelist.c:77-92 | malloc returns multiples of 16 |
| Safety.FreeBlocks | allocator.c:199-257 | free through any pointer into a live block removes exactly that block |
| Safety.WriteBlocks | allocator.c:146-151 | a client write inside a block changes that byte of that block and nothing else |
| RunSafety.NeverMappedAgain | allocator.c:218-253 | once an object is freed, no page it occupied is mapped after any continuation of the run, and no later block has a byte there |
| RunSafety.FreedBytesGone | allocator.c:218-253 | the same by bytes: wherever the freed block had one, no page is mapped after any continuation |
| RunSafety.PrivateContents | allocator.c:152-257 | over any run, a block that is not freed holds its old bytes changed by the writes aimed at it and by nothing else |
| RunSafety.LivePlusFree | freelist.c:93-97 | in each class, live objects and free-list entries together are the objects ever issued |
| RunSafety.HighWater | freelist.c:48-92 | after any run the number of objects issued in a class is the larger of what it was and the peak number simultaneously live in the run |
| RunSafety.HighWaterFromStart | freelist.c:48-92 | from the start it is exactly the peak |
| RunSafety.AddressAccount | allocator.c:130-249 | high_vaddr moves one page per fresh object and per small free, large_obj_next_page by the pages of every large request, mapped small pages are the objects issued |
| RunSafety.RetiredCount | allocator.c:249-253 | the small pages below high_vaddr are the mapped and the retired ones, and the retired ones number the small frees |
| Reuse.NewIsZero | freelist.c:48-75 | a large block, and a small one when no object of its class is free, is on the next page of its range and all its bytes are zero |
| Reuse.LastFreedFirst | freelist.c:29-38 | from any state: right after a small free, a request of that class gets the same object back, on the page that was high_vaddr and at the same place in it, every byte as before but the first eight, which hold the address the class would have given out next before the free, or NULL |
| Layout.LinkStep | freelist.c:34-37 | storing the old top in the moved object gives exactly the bytes of a freed object and disturbs no other page |
| Layout.MagicRead | allocator.c:182-185 | in a page of a finished large object the first word is the magic word exactly at its first page or where the client's bytes spell it, whatever another thread is in the middle of |
| Machine.RepFreshPop | freelist.c:48-92 | the mmap, header and counter steps of a fresh pop lead from a represented heap to the represented next one, and the pointer is the object's address |
| Machine.RepFreeSmall | allocator.c:225-253 | the mremap, link and counter steps of a small free lead to the represented heap without the object |
| Machine.RepMallocBig | allocator.c:111-143 | the mmap, magic word and page count of a large allocation lead to the represented heap with the object |
| Nuaf.Allocator.constructor | freelist.c:20-25 | the initialised globals represent the empty heap |
| Nuaf.Allocator.FreelistPop | freelist.c:41-100 | from every valid state, freelist_pop is the abstract pop of the request's class, in state and result |
| Nuaf.Allocator.FreelistPush | freelist.c:29-38 | the object goes on top of the list that its page header names, linked to the old top; nothing else changes |
| Nuaf.Allocator.XxMallocBig | allocator.c:105-144 | xxmalloc_big is the abstract large allocation, in state and result; the pointer is 16 bytes past the old large_obj_next_page, and the new one is a multiple of 4096 that lies 1 to 4096 bytes past the request's end |
| Nuaf.Allocator.XxMalloc | allocator.c:152-173 | xxmalloc is the abstract malloc, with a result among the small objects if and only if the request is at most 2048 bytes |
| Nuaf.Allocator.WalkDown | allocator.c:182-185 | the walk (this loop and the equal one at 272-275) terminates, reads only mapped pages of the object, and stops at the page where WalkReachesStart says |
| Nuaf.Allocator.XxMallocUsableSize | allocator.c:264-286 | for every byte of a small object the size of its class; for a large one numPages·4096 − 16 unless the walk is led astray; 0 for NULL |
| Nuaf.Allocator.GetObjStart | allocator.c:179-193 | from any pointer into a small object exactly its start, from a large one the page where the walk stops |
| Nuaf.Allocator.XxFree | allocator.c:199-257 | xxfree through any pointer the discipline allows is the abstract free of the object it points into |
| Nuaf.Allocator.ClientWrite | allocator.c:146-151 | a store through a pointer into a live object is mapped and is the abstract write |
| Nuaf.Allocator.ClientRead | allocator.c:146-151 | a load through such a pointer is mapped and gives that byte of the block |
| Views.MappedExactly | allocator.c:218-253 | the mapped pages are exactly those of the issued small objects and the live large ones; retired pages are unmapped |
| Views.CanonicalBijection | freelist.c:50-91 | mapped small pages and canonical objects ever issued are in bijection through the backing file, and no two of them overlap there |
| Views.ShowsCanonical | freelist.c:50-91 | each page is backed by the canonical page of its object and shows it at the same in-page offset, inside the data file |
| Views.FreeListChain | freelist.c:93-97 | following links in memory from top_of_stack visits the free objects of the class in stack order and meets NULL after exactly as many links |
| Views.ChainNode | freelist.c:29-38 | every entry met is mapped, dead, has the list's class in its page header and the next entry in its first word |
| Views.ChainsDisjoint | freelist.c:29-38 | no object is on two lists or twice on one; no live object is on any |
| Views.InteriorPointer | allocator.c:179-187 | both walks find the first page if and only if no page in between begins with the magic word; from the first page, always |
| Views.SizeContract | allocator.c:264-286 | for every request below 2^63 and every run that does not free the block: the usable size holds the request; if some class holds it, it is the least power of two from 16 on that does; otherwise it is longer by 1 to 4096 bytes and rounds up to exactly the pages mapped |
| Bits.PowerTest | wrapper.h:171-172 | the mask test accepts exactly the powers of two |
| Bits.AndMask | wrapper.h:205 | masking with 2^k − 1 is the remainder |
| Bits.AndClear | wrapper.h:212 | masking with its complement clears the remainder |
| Wrapper.Malloc | wrapper.h:134-141 | NULL exactly from 2^63 on, and then no change, else the abstract malloc |
| Wrapper.OverflowTest | wrapper.h:145-148 | calloc's division test refuses exactly the products that do not fit 64 bits |
| Wrapper.Calloc | wrapper.h:143-155 | NULL if and only if the true product is 2^63 or more; else the block malloc would have given, with the bytes asked for zero, also when it came off a free list with a link in it, and the others as malloc left them; the heap after is that of the run malloc, then a zero to each byte |
| Wrapper.Realloc | wrapper.h:247-287 | from any pointer that leads back to its block and whose copy stays inside, case by case, the run of operations the call is: none, malloc, free, malloc and free of what it gave when that is as long as the old block, or malloc, the writes of the bytes from the pointer on up to the smaller size, and free of the old block; what comes back, exactly when NULL, and that a new block begins with those bytes; every other block untouched; the pages of the old object, or else of the scratch block, retired; and exactly when the result holds sz bytes |
| Wrapper.ReallocHolds | wrapper.h:270-286 | what comes back holds the bytes asked for if and only if the block moved or the pointer has that many behind it |
| Wrapper.CopyInsideWhen | wrapper.h:265-279 | the copy stays inside the block from its start always, and from an adjusted pointer, when there is a copy, if and only if sz bytes lie between the pointer and the block's end |
| Wrapper.InteriorFacts | wrapper.h:230-233 | the usable size of any pointer into a block that leads back to its start is the length of the block |
| Wrapper.Replace | wrapper.h:269-286 | the two ways realloc ends: scratch block given back, or bytes moved over and the old block freed |
| Wrapper.ShortcutTest | wrapper.h:205 | for a power of two the shortcut test is "pointer below the alignment" |
| Wrapper.AlignUpIsRoundUp | wrapper.h:212 | the mask expression is arithmetic rounding up |
| Wrapper.Memalign | wrapper.h:187-215 | exactly when NULL comes back; for a power of two that is 8 or above the address malloc would return next, just that malloc; for any other, the run malloc, free of what it gave, malloc of size + 2·alignment unless that is 2^63 or more, every page of the first block retired, and the pointer the first multiple of the alignment in the last; always into one new block, with size bytes from it on, that can be freed through it; and aligned if and only if the alignment is 8 or at most that first address |
| Wrapper.StillRetired | wrapper.h:129-287 | pages retired by one call of the family stay retired through every further run |
| Wrapper.AddressFloor | allocator.c:39-40 | malloc never returns an address below 2^32, so memalign aligns for every power of two up to there |
| Wrapper.MemalignThenFree | wrapper.h:187-215 | freeing what memalign returned leaves the client's blocks as before memalign |
| Wrapper.PosixMemalign | wrapper.h:165-183 | 22 (EINVAL) exactly for non-powers of two, 12 (ENOMEM) exactly when memory is refused, both with no block changed; else the pointer memalign returns, by the same run |
| Wrapper.AlignedAlloc | wrapper.h:217-228 | as memalign for the size rounded up in 64 bits; what it returns holds the size asked for if and only if the rounding does not wrap |
| Wrapper.WrapIsZero | wrapper.h:226 | for a power of two the rounded size either fits or wraps to exactly 0, and then the request is at least 2^63 |
| Witnesses.MemalignUnaligned | wrapper.h:205-208 | the result of memalign(2^40, 100) as the first call, with room for it, is not NULL and not aligned |
| Witnesses.ReallocLosesBlock | wrapper.h:267-286 | after the run that is realloc of any block to 2^63 bytes, with result NULL, the block is gone and its pages are retired |
| Witnesses.ReallocFails | wrapper.h:267-286 | the same from the start: the block of malloc(100) is there in the heap between the calls and not after the run of realloc |
| Witnesses.AdjustedPointer | wrapper.h:211-213 | memalign(64, 100) as the first call returns a pointer 48 bytes into a block of 256 |
| Witnesses.ReallocCopiesPast | wrapper.h:278-279 | realloc of that pointer to 300 bytes would copy past its block |
| Witnesses.ReallocTooShort | wrapper.h:270-275 | realloc of that pointer to 250 bytes returns it, with fewer than 250 bytes behind it in the heap after the run |
| Witnesses.AlignedAllocTooSmall | wrapper.h:226-227 | the result of aligned_alloc(16, 2^64 − 1) as the first call is not NULL and does not hold that many bytes in the heap after the call's run |
| Witnesses.WritesLand | allocator.c:146-151 | byte writes along a live large object are a legal run and leave it with those bytes |
| Witnesses.MagicLeadsAstray | allocator.c:270-278 | a legal run from the start, malloc(5000) and eight writes inside the block, after which a walk from inside it does not find its first page |
| Threads.ExplainsSnoc | allocator.c:152-257 | an operation that takes effect extends the sequential explanation of what happened so far |
| Threads.LocalFrame | allocator.c:179-257 | what a thread relies on between its steps survives every step that leaves its object and, if it holds g_m, the lists alone |
| ThreadSafety.StepKeeps | allocator.c:152-257 | an operation changes no live object but the one it works on |
| ThreadSteps.MyHeader | allocator.c:213-216 | the header read outside the lock is mapped and gives exactly the start of the object being freed, whatever the other threads are doing |
| ThreadSteps.WalkLook | allocator.c:182-185 | each look of a walk outside the lock is mapped, inside the thread's own finished object, and recognises exactly its first page |
| ThreadSteps.FindingStarts | allocator.c:199-218 | a pointer the client may free leads into an object whose header is finished |
| ThreadMemory.StepSafe | allocator.c:105-296 | every step of every thread, in every interleaving: no fault, the invariant again, and nothing another thread relies on has changed |
| ThreadMemory.Popped | allocator.c:164-169 | the pop takes effect under g_m with the result the sequential allocator would give |
| ThreadMemory.Freed | allocator.c:225-255 | a small free takes effect under g_m |
| ThreadMemory.Grown | allocator.c:111-132 | a large allocation takes effect under g_big_obj_m, its header still unfinished |
| ThreadRuns.StartInv | allocator.c:61-101 | the initial state with any threads satisfies the invariant |
| ThreadRuns.PlaySafe | allocator.c:105-296 | no schedule makes a thread fault, and the invariant holds throughout |
| ThreadRuns.LooseBytes | allocator.c:146-151 | at any moment of any execution a byte of a live object that nobody is freeing or making is mapped and is that byte of its block |
| Histories.TraceCalls | allocator.c:152-257 | the trace of a schedule, with the moments of effect in it, extends the schedule's history of calls and returns |
| Histories.TraceLog | allocator.c:152-257 | the operations logged are those of the trace, in order |
| Histories.EachCallOnce | allocator.c:152-257 | in every execution each thread's part of the trace is its calls in order: each has one effect, as the operation asked for, between its invocation and its return, and returns that effect's result; the last may be unfinished |
| Histories.TraceHonest | allocator.c:199-257 | just before each free in the sequential run, the pointer its caller passed is in the live object that the free names |
| Histories.Linearizable | allocator.c:111-169 | every interleaving's history extends to such a trace whose effects in order are a legal sequential run from the empty heap with the same results, each free being of the object its caller's pointer is in, and memory at the end shows that run's heap up to the calls under way |
| Histories.LinearizableAtRest | allocator.c:105-296 | with every thread idle, memory and globals are exactly what that sequential run leaves, and every call has had its effect and its return |
| ThreadRuns.Quiescent | allocator.c:105-296 | with no thread inside, memory and globals are what the sequential allocator leaves |
| ThreadRuns.SmallHeaderStable | allocator.c:213-216 | no step of another thread changes the page header that a free is reading outside the lock |
| ThreadRuns.LargePagesStable | allocator.c:179-223 | no step of another thread changes a byte of any page of a large object being walked or about to be unmapped |
| ThreadRuns.WalkInside | allocator.c:134-138 | no walk ever looks at a region whose header is unfinished |
| ThreadRuns.NoUseAfterFree | allocator.c:218-253 | from the step in which the free of an object takes effect, none of its pages is mapped, in every continuation by all the threads |
| ThreadRuns.PlayRetired | allocator.c:218-253 | a page retired at any moment of any execution is unmapped after every continuation |
| ThreadRuns.WaitsFor | allocator.c:288-296 | who waits for which mutex: nobody with g_big_obj_m in hand waits for anything |
| ThreadRuns.NoDeadlock | allocator.c:288-296 | whenever a thread is inside the allocator, some thread inside it can move |
| Locks.LockHasBoth | allocator.c:288-291 | in every execution, a call of xxmalloc_lock that is over has held both mutexes at some moment since it began |
| Locks.LockExcludes | allocator.c:288-291 | while a thread has both mutexes, no step of another one allocates anything or frees a small object |
| Locks.WorksUnlocked | allocator.c:132-140 | headers of large objects are written, objects being freed are looked for, and large ones unmapped, with neither mutex held |
| ThreadRuns.Drains | allocator.c:182-187 | once calls stop coming, every schedule of those under way is finite, by a bound on the steps left |
| Barrier.InitInv | CMA_benchmarks/linux-scalability/ptbarrier.h:22-29 | the initialised barrier satisfies the invariant for every needed ≥ 1 and every number of threads |
| Barrier.StepInv | CMA_benchmarks/linux-scalability/ptbarrier.h:38-50 | every step of every thread keeps it |
| Barrier.FreeMutex | CMA_benchmarks/linux-scalability/ptbarrier.h:40-48 | in every reachable state with the mutex free, called is the number of threads asleep and is below needed |
| Barrier.NoEarlyReturn | CMA_benchmarks/linux-scalability/ptbarrier.h:42-49 | nobody is woken from or leaves round r, counted from 0, before (r+1)·needed arrivals |
| Barrier.WholeRounds | CMA_benchmarks/linux-scalability/ptbarrier.h:38-50 | by the calls and returns alone, in every execution: after c calls at most needed·(c / needed) have returned, and when nobody can move, exactly that many |
| Barrier.Phases | CMA_benchmarks/linux-scalability/ptbarrier.h:38-50 | with as many threads as needed, in every execution: nobody has returned more often than any other thread has called, nor more than once oftener than any other has returned |
| Barrier.CallEnds | CMA_benchmarks/linux-scalability/ptbarrier.h:48-49 | a call ends only by the release of the mutex behind the barrier |
| Barrier.WhoIsBlocked | CMA_benchmarks/linux-scalability/ptbarrier.h:40-47 | exactly sleepers and threads waiting for a held mutex cannot move; a thread outside can always call |
| Barrier.BroadcastOwnRound | CMA_benchmarks/linux-scalability/ptbarrier.h:42-44 | a broadcast wakes exactly the sleepers of its own round, leaves none behind and moves nobody who came back early |
| Barrier.SleepsOn | CMA_benchmarks/linux-scalability/ptbarrier.h:45-47 | no other step wakes a sleeper |
| Barrier.Drains | CMA_benchmarks/linux-scalability/ptbarrier.h:38-50 | once calls stop coming, every schedule is finite |
| Barrier.OnlyUnfinishedRoundWaits | CMA_benchmarks/linux-scalability/ptbarrier.h:38-50 | when nobody can move, exactly the arrivals mod needed threads of the unfinished round sleep and every call of every earlier round has returned |
| Barrier.FullRoundsReturn | CMA_benchmarks/linux-scalability/ptbarrier.h:38-50 | if the arrivals fill their rounds, everybody returns |
| Lran2.Generator.constructor | CMA_benchmarks/larson/larson.cpp:712-726 | for every seed, also negative ones, the state is 97 consecutive values of the orbit in the table and the next one in x and y |
| Lran2.SeedSymmetric | CMA_benchmarks/larson/larson.cpp:718-723 | seeds at the same distance d on either side of 150889 give the same state, whose table begins with (1366·(d mod 714025) + 150889) mod 714025 |
| Lran2.Generator.Next | CMA_benchmarks/larson/larson.cpp:728-737 | a call returns the table entry at the last output mod 97, puts (1366·x + 150889) mod 714025 there and in x, and keeps every field in range |
| Lran2.ChosenByLast | CMA_benchmarks/larson/larson.cpp:731-736 | over n calls: output n is the table entry at output n−1 mod 97, the first at y mod 97, and the n-th value generated takes its place |
| Lran2.Conservation | CMA_benchmarks/larson/larson.cpp:728-737 | outputs and table are together, as a multiset, the first table and the values generated since |
| Lran2.SumDivides | CMA_benchmarks/larson/larson.cpp:704-706 | 714025 divides 1 + 1366 + ... + 1366^(n-1) if and only if it divides n |
| Lran2.ClosedForm | CMA_benchmarks/larson/larson.cpp:734 | n steps from x in one formula |
| Lran2.FullPeriod | CMA_benchmarks/larson/larson.cpp:734 | from every x, n steps lead back to x if and only if 714025 divides n |
| Lran2.OutputsDistinct | CMA_benchmarks/larson/larson.cpp:712-737 | for every seed, the first 713928 outputs are pairwise distinct, lie in [0, 714025), and leave out the initial y |

## Left out

- Kernel failure paths: failed `mmap` and `mremap` and the retry loop (`allocator.c:122-126`, `228-247`); the three kernel calls are total operations on the page table.
- Process lifecycle: constructor, destructor, signal handler, backing file creation, fork (`allocator.c:47-101`); runs begin after `freelist_init`.
- Foreign mappings: both address ranges belong to the allocator.
- `ceil(log2(n))` in floating point (`freelist.c:45`) is the exact integer function `Arith.CeilLog2`.
- Clients that break the discipline: double frees, frees and writes through dangling pointers. That a dangling pointer faults is `Views.MappedExactly` with `RunSafety.NeverMappedAgain`.
- `num_mappings` under concurrency (`allocator.c:127`, `222`, `freelist.c:71`): it is updated under different mutexes or none, so only the sequential class has it.
- `xxmalloc_usable_size` called by a client thread is not a step of the concurrent model, nor is a client read, of which `ThreadRuns.LooseBytes` says what it would see; the reads that `xxfree` makes outside the mutexes are steps.
- Threads.Exec: `CallFree` carries the start of the object of its pointer as an auxiliary argument, which never decides a branch; `Histories.TraceHonest` ties it to the pointer.
- Holders of both mutexes (`allocator.c:288-296`) do nothing in between but release them.
- Memory access between threads is sequentially consistent.
- Nuaf.Allocator.WalkDown: stands for two equal loops (`allocator.c:182-185`, `272-275`).
- Nuaf.Allocator.XxMallocUsableSize: on a pointer that `memalign` adjusted it is the size of the whole object, as in the code (`allocator.c:276-283`), not of the rest from the pointer on.
- Wrapper.Memalign: `size + 2 * alignment` is below 2^64 for every size and alignment that get there (`Wrapper.NoOverflow`), so its wrap-around is not a case.
- Wrapper.AlignedAlloc: alignment 0 divides by zero in the code (`wrapper.h:226`) and is excluded.
- Wrapper.Realloc: of the two answers for size 0, the one for macOS is not modelled; a pointer from which `memcpy` would read past the block (`Wrapper.CopyInside`) is excluded, since what that reads is not defined.
- Barrier.StepInv: no spurious wakeups; return value, attributes and destruction are not modelled.
- Lran2.Generator.constructor: seeds so low that `IC - seed` overflows a `long` are not distinguished.
- Benchmark drivers, timers, `strdup`, `getcwd`, `mallinfo`, `operator new` and the other stubs of the wrapper would add only easy members.
