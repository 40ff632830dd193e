# Ralloc and Makalu in Dafny

Models of the persistent allocators in this repository, with proofs about them.

- **Ralloc, the lock-free allocator** (`Allocator*.dfy`, `TCacheBin.dfy`, `Layout.dfy`). A step machine: one
  program counter per thread, one step per load, CAS or link write that other threads can see. Any thread may
  take the next step and a weak CAS may fail for no reason. `AllocatorState` holds the data structures,
  `AllocatorSteps` the steps, `AllocatorInvariant` what every step keeps and what one thread may rely on while
  the others run. `AllocatorStable`, `AllocatorFrames`, `AllocatorTransfers`, `AllocatorFill`, `AllocatorFree`
  and `AllocatorLarge` prove it step by step. `AllocatorSafety`, `AllocatorOwnership`, `AllocatorLists`,
  `AllocatorDescriptors`, `AllocatorCalls`, `AllocatorAnswers`, `AllocatorProgress` and `Layout` state what follows
  for whole runs: what each call returns and what it leaves behind, told from the calls, and when a thread that runs
  alone comes to an end.
- **Ralloc's crash recovery** (`Recovery*.dfy`). Marking with two parallel stacks, and the sweep that rebuilds all
  transient metadata. What the sweep leaves satisfies the machine's invariant. `Layout.RecoverAfterRun` puts a run, a
  crash, marking and sweeping together, `Layout.EveryEpochStarts` any number of them in a row.
- **Makalu's undo log** (`UndoLog*.dfy`, `FlushTable.dfy`). Volatile and persistent memory, lines written back at
  any moment, clwb, fences, crashes anywhere and also inside recovery.
- **Makalu's block allocator, header index and header cache** (`Makalu*.dfy`).
- **The array queue and the array stack with helping** (`ArrayQueue.dfy`, `ArrayStack.dfy`; `ArrayCalls.dfy` has what
  it means for a call to have been answered).
- **The arithmetic underneath** (`SizeClasses.dfy`, `Pointers.dfy`, `RegionGrowth.dfy`).

Fields whose comment says "auxiliary" record history; no step reads them to decide what to do. The results about
whole runs are stated again in terms of the concrete memory alone: blocks are found by following links from caches,
anchors and locals, lists by following next pointers, and what the application holds by what its calls returned and
freed.

## Assumptions

- Atomics are sequentially consistent. Counters against ABA are unbounded.
- One call at a time per thread; only memory that malloc returned is freed or written, and it is freed once.
- Every small superblock has at least two blocks and one expansion brings at least two superblocks (the size
  classes give at least four, the expansion 16384).
- The superblock region begins at a multiple of the superblock size (`Layout.LookupIff` says what happens otherwise).
- A large allocation is smaller than 4 GiB, because `block_size` has 32 bits (`Layout.LargeSizeIff` says what happens
  otherwise).
- At recovery, heap, maxcount, superblock and block_size are intact in the descriptors of superblocks in which the
  application holds a block, and in those of large allocations.
- In the undo log a logged value lies inside one cache line and a transaction makes fewer than 64 log entries. The log
  version is unbounded.
- Makalu's heap lies below address 2^63, and its block allocator is online.
- The array queue has at least two slots.
- New persistent memory reads zero: the flush of the new undo log enters only its first line (see below), so its other
  entries are taken to be zero in persistent memory already.

## Where the code and its comments differ

- `src/BaseMeta.cpp:796-797` allows a large allocation to be pointed at in its middle. The sweep compares marks with
  one superblock at a time. If the allocation is also marked in its first superblock, the sweep steps over the rest of
  it, never passes the mark in the middle and misses every mark after it (`RecoveryCursor.InteriorMarkLoses`). If it is
  pointed at only in the middle, the mark is passed, but the allocation is freed whole
  (`RecoveryCursor.InteriorOnlyFrees`). `RecoveryCursor.InteriorIff` gives the exact condition under which all marks
  are honoured, `RecoveryCursor.EveryMarkMet` that under which all are met, `Recovery.SweptLarge` what becomes of a
  large allocation, `Recovery.MissedIsFreed` what becomes of blocks whose marks are missed, and `RecoverySweep.Sweep`
  what is rebuilt in any case.
- `src/BaseMeta.hpp:255` keeps block_size in 32 bits, and `src/BaseMeta.cpp:668` stores sizes of any length in it.
  `Layout.LargeSizeIff` gives the exact condition under which such an allocation is freed and swept whole.
- `ext/makalu_alloc/src/makalu_persistent.c:93-101` loops over the lines of a range but enters the first line each
  time. `FlushTable.Table.Add` says exactly when that is enough, `FlushTable.FlushNewLog` that it is not for the range
  at line 346.
- `src/BaseMeta.cpp:602-605` goes round again without reading the head of avail_sb again. `AllocatorProgress.SpinsIff`
  says exactly when a round changes nothing, `AllocatorProgress.SpinIsReachable` that runs lead there, and
  `AllocatorProgress.EndsAloneIff` that nothing else keeps a thread that runs alone from finishing its call.
- The marker filters each block with the type it is first reached with. If filters disagree about the children of a
  block, what is marked may depend on the order (`RecoveryMark.OrderMatters` has an instance). If all types under which
  the roots lead to a block find the same children in it, it does not (`RecoveryMark.ReachableUnique`).

## Model

| member | source | states |
|---|---|---|
| AllocatorSafety.StepKeepsInv | src/BaseMeta.cpp:310-721 | any step of any thread, and any write by the application to a block it holds, keeps the invariant of the heap, the lists and every thread |
| AllocatorSafety.RunKeepsInv | src/BaseMeta.cpp:310-721 | every state of every interleaving that begins in such a state satisfies that invariant |
| AllocatorSafety.ReachableInv | src/BaseMeta.cpp:184-225 | so does every state of every interleaving from the constructed heap |
| AllocatorOwnership.ExactlyOneHolder | src/BaseMeta.cpp:310-551 | in every state of every run, from the constructed heap or from a recovered one, each block of each small superblock in use has exactly one holder among the application, one cache, one chain in flight, a free in progress and the superblock's own chain, all found by following links; no other block has one |
| AllocatorOwnership.LiveIsApp | src/BaseMeta.cpp:659-721 | holding a block means that malloc returned it along the run, or that it was held at its beginning, and free has not been given it since |
| AllocatorOwnership.MallocReturnsFresh | src/BaseMeta.cpp:686-694 | what malloc returns is a block of the class asked for that the application does not hold |
| AllocatorOwnership.AppChange | src/BaseMeta.cpp:659-721 | a step gives the application exactly what malloc returns and takes exactly what is freed |
| AllocatorOwnership.CacheWalk | src/TCache.cpp:19-55 | following the links of a cache meets exactly its count of distinct blocks |
| AllocatorOwnership.ChainWalk | src/BaseMeta.hpp:230-235 | following the links from an anchor meets exactly the free blocks, as many as the anchor stands for; an EMPTY anchor stores one too few; a FULL one is exactly one without free blocks, and its avail is past the last block |
| AllocatorOwnership.SpliceIsExact | src/BaseMeta.cpp:338-407 | whenever the untagged anchor CAS of flush_cache succeeds, the chain from the new avail is the returned blocks followed by the old chain, all distinct and in the superblock |
| AllocatorLists.PopIsCurrent | src/BaseMeta.cpp:435-448 | if a pop's CAS succeeds, the next pointer it read earlier is the current successor of the current top, although only pushes bump the counter and descriptors are reused |
| AllocatorLists.StacksAreLifo | src/BaseMeta.cpp:424-448 | any step leaves each list, as read from memory, unchanged, or pops its top into that thread's hand, or pushes on top what the thread held |
| AllocatorLists.ListsUnique | src/BaseMeta.cpp:554-571 | head and next pointers determine the list |
| AllocatorLists.OneSpot | src/BaseMeta.cpp:554-636 | a descriptor is on at most one list or in at most one thread's hand, never both |
| AllocatorLists.ListedHaveRoom | src/BaseMeta.cpp:398-406 | a listed descriptor is PARTIAL or EMPTY, has free blocks and is on the list of its own class |
| AllocatorLists.RetiredOnce | src/BaseMeta.cpp:377-406 | along every run a superblock is retired once for each time it becomes empty; one retirement is outstanding exactly while it is in use and EMPTY |
| AllocatorLists.NeverStuck | src/BaseMeta.cpp:592-622 | a thread stops only because the region cannot grow: an empty cache is never popped and a partial superblock always has its heap |
| AllocatorLists.FlushAttempt | src/BaseMeta.cpp:364-390 | on every attempt of flush_cache, also one whose CAS will fail, the count of the anchor read is below maxcount |
| AllocatorLists.FlushChecks | src/BaseMeta.cpp:392-396 | the assertions after the anchor CAS of flush_cache hold when it has succeeded |
| AllocatorLists.TakeAttempt | src/BaseMeta.cpp:459-503 | on every attempt of malloc_from_partial that does not retire the superblock, also one whose CAS will fail, the anchor read is PARTIAL, and the cache is empty |
| AllocatorLists.TakeChecks | src/BaseMeta.cpp:486-497 | the assertion after the anchor CAS of malloc_from_partial holds when it has succeeded |
| AllocatorLists.PushCheck | src/BaseMeta.cpp:424-433 | no attempt of heap_push_partial, also one whose CAS will fail, finds its descriptor on top already |
| AllocatorLists.NeverUsed | src/BaseMeta.cpp:220-222 | superblock 0 is skipped and stays unused for ever |
| AllocatorDescriptors.FreeStaysBlank | src/BaseMeta.cpp:553-571 | in every reachable state the descriptors of all superblocks on avail_sb are as constructed, but for their links |
| AllocatorDescriptors.RunKeepsBlank | src/BaseMeta.cpp:553-636 | every interleaving keeps that, together with the part of it that each thread has in hand, also one that begins after a recovery |
| AllocatorProgress.EndsAloneIff | src/BaseMeta.cpp:310-721 | a thread that runs alone finishes its call, within a bound that is computed from its state, if and only if it is not going round in small_sb_alloc |
| AllocatorProgress.SpinsIff | src/BaseMeta.cpp:581-605 | a thread in small_sb_alloc that has read a null head and then runs alone for a round is back where it was if and only if avail_sb is not empty by now |
| AllocatorProgress.SpinsForever | src/BaseMeta.cpp:581-605 | so it makes no progress in any number of rounds until another thread empties avail_sb |
| AllocatorProgress.SpinIsReachable | src/BaseMeta.cpp:572-624 | from every constructed heap with room for one more superblock a legal run leads to such a thread |
| AllocatorCalls.ServesLastCall | src/BaseMeta.cpp:659-694 | whatever a thread does inside malloc is for the class or the number of superblocks its last call asked for |
| AllocatorCalls.LargeChange | src/BaseMeta.cpp:659-721 | a large allocation appears exactly when malloc returns it, with as many superblocks as asked for, and disappears exactly when it is freed |
| AllocatorCalls.FreeTellsKind | src/BaseMeta.cpp:695-711 | for whatever the application holds, the class that do_free reads in the descriptor is 0 exactly if it is a large allocation, and block_size is then its extent; otherwise it is the class of the block's superblock |
| AllocatorCalls.HeldServes | src/BaseMeta.cpp:659-721 | along every run, what a call returned, in this run or before an earlier crash, and no call has freed since is still of the class or size that call asked for |
| AllocatorCalls.ServesHeld | src/BaseMeta.cpp:659-721 | and the memory holds nothing else for the application |
| AllocatorAnswers.CallsAnswered | src/BaseMeta.cpp:659-721 | under any interleaving a malloc that has returned has given the application exactly one allocation since it was called, small or large as asked for; one that has not returned, and any free or flush, has given it nothing |
| AllocatorAnswers.AnswerFits | src/BaseMeta.cpp:659-694 | that allocation is of the class, or has the number of superblocks, that the call asked for |
| AllocatorAnswers.AnswerIsGain | src/BaseMeta.cpp:659-721 | an allocation is given by a step exactly if the application does not hold it before and holds it afterwards |
| AllocatorAnswers.CachesLeft | src/BaseMeta.cpp:683-721 | what a returned call leaves in the caches of its thread, read from memory and compared with what was there when it was called: malloc takes the first block, or fills an empty cache from one superblock and takes the first; free puts its block in front, of an emptied cache if it was full; flush leaves it empty; other classes stay as they were |
| AllocatorAnswers.NewUseOnlyIfNeeded | src/BaseMeta.cpp:310-323 | a superblock is put to new use for a class only if, at a moment of that call, the partial list of the class was empty |
| AllocatorAnswers.GrowsOnlyIfNeeded | src/BaseMeta.cpp:581-622 | the region grows for a small request only if at moments of that call the partial list of its class and avail_sb were empty |
| AllocatorAnswers.PicksLongest | src/BaseMeta.cpp:338-362 | what flush_cache takes out in one go is the longest run of blocks of one superblock at the front of the cache, and what it leaves is the rest |
| AllocatorAnswers.RetiredBy | src/BaseMeta.cpp:377-406 | a superblock that becomes empty is retired at once, by the thread that emptied it, exactly if it was FULL; otherwise it stays on its list until a thread that has popped it finds it EMPTY and retires it |
| AllocatorAnswers.OnlyAppWrites | src/BaseMeta.cpp:310-721 | no step of any thread writes to a block that the application holds |
| AllocatorAnswers.WritesStay | src/BaseMeta.cpp:659-721 | from malloc to free a block holds what the application wrote to it last, under any interleaving |
| Layout.LiveRangesDisjoint | src/BaseMeta.cpp:659-720 | in every state of every run, also after recoveries, the allocations held, small or large, occupy disjoint byte ranges inside the region, past its first superblock |
| Layout.LookupIff | src/BaseMeta.cpp:410-422 | desc_lookup is constant on superblocks and inverted by sb_lookup exactly if the region begins on a superblock boundary |
| Layout.AtLeastRequested | src/BaseMeta.cpp:659-694 | along every run each allocation held is at least as large as the request it answered: of the smallest class that will do, or less than one superblock larger |
| Layout.HeldFromCalls | src/BaseMeta.cpp:659-721 | what the memory marks as held, small or large, is what calls returned and no call has freed since |
| Layout.LargeSizeIff | src/BaseMeta.cpp:659-711 | a large allocation is taken back by free, and stepped over by the sweep, with exactly its superblocks if and only if its bytes fit the 32 bits of block_size; at multiples of 4 GiB the sweep does not advance |
| Layout.DescLookupInverse | src/BaseMeta.cpp:417-422 | the index of a descriptor is recovered from its address |
| TCacheBin.Bin.PushBlock | src/TCache.cpp:19-25 | the block goes in front of the contents |
| TCacheBin.Bin.PushList | src/TCache.cpp:27-35 | an empty cache takes a linked list as its contents |
| TCacheBin.Bin.PopBlock | src/TCache.cpp:37-47 | the first of the contents is returned |
| TCacheBin.Bin.PopList | src/TCache.cpp:49-55 | the first blocks leave, the rest stays |
| RecoveryMark.Collector.Mark | src/BaseMeta.hpp:312-328 | an in-range pointer is marked and, if new, pushed on both stacks; the stacks stay paired, minimality is kept |
| RecoveryMark.Collector.MarkFrom | src/BaseMeta.cpp:756-768 | marking terminates and marks exactly the least set that contains the in-range roots and is closed under children, each block seen as the type of a pointer to which the roots lead, a root by the first pointer to it |
| RecoveryMark.ReachableUnique | src/BaseMeta.hpp:489-499 | if all types under which the roots lead to a block find the same children in it, any two runs, in any order of the roots, mark the same set |
| RecoveryMark.OrderMatters | src/BaseMeta.hpp:312-328 | an instance in which they do not, and two orders of the same roots mark different sets |
| RecoverySweep.Sweep | src/BaseMeta.cpp:773-877 | from the marks it meets, the sweep rebuilds descriptors, chains, partial lists and avail_sb so that the allocator's invariant holds with empty caches, and writes to no block but unmarked ones of live small superblocks |
| RecoverySweep.SweepMarks | src/BaseMeta.cpp:786-815 | the marks of a superblock decide whether it is live, and the unmarked blocks below the last mark are chained |
| RecoverySweep.ThreadFree | src/BaseMeta.cpp:804-810 | a run of unmarked blocks is pushed on the chain, found at their addresses |
| RecoverySweep.FinishSmall | src/BaseMeta.cpp:839-873 | the blocks after the last mark, then FULL or PARTIAL with its list |
| Recovery.SweptFree | src/BaseMeta.cpp:816-822 | a small superblock is on avail_sb, following next_free through memory, exactly if none of its blocks is marked; its descriptor is then blank |
| Recovery.SweptSmall | src/BaseMeta.cpp:839-873 | a marked one is FULL exactly if all its blocks are marked; otherwise it is PARTIAL, on the list of its class as memory has it, and the links from avail give exactly its unmarked blocks, distinct, count many; what persists in its descriptor is kept, the links are reset |
| Recovery.SweptLarge | src/BaseMeta.cpp:793-838 | all superblocks of a large allocation end on avail_sb, as memory has it, or none does: exactly if no mark that the sweep meets lies in the first of them, wherever else it is pointed at |
| Recovery.SweptBig | src/BaseMeta.cpp:824-838 | a live large allocation keeps its extent and what persists in its descriptor; the rest is reset to FULL, on no list |
| Recovery.MissedIsFreed | src/BaseMeta.cpp:793-838 | a small superblock whose marks the sweep does not meet ends on avail_sb, whatever is marked in it |
| Recovery.CrashIsSweepable | src/BaseMeta.cpp:537-542 | a crash in any state that satisfies the invariant, also between putting a superblock to use and flushing its descriptor, leaves what the sweep needs, if the marks are addresses the application held |
| Recovery.MarksAreGood | src/BaseMeta.cpp:756-768 | marking finds only such addresses if the typed pointers to which the roots lead point only to what the application held |
| Recovery.Recover | src/BaseMeta.cpp:773-877 | after the sweep the invariant holds and the application holds exactly the blocks and the large allocations it held before the crash that are marked, of the same classes and sizes and with the contents the crash left; the descriptors of free superblocks are blank |
| Recovery.RecoverFromRoots | src/BaseMeta.cpp:740-877 | marking from the roots, sorting and sweeping end, and the application holds exactly what it held and can still reach |
| Layout.RecoverAfterRun | src/BaseMeta.cpp:740-877 | the same after any run of the allocator with Ralloc's size classes, with what was held told from calls; the next run starts with exactly what could be reached |
| Layout.EveryEpochStarts | src/BaseMeta.cpp:740-877 | after any number of runs, crashes and recoveries the next run starts with exactly the allocations whose calls returned them, that were not freed, and that every recovery since reached, each of the class or size its call asked for |
| RecoveryCursor.InteriorIff | src/BaseMeta.cpp:786-838 | every mark is met and every large allocation that a mark points at is live if and only if no mark lies in superblock 0 or past the first superblock of a large allocation |
| RecoveryCursor.EveryMarkMet | src/BaseMeta.cpp:786-838 | the sweep meets every mark if and only if none lies in superblock 0 or past the first superblock of a live large allocation |
| RecoveryCursor.MetAll | src/BaseMeta.cpp:877-882 | with marks only at the starts of blocks and large allocations the iterator reaches the end |
| RecoveryCursor.MetWhole | src/BaseMeta.cpp:786-838 | if a mark is missed, so are all marks of its superblock |
| RecoveryCursor.InteriorMarkLoses | src/BaseMeta.cpp:793-838 | a large allocation marked at its start and in its middle, and a superblock in use whose mark is not met |
| RecoveryCursor.InteriorOnlyFrees | src/BaseMeta.cpp:793-822 | a large allocation pointed at only in its second superblock: every mark is met and the allocation is freed |
| UndoLogProof.StepKeepsInv | ext/makalu_alloc/src/makalu_persistent.c:151-256 | every step of the program and of the memory system, and every crash, keeps the invariant of log, table and memory |
| UndoLogProof.CrashAtomicity | ext/makalu_alloc/src/makalu_persistent.c:353-382 | whatever ran, whatever reached persistence, wherever it crashed and however often recovery crashed: afterwards, if the version bump was not persistent, each cell that the calls of the transaction logged before any store to it is durably as before the transaction, and otherwise every cell is durably the value that the last store of the transaction was handed |
| UndoLogProof.RecoveryEnds | ext/makalu_alloc/src/makalu_persistent.c:353-382 | wherever the crashes so far have left it, recovery is over within a fixed number of steps once no crash strikes again |
| UndoLogProof.EveryCrashRecovers | ext/makalu_alloc/src/makalu_persistent.c:353-382 | from a crash at any point of any transaction, a recovery exists and is bounded |
| UndoLogProof.OnlyCurrentReplayed | ext/makalu_alloc/src/makalu_persistent.c:353-360 | recovery replays exactly the entries with the current version, never a stale one, and does not read past the log |
| UndoLogProof.LostOnlyUnlogged | ext/makalu_alloc/src/internal_include/makalu_persistent.h:188-193 | a cell loses its protection only by a store, or a wrong log entry, that precedes every entry for it |
| UndoLogProof.LostFromCalls | ext/makalu_alloc/src/internal_include/makalu_persistent.h:188-193 | which cells have lost their protection follows from the calls: exactly those stored to without a log entry, or logged with a value other than the one they held, before any other entry for them |
| UndoLogProof.StoresTakeEffect | ext/makalu_alloc/src/internal_include/makalu_persistent.h:228-260 | as long as there is no crash, a cell holds what the last store that has returned was handed for it, and no value from anywhere else |
| UndoLogProof.CallsReturn | ext/makalu_alloc/src/makalu_persistent.c:151-177 | a call that has returned leaves the machine between transactions exactly if it was the end of one |
| UndoLogProof.CallEnds | ext/makalu_alloc/src/makalu_persistent.c:151-256 | every call returns after a bounded number of its own steps, whatever the memory system does meanwhile |
| UndoLogProof.EndedIsDurable | ext/makalu_alloc/src/makalu_persistent.c:162-164 | a transaction that has ended has left the values of its stores, durably |
| UndoLogProof.AnythingPersists | ext/makalu_alloc/src/makalu_persistent.c:70-103 | the memory may at any moment make any lines, any log entries and the version persistent, as they are, and nothing along with them |
| UndoLogProof.AnyQueuedCompletes | ext/makalu_alloc/src/makalu_persistent.c:70-103 | and any queued write-backs may complete, with what the line held when it was queued |
| UndoLogProof.CrashForgets | ext/makalu_alloc/src/makalu_persistent.c:353-382 | what recovery starts with depends only on what is persistent |
| UndoLogProof.IdleIsDurable | ext/makalu_alloc/src/makalu_persistent.c:162-164 | between transactions everything is persistent |
| UndoLogProof.InitInv | ext/makalu_alloc/src/makalu_persistent.c:340-350 | a new log, all zero in persistent memory, satisfies the invariant |
| FlushTable.Table.Add | ext/makalu_alloc/src/makalu_persistent.c:88-103 | the first line of the range is entered and a displaced line is written back, so no line is forgotten; only the slot of that line is touched; in an empty table every line of the range is covered if and only if it is one line |
| FlushTable.Table.FlushAll | ext/makalu_alloc/src/makalu_persistent.c:70-86 | every waiting line is written back and the table is empty |
| FlushTable.FlushNewLog | ext/makalu_alloc/src/makalu_persistent.c:345-346 | flushing the range of a new log writes back its first line only |
| ArrayQueue.Fifo | old/ArrayQueue.hpp:118-185 | under any interleaving what has been returned followed by what the queue holds is what has been enqueued |
| ArrayQueue.CallsAnswered | old/ArrayQueue.hpp:118-163 | under any interleaving every push that has returned has enqueued its own value exactly once, or reports "full" and the queue held size - 1 elements at a moment of the call; every pop that has returned has dequeued exactly what it returns; a call that has not returned has changed nothing |
| ArrayQueue.EndsAlone | old/ArrayQueue.hpp:118-185 | from any state a thread that runs alone finishes its push or pop within 15 steps |
| ArrayQueue.ContentsInMemory | old/ArrayQueue.hpp:164-185 | the contents are what lies between front and rear in memory: in their slots, or, for the last one before it is finished, in rear |
| ArrayQueue.StepKeepsInv | old/ArrayQueue.hpp:118-185 | every step keeps: rear and front stand for the numbers of operations, and each slot holds the last finished element that went to it |
| ArrayQueue.LateFinishIsNoOp | old/ArrayQueue.hpp:174-185 | a stalled finish_enqueue never overwrites a newer element |
| ArrayQueue.PopReadsFinished | old/ArrayQueue.hpp:157-163 | the slot a pop reads is finished and holds the front element |
| ArrayQueue.EmptyIsHonest | old/ArrayQueue.hpp:159-160 | "empty" is returned only if the queue was empty when this call read rear |
| ArrayQueue.FullIsHonest | old/ArrayQueue.hpp:132-133 | "full" is reported exactly if the queue held size - 1 elements when this call read front |
| ArrayStack.Lifo | old/ArrayStack.hpp:116-155 | under any interleaving the stack holds what a sequential stack holds on which the operations are carried out as they take effect |
| ArrayStack.CallsAnswered | old/ArrayStack.hpp:116-155 | under any interleaving every push that has returned has pushed its own value exactly once, or reports "full" and the stack held size - 1 elements at a moment of the call; every pop that has returned has popped exactly what it returns |
| ArrayStack.EndsAlone | old/ArrayStack.hpp:116-170 | from any state a thread that runs alone finishes its push or pop within 9 steps |
| ArrayStack.PopReturnsTop | old/ArrayStack.hpp:133-155 | a pop returns what the sequential stack would |
| ArrayStack.EmptyIsHonest | old/ArrayStack.hpp:138-139 | "empty" is returned only if the stack was empty when this call read top |
| ArrayStack.NodesBelowFinished | old/ArrayStack.hpp:161-170 | the node at top has top's counter or one less, and every node below is finished and holds its element |
| ArrayStack.NeverRepeats | old/ArrayStack.hpp:116-155 | once a step has changed top, its pair of index and counter never occurs again, whatever follows |
| ArrayStack.LateFinishIsNoOp | old/ArrayStack.hpp:161-170 | a finish for a top that is gone or finished changes nothing |
| MakaluHeap.BlockHeap.NewFree | ext/makalu_alloc/src/makalu_block.c:340-384 | new pages become part of one free block with their free neighbours; tiling, separation, lists and counters stay right and the total grows by the new bytes |
| MakaluHeap.BlockHeap.Free | ext/makalu_alloc/src/makalu_block.c:395-459 | a block in use becomes one free block with its free neighbours, everything else as before; a free block is refused |
| MakaluHeap.BlockHeap.FreeBlockEndingAt | ext/makalu_alloc/src/makalu_block.c:228-253 | finds the free block that ends where a page begins, exactly if there is one |
| MakaluHeap.BlockHeap.RemoveFromFl | ext/makalu_alloc/src/makalu_block.c:264-302 | the state becomes MakaluBlocks.Removed of it |
| MakaluHeap.BlockHeap.AddToFl | ext/makalu_alloc/src/makalu_block.c:304-336 | the state becomes MakaluBlocks.Added of it |
| MakaluLists.RemovedOk | ext/makalu_alloc/src/makalu_block.c:264-302 | removing a block from anywhere in its doubly linked list keeps all lists, tiling and counters right, with that block in hand |
| MakaluLists.AddedOk | ext/makalu_alloc/src/makalu_block.c:304-336 | adding a block in hand without free neighbours completes the invariant |
| MakaluFree.CoalescedOk | ext/makalu_alloc/src/makalu_block.c:426-459 | merging with both neighbours and listing the result gives one free block over exactly their pages and leaves no two free blocks adjacent |
| MakaluHeap.BlockHeap.Take | ext/makalu_alloc/src/makalu_block.c:471-496 | the first part of a free block is put to use with its counts, the remainder is free and listed |
| MakaluHeap.BlockHeap.AllocNth | ext/makalu_alloc/src/makalu_block.c:526-593 | takes the first block of the list that is worth taking: an exact fit, or, if splitting is allowed, one large enough whose successor is not a better fit; fails only if no block of the list suits |
| MakaluHeap.BlockHeap.Alloc | ext/makalu_alloc/src/makalu_block.c:604-637 | returns null if and only if no free block anywhere is large enough; otherwise an exact fit if there is one, else a block of the first list that has one large enough |
| MakaluHeap.ValidMeans | ext/makalu_alloc/src/makalu_block.c:304-336 | blocks do not overlap, free ones are not adjacent, and each is at exactly one place of exactly one list |
| MakaluBlocks.FlIndexMonotone | ext/makalu_alloc/src/makalu_block.c:255-262 | larger blocks are on the same or later lists; the first lists have one size each, the next ones eight, the last one the rest |
| MakaluIndex.Index.GetIndex | ext/makalu_alloc/src/makalu_hdr.c:330-377 | a missing bottom index is added to its hash chain and to the ordered list, an existing one is found |
| MakaluIndex.Index.InstallHeader | ext/makalu_alloc/src/makalu_hdr.c:563-577 | the page gets its header, and no count jumps over a header afterwards exactly if none jumps over this page |
| MakaluIndex.Index.InstallCounts | ext/makalu_alloc/src/makalu_hdr.c:580-594 | every page of a block of any size gets its capped count, across bottom indices, and no count jumps over a header |
| MakaluIndex.Index.RemoveCounts | ext/makalu_alloc/src/makalu_hdr.c:596-603 | the counts of a block are gone, everything else stays |
| MakaluIndex.RunForwards | ext/makalu_alloc/src/makalu_hdr.c:563-603 | after any sequence of installing and removing headers and counts of disjoint blocks the cells are exactly those of the blocks left, and no count jumps over a header |
| MakaluIndex.Index.FindStart | ext/makalu_alloc/src/makalu_block.c:234-237 | following counts from any page of a block ends at its first page |
| MakaluIndex.Index.PrevBlock | ext/makalu_alloc/src/makalu_hdr.c:671-700 | the greatest block start at or below a page, or none if there is none |
| MakaluIndex.Index.Hdr | ext/makalu_alloc/src/internal_include/makalu_hdr.h:121-142 | a lookup through the hash chains gives the cell of the page |
| MakaluHeaders.Headers.Get | ext/makalu_alloc/src/makalu_hdr.c:123-134 | a cache hit gives the header the index gives |
| MakaluHeaders.Headers.GetAndCache | ext/makalu_alloc/src/makalu_hdr.c:136-154 | so does the lookup that updates the cache |
| MakaluHeaders.Headers.Install | ext/makalu_alloc/src/makalu_hdr.c:563-577 | a new or reused header is installed; each hb_block still names one live header |
| MakaluHeaders.Headers.Remove | ext/makalu_alloc/src/makalu_hdr.c:311-326 | the header is free again and no cached copy of it can be mistaken for live |
| SizeClasses.BuildLookup | src/SizeClass.cpp:31-49 | the table holds for every size up to MAX_SZ the smallest class whose blocks are large enough |
| SizeClasses.Bounds | src/SizeClass.hpp:69-118 | every class has blocks of 8 to 14336 bytes, and a superblock has at least four of them: as many as fit |
| Pointers.RoundTrip | src/pptr.hpp:70-100 | decoding undoes encoding if and only if the pointer is null or within 2^48 bytes of its holder |
| Pointers.Relocate | src/pptr.hpp:70-86 | moving holder and target together keeps the encoding |
| Pointers.Injective | src/pptr.hpp:70-86 | within reach, equal encodings mean equal pointers |
| Pointers.AtomicPptr.CompareExchange | src/pptr.hpp:222-237 | compare-exchange on the encoded word is compare-exchange on the pointer, and reports the pointer found |
| Pointers.PackRoundTrip | src/BaseMeta.cpp:48-84 | a packed pointer and counter are recovered if and only if the counter is below 2^34 and the pointer is not the start of the region |
| RegionGrowth.GrantsDisjoint | src/RegionManager.cpp:223-256 | under any interleaving the ranges granted are disjoint, aligned as asked and inside the file |
| RegionGrowth.RequestIff | src/RegionManager.cpp:223-246 | a request gets as far as the CAS if and only if it is well formed and the aligned range still fits the file; otherwise it is refused, and nothing is granted by then |
| RegionGrowth.GoodIff | src/RegionManager.cpp:223-230 | well formed means some bytes and an alignment of 2^k for some k >= 3 |
| RegionGrowth.GrantAsAsked | src/RegionManager.cpp:231-256 | under any interleaving a call that comes to its CAS is granted the size its last request asked for, at the first multiple of the alignment it asked for past the frontier, or nothing |
| RegionGrowth.StepKeepsInv | src/RegionManager.cpp:223-256 | the frontier never moves back and each grant moves it on |
| RegionGrowth.CasIffQuiet | src/RegionManager.cpp:247-253 | a CAS succeeds exactly if nothing was granted since the load, so there is no ABA |
| RegionGrowth.SbRunAligned | src/BaseMeta.cpp:250-256 | the superblock frontier stays on the superblock grid although requests ask for page alignment |
| RegionGrowth.PageAlignedOnly | src/BaseMeta.cpp:592-622 | without an aligned start it does not |

## Left out

- mmap, file creation, region close and destroy, printing and timing: input and output only.
- The dirty flag and thread-local destructors: operating-system behaviour.
- Progress under contention: what is shown is when a thread that runs alone finishes (`AllocatorProgress.EndsAloneIff`, `ArrayQueue.EndsAlone`, `ArrayStack.EndsAlone`); that some thread always finishes is not, and `AllocatorProgress.SpinsForever` shows that small_sb_alloc is not lock-free.
- Conservative filters: finding pointers in a block is a function of the block; marks that are not block starts are excluded by a precondition of the sweep.
- Weak memory orders, and counters that wrap around.
- RP_realloc, RP_calloc and the other wrappers of src/ralloc.cpp: thin.
- Makalu's parallel marker, thread-local heaps, lazy reclaim and offline mode: large and of a different kind.
- ext/lrmalloc: close to Ralloc's own allocator.
- UndoLogProof.CrashAtomicity: a log entry is one cell, one value and one version; the four value types and their widths are not told apart.
- MakaluHeap.BlockHeap.Free: the header of a coalesced block is dropped from the index; the list of reusable headers is modelled in MakaluHeaders only.
- Pointers.PackRoundTrip: offsets of 2^30 and more are not modelled, because or-ing them into the counter bits is not addition.
