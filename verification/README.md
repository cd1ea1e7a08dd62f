# Verified models of bionic's allocators, futex locks, linker bookkeeping, calendar and hashes

A Dafny project that models the hard parts of bionic, Android's C library, and of its dynamic linker, and proves
for-all statements about them: every input, every run, every interleaving. `dafny verify dfyconfig.toml` checks all of it.

| files | models |
|---|---|
| `BinMap`, `TreeIndex`, `Trie`, `TreeBin`, `BestFit`, `Bins` | dlmalloc's index of free chunks: bin maps, the size-to-bin function, bitwise tries as links in memory, small bins, the best-fit search |
| `Heap`, `Malloc` | boundary-tag chunks, `dlmalloc`, `dlfree`, and runs of any client |
| `NormalMutex`, `RecursiveMutex`, `Semaphore`, `TlsKeys` | futex protocols and thread-local keys, with thread start, exit and join, as atomic steps of any number of threads |
| `Buddy`, `Linker` | the linker's buddy allocator, and library loading and unloading |
| `Time64`, `Sha1`, `Arc4` | the 64-bit calendar, SHA-1 against FIPS PUB 180-1, RC4 and uniform sampling |

How the models are laid out:

- dlmalloc is the default 32-bit configuration: alignment 8, least chunk 16, no footers, one segment. Addresses are integers,
  0 is null, bin headers have negative addresses, sizes are below 2^32, and subtraction of sizes wraps where the code relies on it.
  `BinIndex.links` holds the link fields of chunks; the ghost fields `smalls` and `tries` are the lists and tries they
  represent, and `binned` is the plain map of binned chunks to sizes that the index must agree with. `MallocState` adds head words and
  `prev_foot` fields; its ghost `chunks` is the set of chunk addresses. Runtime corruption checks appear as assertions: under the
  invariant they cannot fire.
- `Plain` is dlmalloc without its data structures: the used chunks, the binned ones, the designated victim and top, as maps and numbers.
  `Allocates` and `Frees` say on it what `dlmalloc` and `dlfree` do, and the class is proved to do exactly that; only the choice among
  binned chunks of equal size is left open.
- A tree bin is represented twice: as links (`Rep`) and as a trie value (`Ordered`). Insertion and unlinking are specified on the value,
  and the pointer code is proved to produce its links.
- Mutexes and semaphores are state machines. A step is one atomic operation or one futex call; the futex compares and sleeps atomically,
  wakes at most one sleeper, and may return spuriously. A section under the global `__recursive_lock` is one step.
- In the TLS machine a call takes the map lock, works and unlocks in separate steps; key deletion clears one thread's slot at a time under
  both locks, and `__init_tls` writes one slot at a time under none. The short sections of create, join and exit under the thread-list lock
  are one step each, and the scan of `pthread_key_clean_all` under the map lock goes to the next destructor in one step. `own` and `gen`
  are histories of what a thread stored and of how often a key was created.
- In the buddy allocator `ba_free` merges with a buddy only if it is inside the bitmap, which is what its comment says; the code reads the entry first.
- In the linker each pinned root holds one reference of its own; here that is `libdl_info`, and the executable is a handle that is never closed.
  The entries of a library whose link failed stay in its record as the references it took, though its memory is unmapped; nothing reads them again.

Where the code does less than one might expect, the exact condition is proved, with a state that is reached:

- A nested lock counts exactly below depth 2048 (`RecursiveMutex.RelockExact`); a run gets there (`RecursiveMutex.WrapReached`).
- `pthread_join` does not look again after its wait, which a signal can end early. Every running thread stays on the thread list exactly
  in runs without such an early return (`TlsKeys.ListedExactly`). An unlocked read is stale exactly if a deletion of the key has missed the
  thread, which was off the list, and the thread has not written the slot since (`TlsKeys.StaleExactly`); `TlsKeys.StaleAfterEarlyReturn`
  is a run with such a read. A thread that exits while others wait for it stays on the list, and key deletion then writes into its TLS
  area (`TlsKeys.ExitedAreaTouched`, `TlsKeys.GoneAreaTouched`).
- SHA-1's bit count is right for calls below 2^29 bytes and for longer ones exactly when the low word carries (`Sha1.LongCall`,
  `Sha1.LongCallMiscounts`).
- `seconds_between_years` is off by an exact number of days, which is zero against every safe year (`Time64.BetweenIsRight`,
  `Time64.SecondsFromSafe`, `Time64.BetweenCanBeWrong`).
- `ba_free` reads the entry behind the bitmap exactly when it empties the last 2^j entries (`Buddy.BuddyAllocator.Free`, `Buddy.StrayRead`).
- A failed load does not give back the references it has taken: handles reach every linked library exactly when they reach what
  failed libraries refer to (`Linker.HandlesReachAll`, `Linker.FailureKeepsDependency`).

## Model

| member | source | states |
|---|---|---|
| BinMap.MarkLaw | src/bionic/libc/bionic/dlmalloc.c:2375-2384 | marking a bin sets exactly its bit |
| BinMap.ClearLaw | src/bionic/libc/bionic/dlmalloc.c:2375-2384 | clearing a bin clears exactly its bit |
| BinMap.LeftLaw | src/bionic/libc/bionic/dlmalloc.c:2419-2419 | the left_bits mask of a bin keeps exactly the marked bins above it |
| BinMap.SmallBits | src/bionic/libc/bionic/dlmalloc.c:4229-4245 | the shifted map's two low bits are bins i and i+1, and it is zero exactly when no bin from i on is marked |
| BinMap.ShiftedLeft | src/bionic/libc/bionic/dlmalloc.c:4249-4249 | shifting down and up again and masking keeps exactly the marked bins above i |
| BinMap.Bit2IdxInt | src/bionic/libc/bionic/dlmalloc.c:2401-2411 | the narrowing trick inverts idx2bit on every single bit |
| BinMap.FirstMarkedIsLeast | src/bionic/libc/bionic/dlmalloc.c:2401-2416 | least_bit followed by compute_bit2idx finds the lowest marked bin |
| TreeIndex.TreeIndexRange | src/bionic/libc/bionic/dlmalloc.c:2338-2354 | compute_tree_index puts every large size into the bin whose size range holds it |
| TreeIndex.TreeIndexMono | src/bionic/libc/bionic/dlmalloc.c:2338-2354 | larger sizes never get a lower bin |
| TreeIndex.BinsAscend | src/bionic/libc/bionic/dlmalloc.c:2367-2369 | every size of a bin is below the least size of any higher bin |
| TreeIndex.InBinRange | src/bionic/libc/bionic/dlmalloc.c:2358-2369 | the sizes of a bin lie in the power-of-two range its trie divides |
| TreeIndex.SizeBitsInit | src/bionic/libc/bionic/dlmalloc.c:2362-2364 | the initial shift leaves the position of the size within the range of its bin, scaled to fill the word |
| TreeIndex.SizeBitsStep | src/bionic/libc/bionic/dlmalloc.c:3089-3093 | the sign bit says which half of the range holds the size, and shifting it out leaves the position in that half |
| Trie.OrderedFacts | src/bionic/libc/bionic/dlmalloc.c:2722-2770 | in a trie of the invariant every size lies in the node's range, chunks are positive and sized, and the height is at most the remaining size bits plus one |
| Trie.InsertOrdered | src/bionic/libc/bionic/dlmalloc.c:3074-3123 | insertion keeps the trie invariant: one node per size, sizes below a node share their prefix |
| Trie.InsertAddrs | src/bionic/libc/bionic/dlmalloc.c:3074-3123 | insertion adds exactly the new chunk |
| Trie.UnlinkOrdered | src/bionic/libc/bionic/dlmalloc.c:3145-3216 | removal from a chain, or replacement by the rightmost leaf, keeps the trie invariant |
| Trie.UnlinkAddrs | src/bionic/libc/bionic/dlmalloc.c:3145-3216 | unlinking removes exactly that chunk |
| TreeBin.InsertRep | src/bionic/libc/bionic/dlmalloc.c:3079-3121 | the stores of insert_large_chunk turn the links of a trie into the links of the trie with the chunk inserted |
| TreeBin.UnlinkRep | src/bionic/libc/bionic/dlmalloc.c:3145-3216 | the stores of unlink_large_chunk turn the links of a trie into the links of the trie without the chunk, and touch only its own chunks and its parent |
| Bins.BinIndex.constructor | src/bionic/libc/bionic/dlmalloc.c:3344-3351 | the initial bins are consistent and empty |
| Bins.BinIndex.FindInsertSpot | src/bionic/libc/bionic/dlmalloc.c:3088-3119 | the walk by size bits ends where the trie says the chunk belongs |
| Bins.BinIndex.InsertLarge | src/bionic/libc/bionic/dlmalloc.c:3074-3123 | all bins stay consistent and the index gains exactly the chunk with its size |
| Bins.BinIndex.RightmostBelow | src/bionic/libc/bionic/dlmalloc.c:3162-3169 | the descent finds the rightmost leaf and the child slot that holds it |
| Bins.BinIndex.DetachChunk | src/bionic/libc/bionic/dlmalloc.c:3148-3177 | the replacement and the memory after the chunk or the leaf has been taken out; the link checks cannot fail |
| Bins.BinIndex.RelinkChunk | src/bionic/libc/bionic/dlmalloc.c:3178-3215 | the replacement takes the chunk's place under its parent or bin and adopts its children |
| Bins.BinIndex.UnlinkLarge | src/bionic/libc/bionic/dlmalloc.c:3145-3216 | all bins stay consistent and the index loses exactly the chunk |
| Bins.BinIndex.InsertSmall | src/bionic/libc/bionic/dlmalloc.c:2993-3009 | all bins stay consistent and the index gains exactly the chunk, which becomes the first of its list |
| Bins.BinIndex.UnlinkSmall | src/bionic/libc/bionic/dlmalloc.c:3015-3034 | all bins stay consistent, the index loses exactly the chunk, the link checks cannot fail |
| Bins.BinIndex.UnlinkFirstSmall | src/bionic/libc/bionic/dlmalloc.c:3040-3056 | takes the first chunk of the list out of a marked bin, so the one freed last |
| Bins.BinIndex.Insert | src/bionic/libc/bionic/dlmalloc.c:3220-3222 | the index gains exactly the chunk, whatever its size |
| Bins.BinIndex.Unlink | src/bionic/libc/bionic/dlmalloc.c:3224-3226 | the index loses exactly the chunk, whatever its size |
| Bins.UnlinkSmallChecks | src/bionic/libc/bionic/dlmalloc.c:3015-3034 | neighbours link back, and F == B exactly when the chunk is alone in its bin |
| Bins.TreeChanged | src/bionic/libc/bionic/dlmalloc.c:2875-2906 | a change confined to one tree bin leaves every free chunk in exactly the bin its size selects and the maps equal to non-emptiness |
| Bins.SmallChanged | src/bionic/libc/bionic/dlmalloc.c:2875-2906 | the same for a change confined to one small bin |
| Bins.BinIndex.WalkForFit | src/bionic/libc/bionic/dlmalloc.c:3804-3823 | the exact-fit walk with the deepest untaken right subtree loses no chunk that could fit better |
| Bins.BinIndex.ScanLeftmost | src/bionic/libc/bionic/dlmalloc.c:3836-3843 | following leftmost_child ends with a smallest fitting chunk of the tree |
| Bins.BinIndex.FindInNextBin | src/bionic/libc/bionic/dlmalloc.c:3826-3843 | with no fit in its own bin, the least left bit leads to the smallest fit over all bins, or there is none |
| Bins.BinIndex.FindLarge | src/bionic/libc/bionic/dlmalloc.c:3795-3843 | the search refines a linear scan: the smallest large chunk of at least nb, and 0 exactly when there is none |
| Bins.BinIndex.FindSmallestLarge | src/bionic/libc/bionic/dlmalloc.c:3868-3884 | the smallest of all large chunks |
| Bins.NothingFits | src/bionic/libc/bionic/dlmalloc.c:4245-4274 | with no small bin from that of nb on and no tree bin marked, no binned chunk fits |
| Bins.BinIndex.Overwrite | src/bionic/libc/bionic/dlmalloc.c:2674-2683 | client data over the link fields of a used chunk disturbs no bin |
| Heap.TakeOk | src/bionic/libc/bionic/dlmalloc.c:2501-2503 | marking a free chunk used keeps the heap invariant and moves exactly it from free to used |
| Heap.SplitOk | src/bionic/libc/bionic/dlmalloc.c:2506-2507 | cutting a used chunk in two keeps the heap invariant |
| Heap.CutOk | src/bionic/libc/bionic/dlmalloc.c:3850-3858 | cutting a free chunk leaves its first part used and the rest free, and keeps the heap invariant |
| Heap.CutStores | src/bionic/libc/bionic/dlmalloc.c:3855-3856 | the stores of the two macros are exactly that cut |
| Heap.ReleaseOk | src/bionic/libc/bionic/dlmalloc.c:1803-1808 | freeing a chunk between used chunks keeps the heap invariant |
| Heap.AbsorbOk | src/bionic/libc/bionic/dlmalloc.c:4352-4364 | merging with the free chunk before keeps the heap invariant; prev_foot leads to that chunk |
| Heap.ExtendOk | src/bionic/libc/bionic/dlmalloc.c:4400-4404 | merging with the free chunk behind keeps the heap invariant |
| Heap.TakeTopOk | src/bionic/libc/bionic/dlmalloc.c:4307-4317 | taking the lower part of top keeps the heap invariant |
| Heap.GiveTopOk | src/bionic/libc/bionic/dlmalloc.c:4382-4389 | merging the last chunk into top keeps the heap invariant |
| Heap.GrowTopOk | src/bionic/libc/bionic/dlmalloc.c:3328-3341 | more memory behind top keeps the heap invariant |
| Heap.WriteFootOk | src/bionic/libc/bionic/dlmalloc.c:2674-2683 | client data in the prev_foot field behind a used chunk disturbs nothing |
| Heap.NoOverlap | src/bionic/libc/bionic/dlmalloc.c:2674-2718 | no address is a client byte of two used chunks |
| Heap.NoGap | src/bionic/libc/bionic/dlmalloc.c:2844-2872 | every address between base and top is in a chunk |
| Heap.SizesAddUp | src/bionic/libc/bionic/dlmalloc.c:2844-2872 | the sizes of the chunks add up to the space between base and top |
| Heap.Coalesced | src/bionic/libc/bionic/dlmalloc.c:2685-2704 | no two free chunks are neighbours and none borders top |
| Malloc.PaddedIsLeast | src/bionic/libc/bionic/dlmalloc.c:1750-1759 | the padded size is the least chunk size with room for the request beside the head word |
| Malloc.BestOverall | src/bionic/libc/bionic/dlmalloc.c:3845-3846 | the unsigned comparison picks the better fit of the best binned chunk and dv, also when dv is too small |
| Malloc.BinChoice | src/bionic/libc/bionic/dlmalloc.c:3845-3846 | the wrapping comparison takes the binned chunk exactly if dv is too small or larger than it |
| Malloc.BestSmall | src/bionic/libc/bionic/dlmalloc.c:4229-4268 | a chunk of the first marked small bin from that of nb on is a smallest binned fit |
| Malloc.BestTree | src/bionic/libc/bionic/dlmalloc.c:4272-4276 | without such a bin a smallest large chunk is |
| Malloc.SettledFrees | src/bionic/libc/bionic/dlmalloc.c:4380-4416 | merging with the free chunk before and then with what lies behind joins the chunk and its free neighbours into top, dv or one binned chunk |
| Malloc.MallocState.constructor | src/bionic/libc/bionic/dlmalloc.c:2135-2135 | the state before the first request: nothing used, nothing free |
| Malloc.MallocState.ReplaceDv | src/bionic/libc/bionic/dlmalloc.c:3060-3069 | the old victim is binned, the new one is the victim, nothing else changes, and index and heap still agree |
| Malloc.MallocState.UseAndBin | src/bionic/libc/bionic/dlmalloc.c:3847-3860 | the chunk becomes used with less than 16 bytes to spare, the remainder is binned, nothing else changes |
| Malloc.MallocState.UseAndKeep | src/bionic/libc/bionic/dlmalloc.c:3886-3899 | the chunk becomes used with less than 16 bytes to spare, the remainder is the victim, the old one is binned |
| Malloc.MallocState.TmallocLarge | src/bionic/libc/bionic/dlmalloc.c:3795-3865 | a smallest binned fit if dv is too small or larger than it, and the exact state then; 0 and no change exactly otherwise |
| Malloc.MallocState.TmallocSmall | src/bionic/libc/bionic/dlmalloc.c:3868-3904 | a small request from a smallest large chunk of the bins, whose remainder becomes the victim |
| Malloc.MallocState.UseFirstSmall | src/bionic/libc/bionic/dlmalloc.c:4231-4268 | a small request from a marked small bin, used whole or split with the remainder as the victim |
| Malloc.MallocState.MallocSmall | src/bionic/libc/bionic/dlmalloc.c:4224-4276 | a small request from a smallest binned fit, exactly if it nearly fills a small chunk or dv is too small; otherwise 0 and no change |
| Malloc.MallocState.FirstBeyond | src/bionic/libc/bionic/dlmalloc.c:4249-4251 | the masked shift finds the first marked small bin when the first two are empty |
| Malloc.MallocState.UseDv | src/bionic/libc/bionic/dlmalloc.c:4287-4305 | a request from the designated victim: what is left stays the victim if it can be a chunk, and otherwise there is none |
| Malloc.MallocState.UseTop | src/bionic/libc/bionic/dlmalloc.c:4307-4318 | a request from the lower end of top, and the rest is top |
| Malloc.MallocState.InitTop | src/bionic/libc/bionic/dlmalloc.c:3328-3341 | the heap after first-time initialization: the first aligned address and all but the overhead is top |
| Malloc.MallocState.SysAlloc | src/bionic/libc/bionic/dlmalloc.c:3625-3679 | exactly if the memory came and top with it is larger than the request, the request is served from top; otherwise top is what it grew to and nothing else changes |
| Malloc.MallocState.TryBins | src/bionic/libc/bionic/dlmalloc.c:4218-4284 | which requests the bins serve, and with which chunk and remainder; otherwise nothing changes |
| Malloc.MallocState.TryRest | src/bionic/libc/bionic/dlmalloc.c:4287-4321 | the designated victim if it fits, then top, then top with new memory, and 0 exactly if none does |
| Malloc.MallocState.Malloc | src/bionic/libc/bionic/dlmalloc.c:4197-4327 | what the allocator without bins, links and tags does: a smallest binned fit, the victim, top or new memory, by an order of preference that is stated outright; null exactly if no free chunk, not top and not top with new memory has the room; one new used chunk of the padded size plus less than 16, all others unchanged; a large request takes a smallest fitting free chunk |
| Malloc.MallocState.FreeForward | src/bionic/libc/bionic/dlmalloc.c:4380-4416 | the chunk being freed is merged with top, dv or a binned chunk behind it, or alone, and indexed; the exact state then |
| Malloc.MallocState.Dlfree | src/bionic/libc/bionic/dlmalloc.c:4329-4427 | exactly that chunk stops being used: it and the free chunks that border it become part of top, the victim, or one binned chunk, and nothing else changes; heap and index stay consistent and fully coalesced |
| Malloc.MallocState.ClientWrite | src/bionic/libc/bionic/dlmalloc.c:2674-2683 | whatever a client writes at any address of its block, where links, head words or prev_foot fields would be, changes nothing the allocator relies on |
| Malloc.Run | src/bionic/libc/bionic/dlmalloc.c:4197-4427 | any sequence of calls leaves the outstanding blocks, with the bytes asked for, pairwise disjoint and equal to the used chunks; every answer and every state on the way is what the allocator without its data structures gives |
| NormalMutex.ExclusiveKept | src/bionic/libc/bionic/pthread.c:906-997 | every step keeps at most one owner, and the word is 0 exactly when there is none |
| NormalMutex.WakeupKept | src/bionic/libc/bionic/pthread.c:906-997 | every step keeps: while a thread sleeps, the state is 2 or some thread will wake or swap in 2 |
| NormalMutex.Safety | src/bionic/libc/bionic/pthread.c:906-997 | both hold in every state of every run of lock, trylock, timed lock and unlock |
| NormalMutex.NobodyOrphaned | src/bionic/libc/bionic/pthread.c:936-997 | once all calls have returned and nobody holds the mutex, nobody sleeps on it |
| NormalMutex.HolderWakes | src/bionic/libc/bionic/pthread.c:951-997 | a holder with sleepers that nobody else will help unlocks through the wake |
| NormalMutex.TakesWhenFree | src/bionic/libc/bionic/pthread.c:917-937 | in every run the compare-and-swap of lock and trylock and the swap take the mutex exactly if nobody owns it |
| NormalMutex.Outcomes | src/bionic/libc/bionic/pthread.c:906-997 | every call of every run: trylock returns at once with the mutex exactly if nobody owned it, an untimed lock returns with it, a lock that returns with it took it when nobody owned it, an unlock gives it up |
| NormalMutex.Uncontended | src/bionic/libc/bionic/pthread.c:917-956 | a mutex taken on the first attempt and unlocked at once is released without a wake |
| NormalMutex.ContenderSleeps | src/bionic/libc/bionic/pthread.c:936-937 | a contender that swaps and waits at once sleeps |
| NormalMutex.CanStep | src/bionic/libc/bionic/pthread.c:906-997 | no thread is ever without a step |
| RecursiveMutex.PackFields | src/bionic/libc/bionic/pthread.c:740-765 | the mutex word is its owner, kind, counter and state |
| RecursiveMutex.Kinds | src/bionic/libc/bionic/pthread.c:753-760 | the type fields of recursive and errorcheck mutexes, private and shared |
| RecursiveMutex.NestedFields | src/bionic/libc/bionic/pthread.c:1044-1047 | counting up changes only the counter, which wraps at 2047 |
| RecursiveMutex.UnnestedFields | src/bionic/libc/bionic/pthread.c:1117-1118 | counting down changes only the counter |
| RecursiveMutex.ContendedFields | src/bionic/libc/bionic/pthread.c:1070-1072 | contenders change only the state, from 1 to 2 |
| RecursiveMutex.Refines | src/bionic/libc/bionic/pthread.c:1013-1186 | every step is a step of an abstract lock with an owner and a depth |
| RecursiveMutex.OwnerKept | src/bionic/libc/bionic/pthread.c:1013-1186 | only its own thread makes or unmakes an owner |
| RecursiveMutex.WakeupKept | src/bionic/libc/bionic/pthread.c:1063-1129 | every step keeps: while a thread sleeps, the state is 2 or some thread will wake or take the mutex as contended |
| RecursiveMutex.LocksNeedUnlocks | src/bionic/libc/bionic/pthread.c:1013-1186 | in every run each thread holds the mutex exactly as often as it has locked and not unlocked it |
| RecursiveMutex.MutualExclusion | src/bionic/libc/bionic/pthread.c:1013-1186 | at most one thread has more locks than unlocks |
| RecursiveMutex.NobodyOrphaned | src/bionic/libc/bionic/pthread.c:1063-1129 | once all calls have returned and the mutex is free, nobody sleeps on it |
| RecursiveMutex.ErrorCodes | src/bionic/libc/bionic/pthread.c:1029-1112 | EDEADLK exactly for a relock of an errorcheck mutex by its owner, EPERM exactly for an unlock by a thread that holds nothing, EBUSY from a trylock exactly if somebody holds the mutex; the step that returns an error does not change the word |
| RecursiveMutex.TakesWhenFree | src/bionic/libc/bionic/pthread.c:1063-1081 | an attempt takes the mutex exactly if it is free; trylock returns EBUSY otherwise |
| RecursiveMutex.Outcomes | src/bionic/libc/bionic/pthread.c:1013-1186 | every call of every run: unlock returns 0 exactly for the holder and EPERM otherwise, a nested lock or trylock 0 or EDEADLK by the type, trylock by another thread 0 exactly if nobody has more locks than unlocks and EBUSY otherwise, an untimed lock never EBUSY; 0 changes the balance of the thread by one and an error by nothing |
| RecursiveMutex.Uncontended | src/bionic/libc/bionic/pthread.c:1113-1130 | a mutex taken on the first attempt and unlocked at once is released without a wake |
| RecursiveMutex.ContenderSleeps | src/bionic/libc/bionic/pthread.c:1069-1081 | a contender that waits with the word as it left it sleeps |
| RecursiveMutex.CanStep | src/bionic/libc/bionic/pthread.c:1013-1186 | no thread is ever without a step |
| RecursiveMutex.FailedCallKeeps | src/bionic/libc/bionic/pthread.c:1029-1112 | no step of a call that fails changes the owner or the depth |
| RecursiveMutex.RelockExact | src/bionic/libc/bionic/pthread.c:1044-1047 | a nested lock counts exactly below depth 2048, and wraps to depth 1 there |
| RecursiveMutex.ReachesDepth | src/bionic/libc/bionic/pthread.c:1013-1047 | for every n up to 2048 a run that holds the mutex n times |
| RecursiveMutex.WrapReached | src/bionic/libc/bionic/pthread.c:1044-1047 | a run of 2048 locks whose next lock leaves depth 1 |
| Semaphore.InvKept | src/bionic/libc/bionic/semaphore.c:93-202 | every step keeps: while a thread sleeps the count is at most the pending wakes plus the awake threads about to decrement |
| Semaphore.NoPostMissed | src/bionic/libc/bionic/semaphore.c:93-202 | that holds in every state of every run |
| Semaphore.Conservation | src/bionic/libc/bionic/semaphore.c:93-202 | initial count plus posts equals count plus successful waits |
| Semaphore.SuccessTakes | src/bionic/libc/bionic/semaphore.c:93-104 | a wait leaves the swap with success exactly when it has taken one from the count |
| Semaphore.Outcomes | src/bionic/libc/bionic/semaphore.c:106-202 | every wait of every run takes nothing before its last step; there sem_wait always takes one, sem_trywait fails only if the count is 0, sem_timedwait only by timeout or interruption |
| Semaphore.UndisturbedTakes | src/bionic/libc/bionic/semaphore.c:93-104 | an undisturbed read and swap takes one if there is one |
| Semaphore.UndisturbedSleeps | src/bionic/libc/bionic/semaphore.c:113-118 | an undisturbed read of 0 and wait sleeps |
| Semaphore.CanStep | src/bionic/libc/bionic/semaphore.c:93-202 | no thread is ever without a step |
| Semaphore.NothingStranded | src/bionic/libc/bionic/semaphore.c:106-187 | if every thread is idle or asleep and one sleeps, the count is zero |
| TlsKeys.SetBitLaw | src/bionic/libc/bionic/pthread.c:1623-1627 | allocating a key changes exactly its bit |
| TlsKeys.ClearBitLaw | src/bionic/libc/bionic/pthread.c:1630-1634 | freeing a key changes exactly its bit |
| TlsKeys.TlsmapAlloc | src/bionic/libc/bionic/pthread.c:1637-1648 | the first free key and its bit, or -1 exactly when every key is allocated |
| TlsKeys.SlotKept | src/bionic/libc/bionic/pthread.c:157-171 | every step of every call, thread start, join and exit keeps each slot what the thread stored under this incarnation of the key |
| TlsKeys.JoinsKept | src/bionic/libc/bionic/pthread.c:594-640 | every step keeps each join count the number of waiting joiners |
| TlsKeys.Safety | src/bionic/libc/bionic/pthread.c:157-1814 | the invariant holds in every state of every run of any number of threads |
| TlsKeys.GetExact | src/bionic/libc/bionic/pthread.c:1736-1748 | at any point of any run, with other calls half done, a started thread on the list reads what it stored itself since the key was created, and NULL under an unallocated or invalid key |
| TlsKeys.CreateReadsNull | src/bionic/libc/bionic/pthread.c:1651-1664 | the first unallocated key, ENOMEM exactly when there is none; it reads NULL in every started thread on the list and has the destructor the call was given |
| TlsKeys.ReservedKeys | src/bionic/libc/bionic/pthread.c:1591-1607 | before any call exactly the five well-known keys are allocated |
| TlsKeys.DtorIsGiven | src/bionic/libc/bionic/pthread.c:1651-1721 | in every state of every run the destructor of a key is the one its creation was given until it is deleted, and NULL otherwise |
| TlsKeys.CallGiven | src/bionic/libc/bionic/pthread.c:1651-1734 | a thread inside a call works with the arguments it gave when it called |
| TlsKeys.SetThenGet | src/bionic/libc/bionic/pthread.c:1719-1748 | after a successful pthread_setspecific a read gives what was set, until the slot is written or cleared |
| TlsKeys.RefusesUnallocated | src/bionic/libc/bionic/pthread.c:1675-1734 | set and delete give EINVAL exactly for a key that is not allocated |
| TlsKeys.DestructorArgument | src/bionic/libc/bionic/pthread.c:1764-1806 | a destructor runs on what the thread stored, for an allocated key whose slot is cleared first, and is the function that the creation of the key was given |
| TlsKeys.CleanedOut | src/bionic/libc/bionic/pthread.c:1764-1814 | if fewer than four rounds were begun at the end, no value is left under a key with a destructor, and a round that finds none left is the last |
| TlsKeys.RoundsCounted | src/bionic/libc/bionic/pthread.c:1764-1814 | in every run a thread begins at most four rounds of destructors |
| TlsKeys.WellKnown | src/bionic/libc/bionic/pthread.c:157-171 | in every run the slots that are no keys hold, once set up, the identity of the thread and NULL |
| TlsKeys.CanCall | src/bionic/libc/bionic/pthread.c:1651-1734 | a running thread may begin any of the calls as soon as the map is unlocked |
| TlsKeys.NeverStuck | src/bionic/libc/bionic/pthread.c:157-1814 | every thread that is not gone has a step, or waits for the list lock while its holder has one |
| TlsKeys.ListedExactly | src/bionic/libc/bionic/pthread.c:594-640 | in a run, every thread that has not exited is always on the list exactly if no last joiner left its wait early |
| TlsKeys.StaleExactly | src/bionic/libc/bionic/pthread.c:1675-1748 | in every run a started thread reads something else than promised exactly if a deletion of the key missed it, off the list with a value in its slot, and it has not written the slot since |
| TlsKeys.NeverStale | src/bionic/libc/bionic/pthread.c:594-640 | a thread that ever reads a stale value has had its last joiner leave early |
| TlsKeys.StaleAfterEarlyReturn | src/bionic/libc/bionic/pthread.c:623-637 | a run in which a join returns early and a running thread then reads a stale value |
| TlsKeys.ExitedAreaTouched | src/bionic/libc/bionic/pthread.c:1693-1707 | key deletion writes into the TLS area of an exited thread exactly if some thread still waits to join it |
| TlsKeys.GoneAreaTouched | src/bionic/libc/bionic/pthread.c:569-586 | a run that comes to such a write after the stack is gone |
| TlsKeys.JoinersSafe | src/bionic/libc/bionic/pthread.c:594-640 | whoever waits in a join waits for a thread that is still on the list |
| Buddy.OrderFor | src/bionic/linker/ba.c:87-97 | the least order whose blocks hold the length; 32 for zero and wrapping lengths |
| Buddy.OrderUnique | src/bionic/linker/ba.c:87-97 | there is only one such order |
| Buddy.BuddyIsHead | src/bionic/linker/ba.c:37-40 | a buddy index inside the bitmap begins a block of at most the same order, so no stale order is read |
| Buddy.SplitTiled | src/bionic/linker/ba.c:138-143 | splitting keeps the tiling by naturally aligned blocks |
| Buddy.MergeTiled | src/bionic/linker/ba.c:72-82 | merging keeps the tiling |
| Buddy.StopMerged | src/bionic/linker/ba.c:72-82 | where merging stops, no two free buddies have equal order |
| Buddy.FreeBlocksMaximal | src/bionic/linker/ba.c:46-146 | the free blocks are exactly the largest aligned regions that meet no allocated block |
| Buddy.UniqueLayout | src/bionic/linker/ba.c:46-146 | the layout is determined by the allocated blocks |
| Buddy.BuddyAllocator.constructor | src/bionic/linker/ba.c:46-60 | the initial layout is canonical with nothing allocated; max_order is the least order that holds the size, or the one asked for if that is smaller and not 0 |
| Buddy.BuddyAllocator.FindBlock | src/bionic/linker/ba.c:113-126 | the first exact fit, or else the first block of the least sufficient order, or none fits |
| Buddy.BuddyAllocator.Allocate | src/bionic/linker/ba.c:99-146 | succeeds exactly when the order is at most max_order and some free block has at least that order; takes that block, other blocks unchanged |
| Buddy.BuddyAllocator.Free | src/bionic/linker/ba.c:62-85 | exactly that block is no longer allocated and the layout is canonical again; with 2^j the lowest set bit of num_entries, the entry behind the bitmap is read exactly when the block is in the last 2^j entries and no other allocated block is |
| Buddy.BuddyOutside | src/bionic/linker/ba.c:37-40 | only the block of the last 2^j entries has its buddy outside the bitmap, and that is the entry behind the end |
| Buddy.StrayRead | src/bionic/linker/ba.c:72-74 | with a bitmap of one entry, allocating it and freeing it reads the entry behind |
| Buddy.RoundTrip | src/bionic/linker/ba.c:62-146 | allocating and freeing restores the layout |
| Buddy.Run | src/bionic/linker/ba.c:46-146 | any sequence of calls; when everything has been freed the layout is the initial one |
| Linker.Loader.constructor | src/bionic/linker/linker.c:85-89 | the state with only libdl_info |
| Linker.Loader.AllocInfo | src/bionic/linker/linker.c:255-290 | a fresh record at the end of solist, refused exactly for long names and a full pool |
| Linker.Loader.FreeInfo | src/bionic/linker/linker.c:292-316 | exactly that library leaves solist |
| Linker.BaseIsLast | src/bionic/linker/linker.c:1182-1183 | the base name is what stands behind the last slash, or the whole name without one, and nothing else is |
| Linker.BaseOfPath | src/bionic/linker/linker.c:1182-1183 | a directory, a slash and a file name have the file name as base name |
| Linker.Loader.FindLibrary | src/bionic/linker/linker.c:1179-1202 | on success a linked library whose name is the last component of the path; a name already on solist gives that library, or nothing if it failed or is being linked; any plan of present, acyclic, relocatable files that fits the pool succeeds, and a success could be planned if different names have different base names; a failure leaves a record stopped at the first want that failed; counts are exact either way; terminates |
| Linker.Loader.LinkNew | src/bionic/linker/linker.c:1154-1177 | the new record is linked if what it needs is planned, or stays behind as failed |
| Linker.Loader.LinkImage | src/bionic/linker/linker.c:1907-1998 | on success every DT_NEEDED entry refers to a linked library of its name that counts it; on failure the entries before the failing one do, and the library stays on solist, never linked |
| Linker.Loader.Finish | src/bionic/linker/linker.c:1953-1953 | FLAG_LINKED is set with every entry resolved |
| Linker.Loader.Resolve | src/bionic/linker/linker.c:1923-1925 | one entry refers to the library found, whose count grows by one; every count stays exact |
| Linker.Loader.Fail | src/bionic/linker/linker.c:1994-1998 | only FLAG_ERROR changes |
| Linker.Loader.Unload | src/bionic/linker/linker.c:1209-1248 | gives back one reference; counts stay exact, libraries linked later are untouched; terminates |
| Linker.Loader.UnloadEntry | src/bionic/linker/linker.c:1217-1223 | one entry is cleared and its reference given back, unloading what nothing else needs |
| Linker.Loader.UnloadNeeded | src/bionic/linker/linker.c:1216-1229 | every DT_NEEDED entry is cleared and its reference given back |
| Linker.Loader.Dlopen | src/bionic/linker/dlfcn.c:54-67 | one more handle on success and none on failure, counts exact either way; success exactly when the name can be planned, if different names have different base names, and then what it needs is loaded; a path whose last component names a linked library gives that library and loads nothing, and a library whose link failed stays failed |
| Linker.Loader.Dlclose | src/bionic/linker/dlfcn.c:152-158 | solist is then exactly what the remaining handles, roots and failed libraries reach in the DT_NEEDED graph as it was, and every linked library still has all it needs |
| Linker.EdgeMade | src/bionic/linker/linker.c:1923-1925 | resolving an entry and counting it keeps every count exact |
| Linker.LibRemoved | src/bionic/linker/linker.c:1239-1240 | removing the last-referenced library keeps every count exact |
| Linker.AllReachable | src/bionic/linker/linker.c:1209-1248 | every library on solist is reachable from a handle, a root or a failed library |
| Linker.PlanKept | src/bionic/linker/linker.c:255-290 | loading part of a plan leaves the rest loadable and the pool large enough |
| Linker.SuccessPlanned | src/bionic/linker/linker.c:1179-1202 | a load that succeeded could have been planned, with the order of linking as depth |
| Linker.HandlesReachAll | src/bionic/linker/linker.c:1994-1998 | handles and roots reach every linked library exactly when they reach what failed libraries refer to |
| Linker.FailureKeepsDependency | src/bionic/linker/linker.c:1911-1916 | an example: dlopen of a library one of whose needs is missing fails and leaves the other need loaded, reached by no handle |
| Linker.Acyclic | src/bionic/linker/linker.c:1185-1194 | the DT_NEEDED graph of loaded libraries has no cycle |
| Linker.Run | src/bionic/linker/dlfcn.c:54-158 | over every run of dlopen, failing or not, and dlclose each count is incoming edges plus handles, every loaded library is reachable, and all that the file of a linked library needs is loaded and linked |
| Time64.YearLength | src/bionic/libc/bionic/time64.c:155-155 | the closed form for days to a year grows by 365 or 366 with the leap rule |
| Time64.Months | src/bionic/libc/bionic/time64.c:81-89 | the tables give the months of the calendar, and the days before each month are the sum of those before it |
| Time64.Timegm64 | src/bionic/libc/bionic/time64.c:203-248 | the seconds from the epoch to a date, for every year that fits tm_year |
| Time64.SplitTime | src/bionic/libc/bionic/time64.c:554-564 | truncating division with wrapping corrections gives fields in range for negative times too |
| Time64.DateFrom | src/bionic/libc/bionic/time64.c:571-597 | the date of a day from the epoch on |
| Time64.DateBefore | src/bionic/libc/bionic/time64.c:598-623 | the date of a day before the epoch |
| Time64.Gmtime64 | src/bionic/libc/bionic/time64.c:521-645 | the valid date of a time with weekday and day of year, refused exactly when its year does not fit |
| Time64.UniqueDate | src/bionic/libc/bionic/time64.c:521-645 | a second has only one valid date |
| Time64.RoundTrips | src/bionic/libc/bionic/time64.c:203-645 | time to date and back, and every valid date to time and back |
| Time64.OffsetCounts | src/bionic/libc/bionic/time64.c:287-303 | cycle_offset is 16 per exceptional century between 2000 and the year, on both sides |
| Time64.SafeYearMatches | src/bionic/libc/bionic/time64.c:322-364 | for every integer year a year in 1971..2037 with the same leap status, weekday of January 1st, preceding leap status and next January 1st |
| Time64.SecondsBetweenYears | src/bionic/libc/bionic/time64.c:466-488 | for all years that a date can have and for which the loop ends, the distance plus an exact error term, without overflow |
| Time64.LoopMissesOtherwise | src/bionic/libc/bionic/time64.c:483-486 | for other years the right year never meets the left one |
| Time64.BetweenIsRight | src/bionic/libc/bionic/time64.c:466-488 | the error is zero exactly when the count goes up or the years have the same leap status, and no cycles are counted in the wrong direction |
| Time64.BetweenCanBeWrong | src/bionic/libc/bionic/time64.c:483-486 | called for 1600 and 1601 it is a day off |
| Time64.SecondsFromSafe | src/bionic/libc/bionic/time64.c:491-511 | the exact distance of every year to its safe year |
| Sha1.MixIsF | src/bionic/libc/bionic/sha1.c:50-54 | the rewritten Ch and Maj are the functions of section 5 of FIPS PUB 180-1 |
| Sha1.RolIsShift | src/bionic/libc/bionic/sha1.c:31-31 | the shift expressions are the circular shifts of section 3 of FIPS PUB 180-1 |
| Sha1.ConstantsAreRoots | src/bionic/libc/bionic/sha1.c:50-54 | the round constants of section 6 are the integer square roots of 2, 3, 5 and 10 times 2^60 |
| Sha1.InitialDigits | src/bionic/libc/bionic/sha1.c:202-206 | the initial words, least significant byte first, count up through the sixteen digits and down again |
| Sha1.BlkIsW | src/bionic/libc/bionic/sha1.c:44-45 | the in-place 16-word schedule gives the words of the 80-word schedule |
| Sha1.RoundIsStep | src/bionic/libc/bionic/sha1.c:50-54 | a round on renamed registers, with the shifts, functions and constants of the macros, is a step of section 7 on shifted ones |
| Sha1.Rounds | src/bionic/libc/bionic/sha1.c:137-173 | the unrolled rounds compute the 80 steps of section 7 |
| Sha1.Transform | src/bionic/libc/bionic/sha1.c:123-189 | the state is advanced by one block as section 7 says |
| Sha1.CountAdds | src/bionic/libc/bionic/sha1.c:224-226 | the two-word bit count is right for every call below 2^29 bytes |
| Sha1.LongCall | src/bionic/libc/bionic/sha1.c:224-226 | a longer call is counted right exactly when the low word carries |
| Sha1.LongCallMiscounts | src/bionic/libc/bionic/sha1.c:224-226 | a first call of 2^29 bytes is counted as nothing |
| Sha1.Context.constructor | src/bionic/libc/bionic/sha1.c:195-208 | a context that has hashed nothing |
| Sha1.Context.Update | src/bionic/libc/bionic/sha1.c:214-238 | state and buffer are those of the concatenated message; a right count stays right exactly for calls below 2^29 bytes and those that carry |
| Sha1.Context.PadZeros | src/bionic/libc/bionic/sha1.c:258-260 | the padding loop ends after exactly the zeros section 4 asks for |
| Sha1.WordBytesRead | src/bionic/libc/bionic/sha1.c:263-267 | the bytes written for a word, read most significant first, are the word |
| Sha1.LengthRead | src/bionic/libc/bionic/sha1.c:254-257 | the eight bytes written for the count, read most significant first, are the length in bits modulo 2^64 |
| Sha1.Context.Final | src/bionic/libc/bionic/sha1.c:244-268 | the hash of the message padded with the count as its length, which is the digest of section 4 if the count is right |
| Sha1.HashChunks | src/bionic/libc/bionic/sha1.c:195-268 | however a message is split into calls, the hash is that of the whole with the count as its length, and the digest of the whole if every call is counted right |
| Sha1.SmallCounted | src/bionic/libc/bionic/sha1.c:224-226 | calls below 2^29 bytes are all counted right |
| Arc4.ThresholdIsRemainder | src/bionic/libc/bionic/arc4random.c:262-271 | the 32-bit computation is 2^32 mod upper_bound |
| Arc4.Uniform | src/bionic/libc/bionic/arc4random.c:243-287 | equally many accepted 32-bit values map to each result |
| Arc4.MostlyAccepted | src/bionic/libc/bionic/arc4random.c:274-279 | more than half of all values are accepted |
| Arc4.UniformFrom | src/bionic/libc/bionic/arc4random.c:254-287 | the first accepted word, reduced |
| Arc4.EveryByte | src/bionic/libc/bionic/arc4random.c:72-81 | a state of the invariant holds every byte once |
| Arc4.RepeatedAt | src/bionic/libc/bionic/arc4random.c:93-93 | indexing the key modulo its length is writing it again and again |
| Arc4.Stream.constructor | src/bionic/libc/bionic/arc4random.c:72-81 | the identity permutation |
| Arc4.Stream.AddRandom | src/bionic/libc/bionic/arc4random.c:83-98 | 256 steps of RC4's key schedule; the state stays a permutation of 0..255 |
| Arc4.Stream.GetByte | src/bionic/libc/bionic/arc4random.c:160-172 | one step of RC4 and its output; the state stays a permutation |

## Left out

- dlmalloc segments other than one that grows contiguously, mmapped chunks, sys_trim, footers, statistics, mspaces, calloc, realloc and memalign: they rest on system calls or repeat the same logic.
- Malloc.MallocState.SysAlloc: the system's answer is a parameter, either failure or memory where the segment ends; choosing how much to ask for, the footprint limit and the head word of the fake trailing chunk are not modelled.
- Malloc.MallocState.Malloc: which of several binned chunks of equal size is taken is stated only for small bins, by Bins.BinIndex.UnlinkFirstSmall.
- Malloc.MallocState.Dlfree: frees only used chunks; double frees and foreign pointers, and returning memory to the system, are not modelled.
- dlmalloc locking, and what the corruption and usage checks do when they fire: they are shown not to fire.
- NormalMutex and RecursiveMutex model only owners unlocking a normal mutex, sequentially consistent memory, and no process death; clocks are a free choice between waiting and giving up.
- RecursiveMutex.LocksNeedUnlocks: covers runs whose nesting depth stays within 2048; RecursiveMutex.RelockExact says what happens there.
- Semaphore.Conservation: covers runs in which the count stays below INT_MAX.
- pthread attributes, detach, stacks and condition variables other than in pthread_join: they depend on clone and stack teardown.
- TlsKeys.Safety: thread identities are not reused, pthread_detach on a running thread is not modelled, and memory that is torn down is not given to another thread.
- Buddy.BuddyAllocator.Free: says when the entry behind the bitmap is read, not what the code does with its arbitrary contents.
- Linker.Loader.FindLibrary: a file that cannot be found, read or mapped is one that is not there, so the record taken and freed again in between is not modelled; which relocations fail is a parameter. A plan is always enough for success; that a success could be planned is stated where different names have different base names, since a library can also be found under another path with the same base name.
- Linker file access, mapping, relocation, constructors, destructors, symbol lookup and debugger notification: system effects and raw memory.
- Time64.Timegm64: hours, minutes and seconds are unbounded integers; the overflow of int products for hours beyond 596523 is not modelled.
- Time64.SecondsBetweenYears: where the loop ends, which it does for every safe year; otherwise the code runs on until its year overflows.
- localtime64_r and mktime64: they call the system's time zone functions.
- Sha1.Context.Update: calls of at most 2^32 - 64 bytes, so that its u_int sums do not wrap.
- Sha1.Context.Final: the digest of section 4 is stated for messages below 2^61 bytes, the limit of the 64-bit length field.
- arc4_stir and arc4random: reading random bytes is input; the words that arc4random delivers are a parameter of Arc4.UniformFrom.
