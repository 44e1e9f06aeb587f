# Verified model of the memory pool library

A Dafny 4.11 model of the library's three hard parts and proofs about every run of them:

- the **thread-cached allocator**: threads with private bins, allocation records behind 64 shard
  mutexes, central storage behind one more (`ThreadCache*.dfy`);
- the **block allocator stack**: layout arithmetic, chunks with an intrusive free list, growing and
  shrinking pools, size-class routing with exact-metadata fallback, and the stand-alone fixed-size
  pool over real bytes (`BlockLayout`, `BlockMemory`, `Chunk*`, `MemoryChunk`, `Manager*`, `Segregated*`,
  `PoolVector`, `HeapFallback`, `Fixed*`);
- the **monotonic arena**: bump allocation, rollback with nested construction, LIFO destruction and
  the two reset policies (`Arena*`, `MonotonicArena`).

`CentralRefinement.dfy` and `CentralUnderflow.dfy` join the first two: the thread cache runs over the
real segregated allocator, and the memory its clients hold is proved disjoint end to end.

`dafny verify dfyconfig.toml` checks everything.

## How it is modelled

- The thread cache is a transition system. Each thread has a program counter; taking a mutex is one
  step, and the work of a critical section up to its release is another (a free or flush holds its
  shard across two central steps). Any thread may move at any time, any client may free any
  pointer; `Disciplined` clients free only what they were given and have not yet handed back.
- What one call does is stated over whole runs (`ThreadCacheOutcomes`): its effect is read off the states
  before and after the calling thread's own steps, from the call to its return, with any steps of
  other threads in between.
- Objects that the source updates in place are classes (`MemoryChunk`, `ChunkManager`, `PoolVector`,
  `SegregatedAllocator`, `HeapFallbackPool`, `FixedSizeMemoryPool`, `ArenaChunk`, `MonotonicArena`).
  Their methods are proved against functions on values (`ChunkModel`, `ManagerModel`,
  `SegregatedModel`, `ArenaModel`), and the properties are proved of those functions.
- The provider is an oracle bound by include/memory_pool/memory_provider.hpp:8-9: it fails, or
  returns a non-null, aligned block that overlaps nothing outstanding. Its answers, failures of
  bookkeeping allocations and the end of a constructor call are parameters of each operation.
- `std::align` is modelled by its specification, section [ptr.align] of ISO/IEC 14882:2020.
- `size_t` is 64 bits wide; overflow tests, saturation and masks are written out over unbounded
  integers. A pointer and a free-list node have 8 bytes, words are little-endian, and
  `alignof(std::max_align_t)` is 16.

Two promises hold only under a condition, and the exact one is proved:

- A refused double free on `FixedSizeMemoryPool` leaves the free list alone exactly when poisoning is
  off or guards are on. Otherwise the poison has overwritten the link before the table is consulted
  (src/fixed_size_memory_pool.cpp:120-129), and `validate_integrity` fails from then on.
- `live_allocations` never drops below zero for disciplined clients. After one free of a pointer `p` that
  is not held, it can, because a record is active before its allocation is counted. It still cannot exactly
  when there is no other thread, or when no allocation that the free describes could return `p` while the
  caller's own blocks stay cached: the sizing names no power of two as alignment, or a block of its kind
  cannot start at `p` (not a multiple of the class or the alignment, past the end of the address space, or
  over a block in the caller's bins). This is exact for central storage that may hand out any such place.
  The real allocator hands out fewer: only blocks of its chunks and what its provider offers. Over it,
  harmless frees stay harmless, and at any quiet moment a stray free of the address it would hand out next
  does underflow (`CentralUnderflow`).

## Model

| member | source | states |
|---|---|---|
| `ThreadCacheInvariant.StepKeepsInv` | src/detail/thread_cache_state.cpp:92-308 | Every step of every thread, under arbitrary frees, keeps the protocol invariant: lock ownership, one place per block, records matching central storage, bins holding only their owner's inactive blocks. |
| `ThreadCacheInvariant.RecordCheckSuffices` | src/detail/thread_cache_state.cpp:210-259 | A sized free that passes the thread cache's record check is never rejected by central storage's own check. |
| `ThreadCacheSafety.RunKeepsInv` | src/detail/thread_cache_state.cpp:92-308 | The invariant holds at the end of every run, whatever the interleaving and the clients. |
| `ThreadCacheSafety.NoInconsistency` | src/detail/thread_cache_state.cpp:113-303 | The three "cannot happen" errors (duplicate address, inconsistent metadata on reuse and on flush) and a rejection by central storage are unreachable. |
| `ThreadCacheSafety.CentralAgreesWithRecords` | src/detail/thread_cache_state.cpp:113-303 | Centrally live addresses are exactly the recorded ones, up to addresses one thread fetched and has not recorded, or has given back under the shard mutex and not yet erased; at most one thread has a given address in flight. |
| `ThreadCacheSafety.QuerySeesNoHalfStep` | src/detail/thread_cache_state.cpp:296-339 | Whoever can take the shard mutex of a recorded address finds it centrally live with a matching class: no query observes a half-completed return. |
| `ThreadCacheSafety.InactiveIsCachedOnce` | src/detail/thread_cache_state.cpp:150-204 | Inactive records correspond one to one to bin slots of the owner's bin of the right class or to one pending push or pop. |
| `ThreadCacheSafety.BinsStayWithinCapacity` | src/detail/thread_cache_state.cpp:26-42 | A bin holds at most `high_watermark` blocks between operations and at most one more inside one, so the reserved capacity is never exceeded. |
| `ThreadCacheSafety.ReleaseEmptiesCache` | src/detail/thread_cache_state.cpp:310-316 | When a release (or thread exit) ends, all bins of the thread are empty. |
| `ThreadCacheOutcomes.PushOutcome` | src/detail/thread_cache_state.cpp:278-308 | Over every run until the thread is next idle: a freed block pushed onto a bin with room returns nothing; onto a bin of `high_watermark` blocks it leaves exactly the `low_watermark` oldest and returns the others to central storage, newest first. No other bin changes. |
| `ThreadCacheOutcomes.FreeOutcome` | src/detail/thread_cache_state.cpp:229-283 | Every `deallocate` from call to return, whatever others do meanwhile, by the record it finds under the shard mutex: refused with nothing changed, straight back to central storage for a fallback block or a remote thread, or cached with the watermark flush; only an accepted one ends the allocation, once. |
| `ThreadCacheOutcomes.ReleaseOutcome` | src/detail/thread_cache_state.cpp:285-316 | A release returns exactly the cached blocks of the thread, bin by bin, newest first, and leaves all bins empty. |
| `ThreadCacheOutcomes.AllocateFromBin` | src/detail/thread_cache_state.cpp:150-169 | An `allocate` that finds a cached block activates and returns the newest one for its own size and alignment, keeps the rest of the bin in order and does not touch central storage. |
| `ThreadCacheOutcomes.AllocateByRefill` | src/detail/thread_cache_state.cpp:171-208 | An `allocate` that finds its bin empty records the first k blocks it fetches, with k equal to `refill_batch` if and only if nothing threw; returns the first, leaves the others in the bin in fetch order, and gives a block it could not record straight back. With k = 0 nothing has changed. |
| `ThreadCacheOutcomes.AllocateDirect` | src/detail/thread_cache_state.cpp:131-148 | A request no class holds gets one block recorded with its exact size and alignment, or none if central storage or recording failed, and no bin changes. |
| `ThreadCacheOutcomes.CountersExact` | src/detail/thread_cache_state.cpp:92-111 | In every run the central allocation and deallocation counters are the numbers of blocks central storage handed out and took back. |
| `ThreadCacheSafety.OneFreePerActivation` | src/detail/thread_cache_state.cpp:229-283 | However many threads race to free an address, between two successful frees of it there is a new activation. |
| `ThreadCacheSafety.RunKeepsOwned` | src/detail/thread_cache_state.cpp:123-283 | In every run of disciplined clients each held or claimed address has exactly one owner and an active record. |
| `ThreadCacheSafety.AllocateReturnsExclusive` | src/detail/thread_cache_state.cpp:123-208 | With disciplined clients `allocate` returns an address no client holds, no other call is returning or freeing, and no bin contains. |
| `ThreadCacheSafety.DisciplinedFreeIsAccepted` | src/detail/thread_cache_state.cpp:229-247 | A disciplined free is never refused as foreign or as a double free, and as a mismatch only for a size and alignment of another class. |
| `ThreadCacheProgress.WaitersHoldLittle` | src/detail/thread_cache_state.cpp:235-303 | No thread holds two shard mutexes, or waits for a shard while holding any mutex, or waits for anything while holding central's. |
| `ThreadCacheProgress.NoDeadlock` | src/detail/thread_cache_state.cpp:92-303 | In every reachable state with an operation in flight, some thread with one in flight can take its next step. |
| `ThreadCacheProgress.OperationsEnd` | src/detail/thread_cache_state.cpp:175-308 | However they are scheduled, operations in flight end within a number of steps fixed by the state. |
| `ThreadCacheProgress.OperationsCanFinish` | src/detail/thread_cache_state.cpp:92-308 | From every state of every run, all operations in flight can be brought to their end. |
| `ThreadCacheCounters.QuiescentConservation` | src/detail/thread_cache_state.cpp:92-111 | With nothing in flight, also after partial and failed refills: central allocations minus deallocations equal live plus cached, live is the number of active records, cached the total bin length. |
| `ThreadCacheCounters.CachedNeverNegative` | src/detail/thread_cache_state.cpp:165-204 | `cached_blocks` never drops below zero, for any clients. |
| `ThreadCacheCounters.LiveNeverNegative` | src/detail/thread_cache_state.cpp:249-276 | `live_allocations` never drops below zero in any run of disciplined clients. |
| `ThreadCacheDiscipline.StrayFreeExact` | src/detail/thread_cache_state.cpp:123-283 | The exact condition, for central storage that may hand out any place a block can lie: from any state disciplined clients can reach, a call `deallocate(p, …)` leaves `live_allocations` non-negative in every disciplined continuation if and only if `p` is held, there is no other thread, or no allocation the free describes could return `p` beside the caller's cached blocks. |
| `ThreadCacheDiscipline.Placement` | src/detail/thread_cache_state.cpp:210-227 | The check a caller can make before the call is exactly whether some request could be answered with `p` and be freed with this sizing. |
| `ThreadCacheDiscipline.GuessedFreeUnderflows` | src/detail/thread_cache_state.cpp:178-283 | For every configuration, every number of threads from two on, and every request and address a block for it can lie at, a disciplined continuation of one stray free underflows the gauge. |
| `ThreadCacheDiscipline.ReachableCovered` | src/detail/thread_cache_state.cpp:123-283 | In every run of any clients, an active record is held by a client or claimed by a call in flight: no live allocation is lost. |
| `ThreadCacheSafety.ReachableRequests` | src/detail/thread_cache_state.cpp:161-184 | In every run, the size and alignment in a record select the record's class, or none for a fallback allocation. |
| `ThreadCacheSafety.ReachableLaid` | src/detail/thread_cache_state.cpp:92-111 | In every run, blocks central storage has out are aligned for their class or request and do not overlap. |
| `CentralRefinement.AllocateRefines` | src/segregated_allocator.cpp:86-144 | An allocation by the segregated allocator adds exactly one non-null, not handed-out address of the selected kind to the map the protocol keeps, or changes nothing, and it succeeds exactly when the class or the provider can serve it. |
| `CentralRefinement.FreeRefines` | src/segregated_allocator.cpp:146-204 | A free takes an address off that map exactly when it is on it and the sized check of its kind accepts; otherwise nothing changes. |
| `CentralRefinement.StepLinked` | src/detail/thread_cache_state.cpp:92-111 | Every step of the protocol over the real allocator keeps the protocol's central map equal to what the allocator has handed out. |
| `CentralRefinement.NewIsGranted` | src/segregated_allocator.cpp:86-144 | What the real allocator hands out is a place the protocol's central storage may answer: aligned, within the address space, clear of everything handed out. |
| `CentralRefinement.HeldMemoryDisjoint` | src/thread_cached_allocator.cpp:106-125 | End to end: in every run of disciplined threads over the real allocator, any two held addresses are aligned as last requested and their requested bytes do not overlap. |
| `CentralUnderflow.HarmlessOverReal` | src/detail/thread_cache_state.cpp:123-283 | A free that is harmless in the protocol keeps `live_allocations` non-negative in every disciplined joint run over the real allocator. |
| `CentralUnderflow.RealUnderflow` | src/detail/thread_cache_state.cpp:123-283 | At any quiet moment when clients hold nothing, a stray free of the address the real allocator would hand out next for some request, begun before that request on another thread, leads in a disciplined joint run to `live_allocations` below zero. |
| `Bits.PowerOfTwoTest` | src/size_class_selector.cpp:10-12 | The bit test accepts exactly the powers of two. |
| `SizeClasses.ValidateClasses` | src/size_class_selector.cpp:16-33 | The validating loop accepts exactly the strictly increasing, non-empty tables of powers of two that hold a pointer. |
| `SizeClasses.BinarySelect` | src/size_class_selector.cpp:39-56 | Binary search returns the first class that is large enough. |
| `SizeClasses.SelectIsLeast` | src/size_class_selector.cpp:39-56 | The selected class holds size and alignment, no smaller one does, and a request is turned away only if none does. |
| `Growth.GrowthClosedForm` | src/chunk_manager.cpp:140-158 | After k growths the saturating step-by-step size is min(cap, initial·factor^k) in unbounded arithmetic. |
| `BlockLayouts.RoundUpIsLeast` | src/detail/block_layout.cpp:30-36 | Mask rounding yields the least large-enough multiple, and fails exactly when the sum would wrap. |
| `BlockLayouts.CheckedMultiplyExact` | src/detail/block_layout.cpp:23-28 | The division test fails exactly when the product exceeds `size_t`. |
| `BlockLayouts.MakeLayoutSound` | src/detail/block_layout.cpp:40-74 | An accepted layout is aligned, fits request, node and guards in each block in order, and its total does not wrap. |
| `BlockLayouts.MakeLayoutExact` | src/detail/block_layout.cpp:40-74 | The checked computation accepts exactly the requests whose total size, in unbounded arithmetic, is a `size_t`, and yields that layout; no check on the way refuses more. |
| `ChunkModel.BlockStartExact` | src/memory_chunk.cpp:117-133 | The remainder test accepts exactly the starts of blocks. |
| `ChunkModel.BlocksApart` | src/memory_chunk.cpp:51-64 | Blocks lie inside the storage and do not overlap. |
| `ChunkModel.AllocateThenFree` | src/memory_chunk.cpp:87-115 | Freeing what was just allocated restores the chunk, free order included. |
| `MemoryChunks.MemoryChunk.constructor` | src/memory_chunk.cpp:19-58 | The list built backwards through the blocks is the stack 0, 1, 2, … and the table marks all blocks free. |
| `MemoryChunks.MemoryChunk.Allocate` | src/memory_chunk.cpp:87-97 | Following the link in memory pops the abstract stack; list, table and count keep describing it. |
| `MemoryChunks.MemoryChunk.Deallocate` | src/memory_chunk.cpp:99-115 | A block in use is pushed; null, foreign, interior and duplicate pointers are refused with every field and word unchanged. |
| `MemoryChunks.MemoryChunk.ClientWrites` | src/memory_chunk.cpp:87-115 | Whatever bytes a client writes anywhere in a block it owns, the list stays acyclic and through exactly the free blocks, and no other block changes. |
| `ManagerModel.NextGrowthClosedForm` | src/chunk_manager.cpp:59-69 | The next chunk size depends only on the number of successful growths, by the closed form. |
| `ManagerModel.DeallocateKeepsOthers` | src/chunk_manager.cpp:116-138 | No free, with whatever reclamation follows, removes a chunk in which another block is in use. |
| `ManagerModel.AllocateExact` | include/memory_pool/chunk_pool.hpp:29-35 | The head block of the first chunk that has one; only if none has, the first block of a new chunk with the next number of blocks, behind the old chunks; null with nothing changed exactly if that chunk would exceed `size_t`, or the provider or bookkeeping fails. |
| `ManagerModel.DeallocateExact` | src/chunk_manager.cpp:47-57 | A free succeeds exactly on the start of a block in use. The chunk around it is then gone if and only if that was its last block in use and at least `spare_empty_chunks` other chunks have none; otherwise all chunks stay in place. A double free is reported exactly on the start of a free block. |
| `ManagerModel.SpareChunksBound` | src/chunk_manager.cpp:13-69 | In every run of a growing pool from its construction, once an allocation has succeeded, completely free chunks never exceed `spare_empty_chunks`. |
| `ChunkManagers.ChunkManager.Grow` | src/chunk_manager.cpp:59-69 | One new, completely free chunk object is appended behind the old ones and the size sequence moves on, or, whatever failed, no field changes. |
| `ChunkManagers.ChunkManager.Allocate` | include/memory_pool/chunk_pool.hpp:29-35 | A block of the first chunk object that has one, found through its list in memory; only if none has, one of a new chunk; null exactly if none can be had. |
| `ChunkManagers.ChunkManager.Deallocate` | src/chunk_manager.cpp:116-138 | The block goes back to the chunk around it, which is given up if and only if no block of it is left in use and `spare_empty_chunks` others are idle; a refused pointer changes nothing. |
| `PoolVectors.PoolVector.Allocate` | src/segregated_allocator.cpp:73-78 | Work on one pool leaves every other pool, its chunks and the free lists in their memory as they were. |
| `PoolVectors.PoolVector.Deallocate` | src/segregated_allocator.cpp:73-78 | The same for a free, with whatever reclamation follows. |
| `SegregatedSnapshot.LiveAllocationsDisjoint` | src/segregated_allocator.cpp:86-144 | Live allocations are aligned as requested and occupy pairwise disjoint regions of the requested size. |
| `SegregatedProofs.AllocateKeepsOk` | src/segregated_allocator.cpp:86-144 | Pooled, grown or direct, an allocation returns an address that was not live; any failure changes nothing; the duplicate-address error is unreachable. |
| `SegregatedProofs.AllocateOutcome` | src/segregated_allocator.cpp:86-144 | The exact outcome: a bad alignment exactly if it is no power of two; for a request some class holds, a pointer exactly if a chunk of the smallest such class has a free block or a new chunk fits `size_t` and provider and bookkeeping succeed; for any other, a pointer exactly if provider and bookkeeping succeed, and it is the provider's address. |
| `SegregatedProofs.DeallocateKeepsOk` | src/segregated_allocator.cpp:146-173 | A free takes back a live address or is refused and changes nothing, reclamation included. |
| `SegregatedProofs.FreeOfLiveSucceeds` | src/segregated_allocator.cpp:146-173 | Freeing a live address without a size always succeeds. |
| `SegregatedProofs.FreeOutcomeExact` | src/segregated_allocator.cpp:146-173 | Every unsized free by what is at the address: null is ignored, a live address is given back to its pool (with exact reclamation) or the provider, the start of a free block is a double free, anything else is not owned. |
| `SegregatedProofs.SizedFreeExact` | src/segregated_allocator.cpp:175-204 | A sized free of a live address succeeds exactly when its arguments select the class of the original request or equal the normalized fallback metadata. |
| `SegregatedProofs.SizedRefusal` | src/segregated_allocator.cpp:175-204 | A sized free of a live address that does not succeed reports a mismatch, or a bad alignment if it is pooled and the alignment is no power of two. |
| `SegregatedProofs.EveryRunOk` | src/segregated_allocator.cpp:86-204 | The allocator's invariant holds in every state of every run, through growth, reclamation, fallback, refused frees and failures. |
| `SegregatedProofs.RunLiveDisjoint` | src/segregated_allocator.cpp:86-173 | In every state of every run live allocations are aligned and pairwise disjoint at their requested size. |
| `SegregatedProofs.LedgerIsExact` | src/segregated_allocator.cpp:110-130 | What the provider has outstanding is exactly the chunk storages and tracked fallbacks, each with the size and alignment it will be returned with. |
| `SegregatedAllocators.SegregatedAllocator.Start` | src/segregated_allocator.cpp:28-55 | Construction succeeds exactly if every pool can grow once, and each then has its own first chunk; if one cannot, the provider has everything back. |
| `SegregatedAllocators.SegregatedAllocator.Allocate` | src/segregated_allocator.cpp:86-144 | The object follows the value model and keeps its invariant, with the exact outcome of `AllocateOutcome`: the address was not live, and a failure leaves allocator and ledger as they were. |
| `SegregatedAllocators.SegregatedAllocator.Deallocate` | src/segregated_allocator.cpp:146-173 | It succeeds exactly for live addresses, once, and gives back exactly the block or direct allocation there; anything else changes nothing. |
| `SegregatedAllocators.SegregatedAllocator.DeallocateSized` | src/segregated_allocator.cpp:175-204 | The sized overload frees a live address exactly when the route agrees with its request. |
| `SegregatedAllocators.SegregatedAllocator.OwningClass` | src/segregated_allocator.cpp:63-71 | The search loop returns the first pool whose chunks contain the pointer. |
| `SegregatedAllocators.SegregatedAllocator.Destroy` | src/segregated_allocator.cpp:57-61 | Destruction returns every provider allocation once with its own size and alignment, and none is left. |
| `SegregatedAllocators.SegregatedAllocator.Run` | src/segregated_allocator.cpp:86-204 | Any run of the object, its free lists threaded through memory that clients overwrite at will between calls, follows the value model and ends with live allocations aligned and pairwise disjoint. |
| `HeapFallbacks.HeapFallbackPool.OnExhaustion` | include/memory_pool/exhaustion_policies.hpp:44-57 | The new block is disjoint from every chunk and fallback block the provider has outstanding; a failure of provider or bookkeeping leaves nothing behind. |
| `HeapFallbacks.HeapFallbackPool.Start` | src/chunk_manager.cpp:30-32 | The manager's first chunk fixes the size and alignment with which fallback blocks are asked for and returned; a failure leaves nothing behind. |
| `HeapFallbacks.HeapFallbackPool.Allocate` | include/memory_pool/chunk_pool.hpp:29-35 | The block the first chunk with one gives up, else a fallback block of the manager's block size, else nothing changes; the ledger stays exactly chunks plus fallback blocks. |
| `HeapFallbacks.HeapFallbackPool.Deallocate` | include/memory_pool/chunk_pool.hpp:37-49 | A block goes back to its chunk, which is given up exactly under the spare rule, a fallback block to the provider, anything else changes nothing; the ledger stays exact through reclamation. |
| `HeapFallbacks.HeapFallbackPool.TryDeallocate` | include/memory_pool/exhaustion_policies.hpp:63-72 | Exactly the policy's own pointers are taken, and each is returned to the provider once, correctly. |
| `HeapFallbacks.HeapFallbackPool.Destroy` | include/memory_pool/chunk_pool.hpp:22-22 | Destruction returns all fallback blocks and all chunks once, as they were asked for, and none is left. |
| `FixedPoolModel.LayoutHasShape` | src/fixed_size_memory_pool.cpp:16-48 | Every layout the constructor accepts, placed by a conforming provider, has room for link, payload and canaries in each block without overlap. |
| `FixedPoolModel.PayloadExact` | src/fixed_size_memory_pool.cpp:138-164 | For storage that ends below 2^64, `is_block_start` accepts a pointer exactly when it is the start of some block's payload, and `block_index` is that block. |
| `FixedPoolModel.TopOfMemoryAcceptsNothing` | src/fixed_size_memory_pool.cpp:138-142 | The one case outside: were the storage to end at 2^64, the unchecked sum would wrap and no pointer would be accepted. |
| `FixedPoolModel.PayloadWritesKeepCanaries` | src/detail/memory_guard.cpp:15-27 | Writes confined to the payload of any block never disturb a canary of any block. |
| `FixedPoolModel.CompareWords` | src/detail/memory_guard.cpp:21-27 | Comparing decoded words is comparing all their bytes. |
| `FixedSizeMemoryPools.FixedSizeMemoryPool.Allocate` | src/fixed_size_memory_pool.cpp:58-103 | Fast or slow, it pops one LIFO stack, changes no byte outside the block handed out, and never reaches `std::terminate`. |
| `FixedSizeMemoryPools.FixedSizeMemoryPool.Deallocate` | src/fixed_size_memory_pool.cpp:105-136 | Each outcome exactly when it is due: any changed canary byte is reported with nothing written, foreign and interior pointers change nothing, a block in use is pushed, with its payload poisoned if asked for and every other byte unchanged, and a double free leaves the list alone exactly when poisoning is off or guards are on. |
| `FixedSizeMemoryPools.FixedSizeMemoryPool.FreeAgain` | src/fixed_size_memory_pool.cpp:120-136 | Freeing a free block under diagnostics is refused, and the pool then passes validation exactly when poisoning is off or guards are on. |
| `FixedSizeMemoryPools.FreeTwice` | src/fixed_size_memory_pool.cpp:120-136 | A freshly built pool, one allocation and two frees show the failing case on every layout. |
| `FixedSizeMemoryPools.FixedSizeMemoryPool.LinkIsNoCanary` | src/detail/memory_guard.cpp:21-27 | Where link and front canary share their bytes, a double free is always caught by the guards, even without diagnostics. |
| `FixedSizeMemoryPools.FixedSizeMemoryPool.ValidateIntegrity` | src/fixed_size_memory_pool.cpp:173-193 | On arbitrarily corrupted memory it ends, and reports the pool intact exactly when bytes, head, count and table describe some free stack. |
| `FixedSizeMemoryPools.ValidateFreeBlocks` | src/detail/diagnostic_state.cpp:34-63 | Accepts exactly lists of the expected length that name existing blocks at most once and exactly those marked free. |
| `FixedSizeMemoryPools.FixedSizeMemoryPool.ClientWrites` | src/fixed_size_memory_pool.cpp:105-136 | Arbitrary payload writes leave list, canaries and all other blocks alone. |
| `FixedSizeMemoryPools.FixedSizeMemoryPool.Run` | src/fixed_size_memory_pool.cpp:58-136 | On every legal trace of allocations, frees and payload writes the blocks handed out are those of the abstract stack. |
| `FixedSizeMemoryPools.SameBlocks` | src/fixed_size_memory_pool.cpp:16-136 | Option independence: two pools under any two combinations of diagnostics, poison, guards and statistics hand out the same blocks on every legal trace. |
| `ArenaProofs.PaddingIsLeast` | src/detail/arena_chunk.cpp:28-35 | `std::align` skips no more bytes than needed to reach a multiple. |
| `ArenaProofs.FreshChunkFits` | src/monotonic_arena.cpp:148-162 | A fresh chunk always serves the request it was made for, so the error at 157-160 is unreachable. |
| `ArenaProofs.AllocateOk` | src/monotonic_arena.cpp:127-167 | An allocation adds one aligned region disjoint from all live ones and below its chunk's cursor; a failure leaves the arena as it was. |
| `ArenaOutcomes.TryAllocateExact` | src/detail/arena_chunk.cpp:22-47 | A chunk serves a request exactly when some aligned place behind its cursor has room for it, and at the first such place. |
| `ArenaOutcomes.AllocateExact` | src/monotonic_arena.cpp:127-167 | The exact outcome: refused if the alignment is no power of two; else the first chunk from the current one on with room, which becomes current; if none has, a new chunk of the closed-form size or the request's, if larger, at the provider's address; out of memory exactly if the provider fails. |
| `ArenaProofs.RollbackOk` | src/monotonic_arena.cpp:169-180 | A rollback releases exactly the failed allocation, or nothing if it is no longer the latest, and never bytes of another live allocation. |
| `ArenaOutcomes.AllocateThenRollback` | src/monotonic_arena.cpp:169-180 | Rolling back the latest allocation lowers its chunk's cursor to where it was and returns the bytes, padding included; every other chunk is as before, and the same request then gets the same address without asking the provider. |
| `ArenaOutcomes.FailedCreate` | include/memory_pool/monotonic_arena.hpp:32-58 | A creation that throws, with any nested operations: if its constructor allocated nothing, cursors, used bytes, live allocations and registered objects are as before it and a retry gets the same address; if it did, nothing is taken back. |
| `ArenaOutcomes.CompletedCreate` | include/memory_pool/monotonic_arena.hpp:32-58 | A creation that completes keeps its own storage, at the address and size it asked for, and everything its constructor allocated. |
| `ArenaOutcomes.RegistersExactly` | include/memory_pool/monotonic_arena.hpp:38-49 | The registered objects are exactly those whose creation completed and asked for it, once each, in the order of completion, nested ones first. |
| `ArenaProofs.ExecOk` | include/memory_pool/monotonic_arena.hpp:32-58 | Creation with any nesting and any failing constructor or registration keeps everything that was live or registered before, at its place. |
| `ArenaProofs.ArenaLifetime` | src/monotonic_arena.cpp:64-223 | Over every lifetime from construction: live regions are aligned, disjoint and below their cursors, `current_used_bytes` is the sum of the cursors, registered objects are live. |
| `ArenaOutcomes.ResetIsNew` | src/monotonic_arena.cpp:193-223 | Whatever happened before, a reset that retains only the initial chunk makes the arena what it was when constructed; one that retains all keeps every chunk in its place with its cursor at the start. |
| `ArenaOutcomes.ValidateExact` | src/monotonic_arena.cpp:20-42 | The options accepted are exactly those with a power of two as alignment and a usable growth policy, and only the alignment is raised. |
| `ArenaProofs.NextChunkClosedForm` | src/monotonic_arena.cpp:75-92 | The next chunk size is min(cap, initial·factor^(k+1)) after k growths since construction or a retain-initial reset. |
| `ArenaReplay.Replay` | src/monotonic_arena.cpp:127-207 | With all chunks retained, running any served workload again after a reset returns the same addresses in the same order and never calls the provider, even one that would refuse. |
| `MonotonicArenas.MonotonicArena.constructor` | src/monotonic_arena.cpp:64-71 | The new object is the value model's new arena. |
| `MonotonicArenas.ArenaChunk.TryAllocate` | src/detail/arena_chunk.cpp:22-47 | The chunk object advances its cursor as the value model says, or stays as it was. |
| `MonotonicArenas.MonotonicArena.Allocate` | src/monotonic_arena.cpp:127-167 | The scan from the current chunk and the growth of the object refine the value model on which the lifetime theorems are proved. |
| `MonotonicArenas.MonotonicArena.RollbackLast` | src/monotonic_arena.cpp:169-180 | Following the remembered chunk pointer, the object lowers that chunk's cursor and the used bytes to what they were before the latest allocation, and nothing else; for any other pointer it changes nothing. |
| `MonotonicArenas.MonotonicArena.DestroyRegistered` | src/monotonic_arena.cpp:182-191 | Registered objects are destroyed once each, newest first. |
| `MonotonicArenas.MonotonicArena.Reset` | src/monotonic_arena.cpp:193-223 | Destructors run in reverse order, then storage is rewound or released by policy. |
| `MonotonicArenas.MonotonicArena.Perform` | include/memory_pool/monotonic_arena.hpp:32-58 | `create` on the object, nested creations included, has the effect of the value model's operation. |

## Left out

- Statistics other than the gauges named above (peaks, byte totals, hit and flush counts, per-class counters): one-branch telemetry.
- Relaxed memory order and the consistency of a snapshot taken during a run: each counter update is one atomic step.
- A queued mutex: the scheduler may pass over a waiting thread, so no fairness is claimed, only that some thread can move.
- `weak_ptr` expiry and destruction of the allocator while workers run: ruled out by include/memory_pool/thread_cached_allocator.hpp:15-16. The per-thread registry map is reduced to one cache per thread with release.
- `NewDeleteMemoryProvider`, `PmrUpstreamProvider`, `PoolMemoryResource`, `BasicSynchronizedAllocator`, `ObjectPool`, `PoolPtr`: wrappers around what is modelled.
- The null and throwing exhaustion policies, `capacity`, `available`, `in_use`, `debug_dump` and the leak callback: easy members.
- `ThreadCacheDiscipline.StrayFreeExact`: exact over central storage as an oracle; which of those places the real chunks and provider can offer depends on chunk sizes, spare chunks and the provider, and is not part of the condition.
- The arena's own provider ledger, calls to `reset` from inside a constructor, and destructors that use the arena.
