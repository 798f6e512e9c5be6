# MUSA execution provider: memory, fusion and data movement

This project models the parts of the MUSA execution provider for ONNX Runtime whose correctness is
not visible in any one function, and proves what they promise.

- **The stream-ordered arena** (`arena*.dfy`, `region_manager.dfy`, `ownership_index.dfy`,
  `device_allocator.dfy`). A best-fit allocator with coalescing, size-class bins, linked chunk lists
  per region, recycled chunk records, a slot table found by binary search, and an owning stream per
  chunk. Each public operation holds the arena's lock from start to end, so `Arena.ArenaImpl` is a
  sequential class, and `Valid()` is what every operation keeps. What clients may rely on is said in
  `arena_trace.dfy` on the bare sequence of events, without chunks or bins: outstanding blocks never
  overlap, memory crosses streams only after the owner was released, and a region is not given back
  under an outstanding block. `ArenaImpl` keeps a ghost `trace` of its own run and `RunIsSafe` says
  that every run is such a sequence.
- **Graph analyses behind fusion** (`fusion_graph.dfy`, `shape_provenance.dfy`, `fusion_matcher.dfy`,
  `mask_end_cache.dfy`, `mask_end_hints.dfy`, `boundary_key.dfy`). The search that decides whether
  fusing a set of nodes is convex, and what convexity is worth; the worklists that decide whether a
  value is fixed by input shapes, and the cache that relies on them; greedy acceptance of candidates;
  the key and the store that carry hints from matching to compilation.
- **Data movement** (`concat_split_plan.dfy`, `concat_split_copy.dfy`, `concat_split_sum.dfy`,
  `concat_reshape.dfy`, `d2h_batch.dfy`). Copy plans, descriptor tables and staging buffers against
  the ONNX operators (ONNX operator specification: Concat, Split, Sum, Unsqueeze, Reshape) or
  tensor-by-tensor copying.
- **The pinned host pool** (`pinned_trace.dfy`, `pinned_blocks.dfy`, `pinned_steps.dfy`,
  `pinned_host_pool.dfy`). Every critical section is one method, and what a thread holds between its
  critical sections is written in the ghost map `transit`. Each step leaves the entries of other
  threads alone and needs only its own, so any interleaving of clients, the polling thread, the
  device and the driver is a sequence of steps that keep `Valid()`. The pool keeps a ghost `run` of
  the steps so far; `RunIsSafe` says that it is always one of the safe runs of `pinned_trace.dfy`,
  and there `ReuseAwaitsWork` and `OneClient` say over whole runs what that is worth.

Where the code does not meet a property, the code is modelled as it is, with the exact condition:

- A region size that is no multiple of 256 makes the region table throw after the bytes were counted
  (`musa_arena.cc:217`, `musa_arena.h:366`). One call of `Extend` throws exactly if the device grants a
  first attempt of such a size (`RaggedIff`). `WholeGrowth`, which looks at the growth cap and the memory
  budget, says for which configurations this never happens, and it is exact: under any other one,
  `RaggedRun` is a run of the arena that throws and leaves bytes counted that nobody holds.
- `Free` does not refuse every address that is no block's: the slot lookup drops the low eight bits of
  its offset (`musa_arena.h:406-412`, `musa_arena.cc:652-656`). Accepted are exactly null, the reserved blocks and the
  addresses in the first 256 bytes of an in-use chunk (`Free`), from any state (`FreeInsideBlock`);
  `InnerFreeRun` is a run in which freeing p + 1 gives back the block at p.
- Rounding wraps for a request within 254 bytes of the largest size_t, and only there
  (`RoundedBytesCovers`). Such a request counts as one of no bytes (`WrappedRequest`).
- The pinned pool treats a failed wait like a completed one. A poll lets a busy block go if and only if
  the block's own query fails (`LetGoBusyIff`), giving up an asynchronous free does if and only if its
  own stream synchronisation fails (`AbandonedEarlyIff`), and no block is handed out or returned while
  busy in any other way (`ReuseAwaitsWork`). From any state, one failed query of a block that is to be
  cached is enough for a client to get it while busy (`FailedQueryReuses`); `FailedQueryReissuesEarly`
  is such a run from an empty pool.
- The Concat/Split matcher takes an axis of -1, the code that builds the fused node wants the stored
  value 1: `MatchedBuildsIffAxesAreOne`, with `MinusOneIsRefused` as an instance.
- Two fusion boundaries can have one key when an input name starts with a bar: `KeysAgree` says exactly
  when, `BarCollision` is an instance. For the hints of one graph it does no harm
  (`HintedRequestsAreFunctional`).
- The hints of all graphs go into one store (`ep.h:71-78`), where sibling subgraphs with the same names
  overwrite or find each other's. What is found is right if the graph that is compiled was the last to
  store a hint there (`FoundIsLast`, `HintedRequestsAreFunctional`). A graph that has stored none may be
  one in which the hint found is wrong (`ForeignHintMisleads`, with `ForeignHintIsFound` as an instance).
- Convexity of each fused set does not make contracting all of them acyclic. `ContractionAcyclicIff` says
  that the sets must moreover not feed each other in a circle, `TwoSetsContract` says it for two, and
  `ConvexSetsMayFeedEachOther` gives two convex sets whose contraction has a cycle.

## Model

| member | source | states |
|---|---|---|
| `ArenaTypes.RoundedBytesCovers` | musa/ep/src/musa_arena.cc:304-307 | the rounded size covers the request exactly when adding 255 does not wrap, and then exceeds it by less than 256 |
| `ArenaTypes.RoundedBytesFixed` | musa/ep/src/musa_arena.cc:304-307 | multiples of 256 round to themselves |
| `ArenaTypes.BackpedalShrinks` | musa/ep/src/musa_arena.cc:183-196 | a retry at nine tenths, rounded up, is smaller exactly above 2304 bytes |
| `ArenaTypes.BackpedalAboveCutoff` | musa/ep/src/musa_arena.cc:183-196 | so the retry loop makes progress for as long as it passes its 8 KiB cut-off |
| `ArenaTypes.Log2FloorNonZeroSlow` | musa/ep/src/musa_arena.h:518-525 | the shifting loop computes the position of the highest bit |
| `ArenaTypes.Log2FloorUnique` | musa/ep/src/musa_arena.h:518-548 | that position is the only r with 2^r <= n < 2^(r+1) |
| `ArenaTypes.BinBounds` | musa/ep/src/musa_arena.h:553-561 | a size is in bin b exactly when it lies between the bin's size and the next one's, the outer bins being open |
| `ArenaTypes.BinMonotone` | musa/ep/src/musa_arena.h:557-561 | larger sizes are in later bins |
| `ArenaTypes.ConstructorBinChecks` | musa/ep/src/musa_arena.cc:76-88 | the constructor's self-checks of the bin boundaries hold for all 21 bins |
| `DeviceMemory.DeviceAllocator.Alloc` | musa/ep/src/musa_arena.cc:123-130 | a block from the device is new and disjoint from all held ones, or null |
| `DeviceMemory.DeviceAllocator.Free` | musa/ep/src/musa_arena.cc:91-98 | only a held block may be returned, and exactly it is gone |
| `Regions.RegionManager.UpperBound` | musa/ep/src/musa_arena.h:471-478 | binary search by end address finds the first region that ends behind the pointer |
| `Regions.RegionManager.RegionFor` | musa/ep/src/musa_arena.h:471-480 | the region found is the one that covers the address; refused when the search runs off the end |
| `Regions.RegionManager.GetHandle` | musa/ep/src/musa_arena.h:389-447 | the slot of the address's granule, and an error exactly for addresses in no region |
| `Regions.RegionManager.SetHandle` | musa/ep/src/musa_arena.h:449-451 | writes exactly that slot |
| `Regions.RegionManager.Erase` | musa/ep/src/musa_arena.h:453-453 | clears exactly that slot |
| `Regions.RegionManager.AddAllocationRegion` | musa/ep/src/musa_arena.h:361-433 | the new region is inserted in address order with empty slots, or refused exactly when its size is no multiple of 256 |
| `Regions.RegionManager.RemoveAllocationRegion` | musa/ep/src/musa_arena.h:435-443 | removes the first region that ends above the address, which for a base is the region itself; refused exactly if there is none |
| `Regions.InsertKeepsSlots` | musa/ep/src/musa_arena.h:424-457 | inserting a region shifts no other region's slots |
| `Regions.RemoveKeepsSlots` | musa/ep/src/musa_arena.h:424-457 | neither does removing one |
| `OwnershipIndex.ArenaOwnershipIndex.Assign` | musa/ep/src/arena_ownership_index.h:27-61 | moves a chunk between owner sets and keeps both tables the inverse of the owners; the two checks made before any write leave everything as it was |
| `OwnershipIndex.ArenaOwnershipIndex.FindStream` | musa/ep/src/arena_ownership_index.h:63-66 | finds the stream of an implementation exactly if that stream owns a chunk |
| `OwnershipIndex.ArenaOwnershipIndex.FindChunks` | musa/ep/src/arena_ownership_index.h:68-71 | exactly the chunks the stream owns, and never an empty set |
| `OwnershipIndex.WithdrawKeepsConsistent` | musa/ep/src/arena_ownership_index.h:39-53 | taking the last chunk of a stream drops the stream from both tables |
| `OwnershipIndex.InstallKeepsConsistent` | musa/ep/src/arena_ownership_index.h:55-60 | entering a chunk keeps each chunk in one set only |
| `ArenaTrace.OutstandingDisjoint` | musa/ep/src/musa_arena.h:257-288 | in a safe run any two outstanding blocks are disjoint and none is empty |
| `ArenaTrace.UserStays` | musa/ep/src/musa_arena.cc:568-603 | the last user of a byte stays its last user until released or until the memory comes afresh |
| `ArenaTrace.CrossStreamReuseNeedsRelease` | musa/ep/src/musa_arena.cc:568-603 | a byte allocated on one stream and later on another was released, or its region obtained afresh, in between |
| `ArenaTrace.OutstandingInHeldRegion` | musa/ep/src/musa_arena.cc:465-539 | in a safe run each outstanding arena block lies whole in a region still held, so no region is given back under one |
| `ArenaLayout.RegionTiled` | musa/ep/src/musa_arena.cc:605-682 | following next from the chunk in the slot of a region's base meets each of the region's chunks once, each starting where the last one ended, and ends at the region's end; the sizes add up to the region's, and each address lies in exactly one live chunk |
| `ArenaLayout.SplitKeepsLayout` | musa/ep/src/musa_arena.cc:605-633 | the pointer surgery of a split keeps lists, sizes and separation |
| `ArenaLayout.SplitKeepsSlots` | musa/ep/src/musa_arena.cc:605-633 | after a split the slot table maps each chunk start, and nothing else, to its handle |
| `ArenaLayout.MergeKeepsLayout` | musa/ep/src/musa_arena.cc:658-676 | so does the surgery of a merge |
| `ArenaLayout.DropKeepsSlots` | musa/ep/src/musa_arena.cc:678-682 | and clearing the slot of a deleted chunk |
| `ArenaLayout.AddRegionKeepsLayout` | musa/ep/src/musa_arena.cc:225-241 | a new region enters as one chunk |
| `ArenaLayout.SameUsedRegions` | musa/ep/src/musa_arena.cc:465-539 | dismantling other regions does not change whether a region is in use |
| `ArenaBins.LowerBound` | musa/ep/src/musa_arena.cc:684-711 | the place of a chunk in the (size, address) order of its bin |
| `ArenaBins.InsertKeepsBins` | musa/ep/src/musa_arena.cc:684-692 | inserting keeps every bin sorted and every binned chunk in the bin of its size class |
| `ArenaBins.RemoveKeepsBins` | musa/ep/src/musa_arena.cc:694-711 | so does removing |
| `ArenaBins.FindBestFit` | musa/ep/src/musa_arena.cc:568-603 | searching bins upwards finds a suitable chunk exactly if one exists among all free chunks, and then the first in (size, address) order |
| `ArenaBins.FirstIsLeast` | musa/ep/src/musa_arena.h:331-349 | the first suitable chunk of the first bin that has one precedes all others |
| `ArenaBins.LowerBinIsSmaller` | musa/ep/src/musa_arena.h:549-561 | chunks of lower bins are smaller, so stopping at the first bin loses nothing |
| `ArenaRecords.PopRecord` | musa/ep/src/musa_arena.cc:248-258 | taking a record off the free list leaves the list and the live records a partition |
| `ArenaRecords.PushRecord` | musa/ep/src/musa_arena.cc:260-267 | so does returning one |
| `ArenaRecords.IdleInChain` | musa/ep/src/musa_arena.cc:248-267 | recycled records are free, unbinned and unowned |
| `ArenaPolicy.MergeSeams` | musa/ep/src/musa_arena.cc:725-751 | a merge removes the seam it joins and adds none |
| `ArenaPolicy.SplitSeams` | musa/ep/src/musa_arena.cc:605-633 | a split adds no seam but the one it makes |
| `ArenaPolicy.ClaimKeepsCoalesced` | musa/ep/src/musa_arena.cc:541-566 | handing a chunk out, with or without cutting it, leaves nothing to coalesce |
| `ArenaPolicy.SeamsPastFree` | musa/ep/src/musa_arena.cc:881-896 | after a walk step at a free chunk no seam is left before the end of the result |
| `ArenaHistory.ClaimStep` | musa/ep/src/musa_arena.cc:541-566 | recording an allocation keeps chunks and history in agreement, and it is a safe step |
| `ArenaHistory.FreeStep` | musa/ep/src/musa_arena.cc:713-723 | so does recording a free |
| `ArenaHistory.MapStep` | musa/ep/src/musa_arena.cc:217-244 | and a new region |
| `ArenaHistory.UnmapStep` | musa/ep/src/musa_arena.cc:465-539 | and a region given back, which no outstanding block overlaps |
| `ArenaHistory.ReleaseStep` | musa/ep/src/musa_arena.cc:858-879 | and a release, after which the owners are again the last users |
| `ArenaSteps.SplitRestores` | musa/ep/src/musa_arena.cc:605-633 | a split restores the whole structure: lists, slots, bins, records and owners |
| `ArenaSteps.MergeRestores` | musa/ep/src/musa_arena.cc:658-676 | so does a merge |
| `ArenaSteps.RegionRestores` | musa/ep/src/musa_arena.cc:225-241 | so does entering a region |
| `ArenaSteps.ClaimSettles` | musa/ep/src/musa_arena.cc:541-566 | an allocation leaves history, fit, coalescing and accounts as they must be between operations |
| `ArenaGrowth.GrownToFits` | musa/ep/src/musa_arena.cc:137-147 | doubling terminates at a size that holds the request, less than twice it if the start was too small |
| `ArenaGrowth.GrownToDoubles` | musa/ep/src/musa_arena.cc:137-147 | it is the start doubled as often as it takes and no more often, or the largest size_t where the next doubling would overflow |
| `ArenaGrowth.AttemptsShrink` | musa/ep/src/musa_arena.cc:181-197 | the sizes asked for: each retry is nine tenths of the attempt before it, rounded up, smaller, and a multiple of 256 that holds the request; there is a next one exactly if it would still hold the request and be 8 KiB |
| `ArenaGrowth.GrowthStaysWhole` | musa/ep/src/musa_arena.cc:132-162 | growth from a whole size stays whole |
| `ArenaGrowth.GrowthReachesCap` | musa/ep/src/musa_arena.cc:152-162 | enough small extensions bring the growth size to the configured cap |
| `ArenaGrowth.RaggedAtCap` | musa/ep/src/musa_arena.cc:132-162 | without whole growth, one granule asked for at the cap makes a first attempt that is no multiple of 256 |
| `ArenaRagged.RaggedRun` | musa/ep/src/musa_arena.cc:110-246 | whole growth is exact: under any other configuration some run throws and leaves bytes counted as allocated that nobody holds |
| `ArenaGrowth.WholeGrowthExamples` | musa/ep/src/musa_arena.h:98-105 | a cap that is a multiple of 256, or 64, or not below the budget, is safe; 1000 is accepted as valid and is safe only with less than 1024 bytes |
| `Arena.BalancedAfterRegion` | musa/ep/src/musa_arena.cc:217-227 | the counters stay exact when a region is entered |
| `Arena.BalancedAfterShrink` | musa/ep/src/musa_arena.cc:505-528 | and when one is given back |
| `Arena.ArenaImpl.constructor` | musa/ep/src/musa_arena.cc:39-89 | a new arena is valid, with an empty history |
| `Arena.ArenaImpl.AllocateChunk` | musa/ep/src/musa_arena.cc:248-258 | a record that is not live, from the free list or by growing the vector |
| `Arena.ArenaImpl.DeallocateChunk` | musa/ep/src/musa_arena.cc:260-267 | the record joins the free list without an owner |
| `Arena.ArenaImpl.SetChunkStream` | musa/ep/src/musa_arena.cc:269-281 | record and index move together, so the index stays the inverse of the owner fields |
| `Arena.ArenaImpl.DeleteChunk` | musa/ep/src/musa_arena.cc:678-682 | the chunk's slot is cleared and its record recycled |
| `Arena.ArenaImpl.InsertFreeChunkIntoBin` | musa/ep/src/musa_arena.cc:684-692 | a free chunk goes to the bin of its size |
| `Arena.ArenaImpl.RemoveFreeChunkFromBin` | musa/ep/src/musa_arena.cc:704-711 | a binned chunk is always found in its bin and removed |
| `Arena.ArenaImpl.SplitChunk` | musa/ep/src/musa_arena.cc:605-633 | the chunk keeps the requested bytes, the tail becomes a free binned chunk of the same owner, and all structure is kept |
| `Arena.ArenaImpl.Merge` | musa/ep/src/musa_arena.cc:658-676 | the first chunk takes over the second one's bytes and links, the second's record is recycled |
| `Arena.ArenaImpl.Coalesce` | musa/ep/src/musa_arena.cc:725-751 | joins with a free neighbour of the same owner, or both unowned, on either side, and no seam is left around the result |
| `Arena.ArenaImpl.FreeAndMaybeCoalesce` | musa/ep/src/musa_arena.cc:713-723 | frees exactly this chunk and leaves no two neighbours that are both free and of one owner or both unowned; refused for a chunk not in use |
| `Arena.ArenaImpl.Free` | musa/ep/src/musa_arena.cc:635-650 | accepts exactly null, the reserved blocks, and the addresses in the first granule of an in-use chunk, and returns exactly that block; any other address is refused without effect |
| `Arena.ArenaImpl.DeallocateRawInternal` | musa/ep/src/musa_arena.cc:652-656 | an address is accepted exactly if it lies in the first 256 bytes of an in-use chunk, and frees that chunk, also if it is not the chunk's start |
| `Arena.ArenaImpl.FreeInsideBlock` | musa/ep/src/musa_arena.cc:635-656 | from any state, freeing an address up to 255 bytes behind a block's start gives that block back |
| `ArenaInnerFree.InnerFreeRun` | musa/ep/src/musa_arena.cc:652-656 | the run: one byte is allocated at p, freeing p + 1 is accepted, and p is not outstanding any more |
| `Arena.ArenaImpl.FreeReserved` | musa/ep/src/musa_arena.cc:640-648 | a reserved block goes straight back to the device and out of the counters |
| `Arena.ArenaImpl.Reserve` | musa/ep/src/musa_arena.cc:336-381 | a device block outside the arena is handed out, counted and recorded exactly for a positive size that the budget leaves room for and the device grants; otherwise nothing changes |
| `Arena.ArenaImpl.Alloc` | musa/ep/src/musa_arena.cc:309-314 | without a stream the memory stays outside the arena, and is given exactly when `Reserve` gives it |
| `Arena.ArenaImpl.AllocOnStream` | musa/ep/src/musa_arena.cc:316-334 | reserves without a stream or native handle; otherwise gives a block exactly if a chunk suits or the device grants a block of whole granules: the best fit, or the start of the new region, and how many bytes of it |
| `Arena.ArenaImpl.SplitFreeChunkFromBin` | musa/ep/src/musa_arena.cc:541-566 | the chunk leaves its bin and is cut to the request exactly if the rest is at least as large as the request or as the dead-bytes bound; otherwise it stays whole |
| `Arena.ArenaImpl.FindChunkPtr` | musa/ep/src/musa_arena.cc:568-603 | the least (size, address) among all free chunks that are large enough and owned by the stream or nobody; none exactly if there is none |
| `Arena.ArenaImpl.GetExtendBytes` | musa/ep/src/musa_arena.cc:132-173 | the region size and the next growth size, for both strategies: what a request forced is kept, any other size is doubled once or set to the cap |
| `Arena.ArenaImpl.AllocateWithBackpedal` | musa/ep/src/musa_arena.cc:181-202 | obtains the first of the attempts that the device grants, one call for each up to it, and null exactly if it grants none |
| `Arena.ArenaImpl.GrantIff` | musa/ep/src/musa_arena.cc:110-202 | a request within the budget gets a block exactly if the device grants one of the attempts, and the block holds it |
| `Arena.ArenaImpl.RaggedIff` | musa/ep/src/musa_arena.cc:132-202 | that block is no multiple of 256 exactly if the first attempt is none and is granted |
| `Arena.ArenaImpl.Extend` | musa/ep/src/musa_arena.cc:110-246 | refuses exactly if the budget is exceeded or the device grants none of the attempts; a granted block of whole granules becomes a region with one free, unowned chunk that is all of it; any other one throws and leaks |
| `Arena.ArenaImpl.AllocateRawInternal` | musa/ep/src/musa_arena.cc:403-437 | hands out the best fit, without growing, if any chunk suits; otherwise the request is served at the start of the block that the device grants, and fails exactly if it grants none or a ragged one; in both cases it says how many bytes are handed out |
| `Arena.ArenaImpl.WrappedRequest` | musa/ep/src/musa_arena.cc:541-603 | a request within 254 bytes of the largest size_t counts as one of no bytes: every free chunk suits it and is cut to nothing |
| `Arena.ArenaImpl.ForgetStream` | musa/ep/src/musa_arena.cc:858-879 | no record or index entry names the released stream |
| `Arena.ArenaImpl.CoalesceRegion` | musa/ep/src/musa_arena.cc:884-896 | the walk over a shrinking list terminates and leaves no two neighbours in the region that are both free and of one owner or both unowned |
| `Arena.ArenaImpl.ResetChunksUsingStream` | musa/ep/src/musa_arena.cc:858-899 | the stream owns nothing afterwards, live or recycled, and no two neighbours are left that are both free and of one owner or both unowned |
| `Arena.ArenaImpl.RegionIsFree` | musa/ep/src/musa_arena.cc:491-503 | the scan finds an in-use chunk exactly if the region has one |
| `Arena.ArenaImpl.DismantleRegion` | musa/ep/src/musa_arena.cc:515-523 | deletes all and only the region's chunks |
| `Arena.ArenaImpl.ShrinkRegion` | musa/ep/src/musa_arena.cc:490-528 | a region goes back exactly if nothing in it is in use |
| `Arena.ArenaImpl.Shrink` | musa/ep/src/musa_arena.cc:465-539 | exactly the unused regions are gone and counted as shrunk, every in-use chunk keeps its record, nothing outstanding changes |
| `Arena.ArenaImpl.Destroy` | musa/ep/src/musa_arena.cc:91-103 | every block goes back to the device, each once |
| `Arena.ArenaImpl.WithinBudget` | musa/ep/src/musa_arena.cc:110-246 | in every reachable state regions plus reserved blocks stay within max_mem, and are counted exactly under whole growth |
| `Arena.ArenaImpl.MaximallyCoalesced` | musa/ep/src/musa_arena.cc:713-751 | in every reachable state no chunk and its successor are both free and of one owner, or both free and unowned |
| `Arena.ArenaImpl.OwnerIsLastUser` | musa/ep/src/musa_arena.cc:568-633 | in every reachable state a chunk's owner is the last user of each of its bytes |
| `Arena.ArenaImpl.RunIsSafe` | musa/ep/src/musa_arena.h:257-288 | every run of the arena is a safe trace |
| `FusionGraph.PathReachesSelectedNode` | musa/ep/src/fusion/fusion_matcher_utils.cc:127-145 | the shared-visited search terminates on any graph; a hit comes with a path, a miss with an exhausted set |
| `FusionGraph.FusionHasNoExternalPathBetweenSelectedNodes` | musa/ep/src/fusion/fusion_matcher_utils.cc:147-165 | true if and only if no path leaves the selected set through an unselected node and comes back |
| `FusionGraph.ExhaustedHasNoWay` | musa/ep/src/fusion/fusion_matcher_utils.cc:127-145 | from an exhausted set no path reaches a selected node |
| `FusionGraph.ExternalPathGivesCycle` | musa/ep/src/fusion/fusion_matcher_utils.cc:127-165 | a path that leaves a set and comes back is a cycle of the contracted graph |
| `FusionGraph.FeedWalkContracts` | musa/ep/src/fusion/fusion_matcher_utils.cc:127-165 | sets that feed each other in turn give a path through the contracted nodes |
| `FusionGraph.FusedPathFeeds` | musa/ep/src/fusion/fusion_matcher_utils.cc:127-165 | and a path through contracted nodes shows which convex sets feed which |
| `FusionGraph.ContractionAcyclicIff` | musa/ep/src/fusion/fusion_matcher_utils.cc:127-165 | contracting any number of disjoint sets of an acyclic graph leaves it acyclic if and only if each is convex and they do not feed each other in a circle |
| `FusionGraph.ConvexIffContractionAcyclic` | musa/ep/src/fusion/fusion_matcher_utils.cc:147-165 | on an acyclic graph the check is exactly acyclicity of the contracted graph |
| `FusionGraph.TwoSetsContract` | musa/ep/src/fusion/fusion_matcher_utils.cc:127-165 | two disjoint convex sets can be contracted together if and only if paths do not lead both ways between them |
| `FusionGraph.ConvexSetsMayFeedEachOther` | musa/ep/src/fusion/fusion_matcher_utils.cc:127-165 | two convex sets, each of which can be contracted alone, but not both |
| `ShapeProvenance.BuildProducerMap` | musa/ep/src/fusion/fusion_matcher_utils.cc:74-85 | maps exactly the output names, each to a node that has it as an output |
| `ShapeProvenance.BuildConsumers` | musa/ep/src/fusion/fusion_matcher_utils.cc:306-314 | lists for each name exactly the nodes that read it, for any iteration order |
| `ShapeProvenance.KeyFromConsumers` | musa/ep/src/fusion/fusion_matcher_utils.cc:332-354 | succeeds exactly if a one-input Transpose of the name produces a fused input |
| `ShapeProvenance.CollectShapePreservingSources` | musa/ep/src/fusion/fusion_matcher_utils.cc:296-371 | terminates; true if and only if the shape is determined through Transpose, Cast and Identity; the collected indices suffice, and each tells the shape of something the value is made from |
| `ShapeProvenance.ValueDependsOnlyOnInputShapes` | musa/ep/src/fusion/fusion_matcher_utils.cc:392-460 | terminates; true if and only if the value is determined by shapes through the named operators; the returned indices suffice, and each tells the shape of something the value is made from |
| `ShapeProvenance.TransposedIsInjective` | musa/ep/src/fusion/fusion_matcher_utils.cc:302-305 | a transposed shape determines the shape, for every valid permutation |
| `ShapeProvenance.ShapesAgree` | musa/ep/src/fusion/fusion_matcher_utils.cc:296-371 | two runs that agree on the sources agree on every determined shape |
| `ShapeProvenance.ValuesAgree` | musa/ep/src/fusion/fusion_matcher_utils.cc:392-460 | and on every determined value |
| `ShapeProvenance.DeterminedValueIsFixedByShapes` | musa/ep/src/fusion/fusion_matcher_utils.cc:392-460 | non-interference: equal constants and equal source shapes give equal values |
| `ShapeProvenance.ShapeOverOperator` | musa/ep/src/fusion/fusion_matcher_utils.cc:289-291 | a Shape over an operator on a fused input is accepted if and only if that is Transpose, Cast or Identity |
| `ShapeProvenance.OtherShapesDiffer` | musa/ep/src/fusion/fusion_matcher_utils.cc:289-291 | over any other operator but Shape, that Shape has different values in two runs with equal input shapes |
| `ShapeProvenance.OperatorOverShape` | musa/ep/src/fusion/fusion_matcher_utils.cc:401-405 | an operator over a Shape is accepted if and only if it is one of the eighteen named |
| `ShapeProvenance.OtherValuesDiffer` | musa/ep/src/fusion/fusion_matcher_utils.cc:401-405 | any other operator but Shape may give different values in two runs with equal input shapes |
| `MaskEndCaching.ShapeKeyInjective` | musa/ep/src/fusion/mhta_scaled_dot_product_attention_fusion.cc:809-817 | the -1 separated key is injective on lists of shapes of any number and rank |
| `MaskEndCaching.MaskEndCache.BuildKey` | musa/ep/src/fusion/mhta_scaled_dot_product_attention_fusion.cc:809-817 | the loop builds that key |
| `MaskEndCaching.MaskEndCache.CheckMaskEnd` | musa/ep/src/fusion/mhta_scaled_dot_product_attention_fusion.cc:809-859 | over all requests so far: never rejects a right end, and accepts a wrong one only if the same shapes had another end before; what was last read for these shapes is accepted without a read |
| `MaskEndCaching.MaskEndCache.CheckAgain` | musa/ep/src/fusion/mhta_scaled_dot_product_attention_fusion.cc:809-859 | once accepted, the same shapes and the same end are accepted although nothing can be read |
| `MaskEndCaching.AcceptedEndIsFunctional` | musa/ep/src/fusion/mhta_scaled_dot_product_attention_fusion_matcher.cc:1326-1398 | what the walk accepts makes the requests of any runs functional, so a hit is what a fresh read would give |
| `MaskEndHints.BoundaryInputs` | musa/ep/src/fusion/mhta_scaled_dot_product_attention_fusion_matcher.cc:1336-1361 | numbers exactly the names that the fusion reads and does not produce |
| `MaskEndHints.BoundaryOutputs` | musa/ep/src/fusion/mhta_scaled_dot_product_attention_fusion_matcher.cc:1362-1377 | lists exactly the outputs that something outside reads |
| `MaskEndHints.AddMaskEndHint` | musa/ep/src/fusion/mhta_scaled_dot_product_attention_fusion_matcher.cc:1326-1398 | stores the boundary inputs whose shapes determine the end, each of which tells the shape of something it is made from, under the key of the boundary; every other hint stays, and all stay right |
| `MaskEndHints.MaskEndCacheHint` | musa/ep/src/fusion/mhta_scaled_dot_product_attention_fusion.cc:1390-1432 | caches exactly if there is a hint whose names are all inputs of the fused node, and turns them into their places |
| `MaskEndHints.ReadsWhatIsNamed` | musa/ep/src/fusion/mhta_scaled_dot_product_attention_fusion.cc:809-817 | the shapes read at those places are those of the values the matcher named |
| `MaskEndHints.HintStore.AddMaskEndHints` | musa/ep/src/ep.h:71-78 | enters a graph's hints over those stored by earlier graphs |
| `MaskEndHints.FoundIfHinted` | musa/ep/src/ep.h:71-78 | something is found for an end under a key exactly if some graph has stored a hint there |
| `MaskEndHints.FoundIsLast` | musa/ep/src/ep.h:71-78 | and it is the hint of the last graph that has |
| `MaskEndHints.HintedRequestsAreFunctional` | musa/ep/src/fusion/mhta_scaled_dot_product_attention_fusion.cc:1390-1432 | if the compiled graph is the last to have stored a hint for the end under this key, equal shapes at the places read mean equal ends over all its runs |
| `MaskEndHints.ForeignHintMisleads` | musa/ep/src/ep.h:71-78 | whatever a graph finds that has stored nothing itself, there is such a graph with two runs that have the shapes read in common and different ends |
| `MaskEndHints.ForeignHintIsFound` | musa/ep/src/ep.h:71-78 | an instance: two graphs whose fusions have one boundary, where the second finds what the first has stored |
| `BoundaryKey.Normalize` | musa/ep/src/fusion/fusion_matcher_utils.cc:375-388 | the key lists the non-empty names once, in increasing order |
| `BoundaryKey.LessIsLexicographic` | musa/ep/src/fusion/fusion_matcher_utils.cc:380-381 | the order is lexicographic: at the first place where they differ the smaller string ends or has the smaller character |
| `BoundaryKey.FusionBoundaryKey` | musa/ep/src/fusion/fusion_matcher_utils.cc:373-390 | the key of the two normalized listings |
| `BoundaryKey.IncreasingIsUnique` | musa/ep/src/fusion/fusion_matcher_utils.cc:380-381 | sorted unique listings are equal exactly if the sets are |
| `BoundaryKey.LinesInjective` | musa/ep/src/fusion/fusion_matcher_utils.cc:382-387 | separator-ended names can be read back |
| `BoundaryKey.KeysAgree` | musa/ep/src/fusion/fusion_matcher_utils.cc:373-390 | two keys agree if and only if the boundaries agree or one takes outputs of the other for inputs |
| `BoundaryKey.KeyIdentifiesBoundary` | musa/ep/src/fusion/fusion_matcher_utils.cc:373-390 | with no input name starting with a bar, keys agree if and only if both name sets do |
| `BoundaryKey.BarCollision` | musa/ep/src/fusion/fusion_matcher_utils.cc:373-390 | two boundaries with inputs and outputs, different in both, with one key |
| `FusionMatcher.NormalizeCandidate` | musa/ep/src/fusion/fusion_matcher.cc:56-76 | true exactly for non-empty lists of distinct non-null nodes |
| `FusionMatcher.CandidateOverlapsAccepted` | musa/ep/src/fusion/fusion_matcher.cc:78-84 | true exactly if some node is taken |
| `FusionMatcher.AcceptFusionCandidates` | musa/ep/src/fusion/fusion_matcher.cc:86-113 | greedy choice: each candidate is accepted exactly if it is acceptable after those before it; rejections are exactly the clear, well-formed ones that are not legal |
| `FusionMatcher.LeftOutOverlaps` | musa/ep/src/fusion/fusion_matcher.cc:86-113 | a well-formed legal candidate left out overlaps something accepted no later |
| `FusionMatcher.GreedyIsSeparate` | musa/ep/src/fusion/fusion_matcher.cc:86-113 | what is added is well formed and disjoint from everything before |
| `FusionMatcher.FusionMatchesHaveNoOverlap` | musa/ep/src/fusion/fusion_matcher.cc:115-131 | true if and only if all fusions are well formed and pairwise disjoint |
| `FusionMatcher.AddFusionMatch` | musa/ep/src/fusion/fusion_matcher.cc:133-145 | one finder's contribution keeps the matches separate |
| `FusionMatcher.FindFusionMatches` | musa/ep/src/fusion/fusion_matcher.cc:149-365 | for arbitrary finders: accepted fusions are separate, candidates of their finder and legal for it, recorded rejections are illegal, the taken nodes are exactly those of the fusions, the closing assertion holds |
| `FusionMatcher.LeftOutOverlapsEarlier` | musa/ep/src/fusion/fusion_matcher.cc:149-365 | over all finders, a well-formed legal candidate left out overlaps a fusion accepted no later |
| `PinnedBlocks.LowerBound` | musa/ep/src/pinned_host_pool.h:70-71 | the first block that is large enough |
| `PinnedBlocks.UpperBound` | musa/ep/src/pinned_host_pool.h:111-111 | where a block is inserted behind its equals |
| `PinnedBlocks.InsertedKeepsOrder` | musa/ep/src/pinned_host_pool.h:111-112 | insertion keeps the order by size |
| `PinnedBlocks.DroppedKeepsOrder` | musa/ep/src/pinned_host_pool.h:73-77 | so does removal, which takes exactly one block |
| `PinnedBlocks.KeptAreNotReady` | musa/ep/src/pinned_host_pool.h:216-242 | exactly the blocks whose event is not ready stay pending |
| `PinnedTrace.WorkIsAwaited` | musa/ep/src/pinned_host_pool.h:125-166 | until the work ahead of an asynchronous free is done, the block waits for it in nobody's hands |
| `PinnedTrace.ReuseAwaitsWork` | musa/ep/src/pinned_host_pool.h:61-167 | over whole runs: a block is handed out again or returned only when the work issued ahead of its free is done, unless its own wait was answered with an error in between |
| `PinnedTrace.OneClient` | musa/ep/src/pinned_host_pool.h:61-113 | a block handed out twice was given up in between |
| `PinnedSteps.SettledWaiting` | musa/ep/src/pinned_host_pool.h:216-242 | letting a block go, with any status, keeps what every other block waits for |
| `PinnedSteps.SettledIsIdle` | musa/ep/src/pinned_host_pool.h:219-228 | a pending block has not lapsed, and if its event succeeded no earlier work may still use it |
| `PinnedSteps.AfterPollStep` | musa/ep/src/pinned_host_pool.h:216-242 | one loop step is one more block seen |
| `PinnedSteps.KeptStep` | musa/ep/src/pinned_host_pool.h:216-242 | erasing behind the cursor visits every block once |
| `PinnedPool.PinnedHostPool.PollPendingFrees` | musa/ep/src/pinned_host_pool.h:216-242 | what stays, what is cached, released and reused, for any statuses |
| `PinnedPool.PinnedHostPool.SettlePending` | musa/ep/src/pinned_host_pool.h:219-240 | one pending block let go |
| `PinnedSteps.ShedOfOne` | musa/ep/src/pinned_host_pool.h:216-242 | a poll returns a busy block only if its event is no longer waiting and it is to be released, and leaves cached ones as busy as they were |
| `PinnedPool.PinnedHostPool.LetGoBusyIff` | musa/ep/src/pinned_host_pool.h:219-240 | a poll lets a block go while work may still use it if and only if its own query fails |
| `PinnedPool.PinnedHostPool.ReuseCached` | musa/ep/src/pinned_host_pool.h:67-79 | allocations of its size get any free block out to a client, busy or not |
| `PinnedPool.PinnedHostPool.FailedQueryReuses` | musa/ep/src/pinned_host_pool.h:231-240 | from any state, after a failed query a cached block can be handed out while work may still use it |
| `PinnedPool.PinnedHostPool.TakeCached` | musa/ep/src/pinned_host_pool.h:67-79 | polls, then hands out the smallest free block that is large enough; none exactly if none is large enough |
| `PinnedPool.PinnedHostPool.InsertLive` | musa/ep/src/pinned_host_pool.h:87-89 | the second critical section of a miss |
| `PinnedPool.PinnedHostPool.Allocate` | musa/ep/src/pinned_host_pool.h:61-90 | null for zero bytes; otherwise best fit before asking the driver |
| `PinnedPool.PinnedHostPool.FreeCompleted` | musa/ep/src/pinned_host_pool.h:92-113 | cached exactly if there is a cache and the block fits its limit, which the cached bytes then do not exceed; else back to the driver; unknown blocks go to the driver |
| `PinnedPool.PinnedHostPool.BeginFreeAsync` | musa/ep/src/pinned_host_pool.h:125-144 | first critical section of an asynchronous free |
| `PinnedPool.PinnedHostPool.ObtainEvent` | musa/ep/src/pinned_host_pool.h:146-149 | a reused or new event, held by this block only |
| `PinnedPool.PinnedHostPool.RecordEvent` | musa/ep/src/pinned_host_pool.h:155-157 | recorded behind the issued work, or destroyed |
| `PinnedPool.PinnedHostPool.Synchronize` | musa/ep/src/pinned_host_pool.h:150-150 | waiting for the stream: its work is done, or the block has lapsed |
| `PinnedPool.PinnedHostPool.AbandonFreeAsync` | musa/ep/src/pinned_host_pool.h:148-160 | wait for the stream and return the block to the driver |
| `PinnedSteps.AbandonedEarlyIff` | musa/ep/src/pinned_host_pool.h:148-160 | that gives a busy block away if and only if the synchronisation fails |
| `PinnedPool.PinnedHostPool.FinishFreeAsync` | musa/ep/src/pinned_host_pool.h:162-166 | second critical section: block and event become pending |
| `PinnedPool.PinnedHostPool.FreeAsync` | musa/ep/src/pinned_host_pool.h:115-167 | all branches of an asynchronous free |
| `PinnedPool.PinnedHostPool.HostFree` | musa/ep/src/pinned_host_pool.h:99-99 | only a held block is returned to the driver, and it is idle unless its own wait was answered with an error |
| `PinnedPool.PinnedHostPool.Progress` | musa/ep/src/pinned_host_pool.h:219-220 | the device getting on makes no block less idle |
| `PinnedPool.PinnedHostPool.RunIsSafe` | musa/ep/src/pinned_host_pool.h:61-242 | every run, under any interleaving, is a safe run |
| `PinnedPool.PinnedHostPool.Destroy` | musa/ep/src/pinned_host_pool.h:24-59 | every block and every event is given back once |
| `PinnedPool.FailedQueryReissuesEarly` | musa/ep/src/pinned_host_pool.h:231-240 | the run: a block freed behind work that has not run, its own query fails, and it is handed out again |
| `ConcatSplitPlan.WidthsFit` | musa/ep/src/fusion/concat_split_fusion_matcher.cc:113-131 | the two-pointer walk accepts exactly if every piece lies inside one input |
| `ConcatSplitPlan.WalkSplits` | musa/ep/src/fusion/concat_split_fusion.cc:549-580 | so does the creator's, which also locates each piece |
| `ConcatSplitPlan.NotInside` | musa/ep/src/fusion/concat_split_fusion_matcher.cc:116-131 | where the walk gives up no input holds the piece |
| `ConcatSplitPlan.CanFuseConcatSplit` | musa/ep/src/fusion/concat_split_fusion_matcher.cc:37-131 | what the matcher demands of the Concat and the Split |
| `ConcatSplitPlan.ConcatSegments` | musa/ep/src/fusion/concat_split_fusion.cc:597-611 | copies that put the named pieces side by side; fails exactly for a name that is no piece |
| `ConcatSplitPlan.SumTerms` | musa/ep/src/fusion/concat_split_fusion.cc:614-646 | terms of the named pieces; fails exactly with fewer than two, an unknown one, or unequal widths |
| `ConcatSplitPlan.PlanOutput` | musa/ep/src/fusion/concat_split_fusion.cc:650-686 | an output is looked up as piece, Concat or Sum |
| `ConcatSplitPlan.CreateConcatSplitFusion` | musa/ep/src/fusion/concat_split_fusion.cc:496-693 | builds exactly the buildable patterns, and the plan implements the nodes |
| `ConcatSplitPlan.MatchedBuildsIffAxesAreOne` | musa/ep/src/fusion/concat_split_fusion.cc:523-526 | what the matcher takes, the creator builds if and only if every stored axis is 1 |
| `ConcatSplitPlan.MinusOneIsRefused` | musa/ep/src/fusion/concat_split_fusion.cc:523-526 | a pattern with axes of -1 that the matcher takes and the creator refuses |
| `ConcatSplitCopy.PieceIsInInput` | musa/ep/src/fusion/concat_split_fusion.cc:549-580 | a Split output is the located stretch of one input |
| `ConcatSplitCopy.PartsRowAt` | musa/ep/src/fusion/concat_split_fusion.cc:597-611 | the destination offsets tile the output row |
| `ConcatSplitCopy.MakeCopyBlocks` | musa/ep/src/fusion/concat_split_fusion.cc:310-329 | every element of every copy is in exactly one block of 256 |
| `ConcatSplitCopy.PartWrite` | musa/ep/src/kernels/tensor/concat_split_impl.mu:7-25 | each thread's flat addresses are the right cells of source and destination |
| `ConcatSplitCopy.WritesAreRight` | musa/ep/src/kernels/tensor/concat_split_impl.mu:7-25 | every write to a cell stores what belongs there |
| `ConcatSplitCopy.CopiedOutputsAreConcats` | musa/ep/src/fusion/concat_split_fusion.cc:308-329 | in whatever order the blocks run, each output row is the Concat of the Split's slices |
| `ConcatSplitSum.TermsAddPieces` | musa/ep/src/fusion/concat_split_fusion.cc:614-646 | the plan's terms add up to the sum of the pieces |
| `ConcatSplitSum.TabulateSums` | musa/ep/src/fusion/concat_split_fusion.cc:410-428 | the flat table holds the terms of every sum in its own stretch |
| `ConcatSplitSum.WidestSum` | musa/ep/src/fusion/concat_split_fusion.cc:250-266 | the width of the widest sum, which spans the grid |
| `ConcatSplitSum.AddTerms` | musa/ep/src/kernels/tensor/concat_split_impl.mu:27-51 | the inner loop adds the terms of one sum in order |
| `ConcatSplitSum.SumThread` | musa/ep/src/kernels/tensor/concat_split_impl.mu:27-51 | a thread strides over the cells and stores exactly the sums of those it gets to within its output's columns |
| `ConcatSplitSum.StoresTheSum` | musa/ep/src/kernels/tensor/concat_split_impl.mu:27-51 | every write to a cell of a summed output stores the sum that belongs there |
| `ConcatSplitSum.CellIsStored` | musa/ep/src/kernels/tensor/concat_split_impl.mu:27-51 | for any number of threads, some thread gets to every cell |
| `ConcatSplitSum.SummedOutputsAreSums` | musa/ep/src/kernels/tensor/concat_split_impl.mu:27-51 | after all threads, in whatever order, each cell of a summed output is the sum of the pieces that the Sum node names |
| `ConcatReshape.JoinShapes` | musa/ep/src/fusion/concat_reshape_fusion.cc:93-113 | succeeds exactly if ranks and non-axis dimensions agree, with the axis summed |
| `ConcatReshape.FlatAppend` | musa/ep/src/fusion/concat_reshape_fusion.cc:131-147 | a row-major position splits into outer and inner positions |
| `ConcatReshape.CoordsOf` | musa/ep/src/fusion/concat_reshape_fusion.cc:131-147 | every flat position belongs to an element |
| `ConcatReshape.BuildDescriptors` | musa/ep/src/fusion/concat_reshape_fusion.cc:208-220 | the table names a source for each element of the output row |
| `ConcatReshape.TableIsBijection` | musa/ep/src/fusion/concat_reshape_fusion.cc:208-220 | table entries and elements of the inputs' rows correspond one to one |
| `ConcatReshape.FindSource` | musa/ep/src/kernels/tensor/concat_impl.mu:66-93 | the direct kernel's scan finds the same source |
| `ConcatReshape.DirectThread` | musa/ep/src/kernels/tensor/concat_impl.mu:66-93 | one thread of that kernel copies its element and touches no other |
| `ConcatReshape.DirectCopiesRows` | musa/ep/src/kernels/tensor/concat_impl.mu:66-93 | so the direct kernel copies every row element from its source |
| `ConcatReshape.TableCopiesRows` | musa/ep/src/kernels/tensor/concat_impl.mu:95-112 | the table kernel copies every row element from its source |
| `ConcatReshape.PitchedCopiesRows` | musa/ep/src/kernels/tensor/concat_impl.mu:162-186 | so do the pitched copies, one per input |
| `ConcatReshape.RowsAreConcat` | musa/ep/src/fusion/concat_reshape_fusion.cc:131-176 | the copied rows are N-dimensional Concat on the axis, for any rank |
| `ConcatReshape.RowsFillJoined` | musa/ep/src/fusion/concat_reshape_fusion.cc:131-153 | the rows have exactly as many elements as the joined shape |
| `ConcatReshape.ResolveReshapeOutputShape` | musa/ep/src/fusion/concat_reshape_fusion.cc:249-279 | a 0 stands for the input's dimension unless zeros are allowed; which targets fail, and that an inferred dimension preserves the element count |
| `ConcatReshape.ApplyUnsqueeze` | musa/ep/src/fusion/concat_reshape_fusion.cc:281-304 | succeeds exactly if all axes are in range and name different places, a negative axis counting from the end of the result; 1 at each named place, and taking those out gives the input back |
| `ConcatReshape.InsertThenRemove` | musa/ep/src/fusion/concat_reshape_fusion.cc:300-303 | an inserted dimension is taken out by its own place |
| `ConcatReshape.OutputShape` | musa/ep/src/fusion/concat_reshape_fusion.cc:93-123 | the joined shape, unsqueezed, then reshaped, or a failure exactly where one of these fails or the element count differs from the joined shape's; after inference that comparison never fails |
| `DeviceToHost.CanBatchDeviceToHost` | musa/ep/src/ep_data_transfer.cc:239-260 | true exactly if some copy has bytes and different addresses, and all such copies are device to host on one stream |
| `DeviceToHost.CopyImpl` | musa/ep/src/ep_data_transfer.cc:173-217 | one device-to-host copy: unless it has no bytes or equal addresses, a copy that is done has brought every byte from source to destination and touched no other |
| `DeviceToHost.CopyEach` | musa/ep/src/ep_data_transfer.cc:173-217 | the copies one after the other, each with bytes and different addresses bringing its bytes |
| `DeviceToHost.StagingIsTiled` | musa/ep/src/ep_data_transfer.cc:264-294 | staged parts are in bounds, disjoint, and the last ends where the buffer ends |
| `DeviceToHost.RunAllHit` | musa/ep/src/ep_data_transfer.cc:296-325 | independent transfers bring the original bytes, in any number |
| `DeviceToHost.RunQueue` | musa/ep/src/ep_data_transfer.cc:296-316 | the stream runs the queue in order |
| `DeviceToHost.EmptyStaging` | musa/ep/src/ep_data_transfer.cc:318-328 | every staged part reaches its place |
| `DeviceToHost.BatchIsOneByOne` | musa/ep/src/ep_data_transfer.cc:262-330 | outside the staging buffer the batch leaves what copying tensor by tensor leaves |
| `DeviceToHost.CopyDeviceToHostBatch` | musa/ep/src/ep_data_transfer.cc:262-330 | succeeds exactly if every call does; then each destination holds its source's bytes, as after copying tensor by tensor; in any case only destinations and staging are touched |

## Left out

- Concurrency inside the arena: each operation holds one lock throughout, so the arena is sequential. Clocks, logging, environment variables, options, status objects and the runtime's C API are parameters or absent.
- Machine integers: sizes and addresses are unbounded, except that rounding and growth follow size_t.
- AllocateRawInternal: requires that the request plus 255 does not wrap; beyond that the rounded size no longer covers the request: `RoundedBytesCovers` gives the exact condition, `WrappedRequest` what the search and the cut then do.
- AllocOnStream: requires the same when it serves from the arena.
- CanFuseConcatSplit: models the tests on axes, widths and sizes; that the Concat's output is the Split's input and no graph output, and that element types agree, is taken as given.
- SumTerms: requires positive Split sizes and distinct names of its outputs, as every graph that the matcher took has them.
- CreateConcatSplitFusion: requires the same as `SumTerms`.
- CopyImpl: models the device-to-host branch only.
- The backpedal factor 0.9f is the integer fraction 9/10, rounded down; floating-point rounding of the product is not modelled.
- The device allocator returns new disjoint blocks or null, and each stream has one implementation of its own; both are assumptions.
- `ArenaImpl` diagnostics (statistics export, memory dumps, RequestedSize, AllocatedSize) and the consistency self-check, which only read.
- `FindStream` and `FindChunks` return values, not references into the tables.
- Semantics of operators other than the shape arithmetic, Shape, Transpose, Cast and Identity: a run may compute anything there. The walks look at operator names without their domain, and the model gives a name its ONNX meaning in every domain.
- Runs are over acyclic graphs (a rank on names); value names are unique outputs of the nodes recorded for them.
- The dtype contract of a candidate is an arbitrary predicate, and finders are arbitrary functions of the taken nodes.
- The pattern matchers themselves (attention, bucketize, normalization, masks, linear, embeddings) beyond their use of these utilities, and the kernels they launch.
- The attention fusion's pointer-keyed bool-mask cache: its soundness depends on buffers that callers may rewrite.
- A bound on the pinned pool's cached bytes: the limit is tested when a block is freed, so several pending blocks can pass it.
- The polling thread's waiting and the destructor's sleep loop: a poll may happen at any time, and the destructor starts from the statuses its waiting ended with.
- The Concat/Split fusion's checks at run time (memory kind, element type, batch size) and the matcher's comparison of element types; a run has inputs of the stated widths and one number of rows.
- Copies other than device to host, and pageable host-to-device staging.
- Element types: the Sum kernel adds with an arbitrary operation from an arbitrary zero, in the order of the terms.
- The allocator's own block cache in `ep_allocator.h`, which the factory never enables together with the arena.
