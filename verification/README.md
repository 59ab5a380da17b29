# A verified model of HBServe's memory plane and scheduler

HBServe serves language-model requests over a hierarchy of memories: HBM for hot KV blocks, and HBF or an
external memory as a colder tier. This project models the parts of it that keep state over many steps, and
proves what they keep.

**KV placement** (`BlockReferences`, `Pools`, `BlockPools`, `Tables`, `Prefix*`, `Placement*`, `Planner*`, `Kv*`,
`Extents`, `ModelCaches`). `PlacementSpec` and `PrefixSpec` describe every call on the plane as a function on its
state; `BlockPool`, `PrefixCache` and `Placement` are the objects that are updated in place, each proved equal to
its function. `PrefixOrders`, `Plans`, `PlacementEffects` and `ReservationEffects` say what these functions
mean without naming their loops: which entries a lookup hits, which ones leave and in which order, which victims a
plan picks, and what each call leaves alone. About the functions: conservation of reference counts over every run, exactness of the planner, and
a data refinement (`KvMemory` to `KvRuns`): whatever is swapped, shared, evicted or reused, a block table leads
to the KV bytes of its request's own tokens, and published prefix blocks never change.

**From a batch to transactions** (`Graphs`, `Operations`, `Compilers`, `BlockRuns`, `KvPieces`, `Transactions`,
`TaskMaps`, `Strictness`, `Stagings`, `Mappings`, `Executions`, `Pipelines`). The causal graph of an iteration and its rewriting into physical
transactions, each with the bytes it reads and writes, with fences on cold blocks across batches. What is emitted
and what each operation and each transaction waits for is pinned exactly: nothing is missing and nothing waits for
more than it has to.

**What the transactions do** (`Machines`, `Settlements`, `Emissions`, `KvTraffic`, `KvApart`, `KvStores`,
`KvBatches`, `KvResults`, `KvOrder`, `Realizations`). The emitted log of a whole run is executed byte by byte, in
any order that its dependencies and the submission of one batch after another allow. It leaves exactly the memory
that `KvRuns` promises, and every context read sees the KV that its request computed.

**The scheduler** (`Frontiers`, `Traps`, `Executors`, `Rosters`, `Desks`, `Affordability`, `Paces`, `Seats`,
`Sweeps`, `Admissions`, `Fillings`, `Batches`, `Passes`, `Completions`, `Schedulers`, `LeanPlane`, `WorldFacts`). `Frontiers`
is the token frontier of one request; `Schedulers.Engine` is the continuous batcher, on top of the placement
functions. `Passes` says what a scheduling pass has to do, slice by slice; the other modules hold the steps of the
proof as lemmas on values. For every configuration each
request that stays running gets a slice, the plan of a batch never swaps one of them out, a preemption never
raises, and the reservation for the running requests never fails.

**Remappers that refine flat memory** (`PeerRemappers`, `PeerHomes`; `Intervals`, `KvLayouts`, `HardwareCaches`).
**Address arithmetic** (`Modular`, `StackGeometry`, `StackLinks`, `LinkSplits`, `PageMaps`). **Trace encoding, list
scheduling** (`TrieEncoding`, `TraceTokens`; `ListScheduling`). **Recovery** (`Recoveries`, `Checkpoints`,
`Replays`, `ReplayRuns`, `Projections`, `Restorations`): what a checkpoint keeps, and why replaying the committed
schedules of a run rebuilds its block tables and its segments.

Conventions: a raised error is a `None`, a `false` or an outcome; digests and content hashes are injective
constructors; times are naturals used for their order; memory contents are functions of a position. Ghost fields
carry the mathematical content of an object (a reference map, a flat memory).

## A property that does not hold unconditionally

*Prefill target.* After a recompute the target ought to be prompt + emitted. `Engine._preempt`
(hbserve/engine.py:238-247) sets it to the prompt length or to the processed tokens plus one. `RecomputeExact`
shows that this is right if and only if the request has emitted nothing or has processed everything but its last
token; `TrapExists` runs one request into the case where it is not, through batches and refused reservations of
the plane itself, and `ShortRaises` shows that the mistake always ends in one of the frontier checks.
`Schedulers.Engine` therefore carries a ghost flag, `Tainted`, that such a recompute raises, and proves that no
check fires while the flag is down.

## Model

| member | source | states |
|---|---|---|
| BlockReferences.References.Get | hbserve/block_references.py:19-24 | reading a chunked count gives the count of the plain map, and fails exactly for a block without references |
| BlockReferences.References.Set | hbserve/block_references.py:26-37 | the chunked arrays refine one plain map: the entry is stored and all others stay; a count outside the positive 64-bit range is refused and changes nothing |
| BlockReferences.References.Delete | hbserve/block_references.py:39-50 | exactly one entry goes; a missing key is reported and changes nothing; the per-chunk tally stays the number of live cells |
| BlockReferences.LiveUpdate | hbserve/block_references.py:26-50 | overwriting one cell moves the chunk tally by exactly the change of that cell, so a chunk is dropped only when it is empty |
| Pools.FreeFromExact | hbserve/placement.py:353-380 | the reference free list holds exactly the free blocks, each once, in ascending order |
| Pools.FreeCount | hbserve/placement.py:345-347 | the free blocks number the capacity minus the blocks with a reference |
| Pools.LowestRun | hbserve/placement.py:353-380 | a run of free blocks below which nothing is free is the head of the free list |
| Pools.Pool.TakeKeeps | hbserve/placement.py:353-380 | allocating n blocks takes free blocks only, each once, and leaves exactly n fewer free |
| BlockPools.BlockPool.Allocate | hbserve/placement.py:353-380 | returns exactly the n smallest free blocks in ascending order and fails, changing nothing, exactly when fewer than n are free, although blocks come from coalesced ranges, a tombstoned heap and a never-used frontier |
| BlockPools.BlockPool.CompactFreeIndex | hbserve/placement.py:382-394 | the heap is rebuilt without losing a range start; afterwards it is at most 2 * ranges + 64 long, which the class invariant asks for after every operation |
| BlockPools.BlockPool.Retain | hbserve/placement.py:396-400 | one more holder per listed block; stops at the first block without a holder, when exactly those before it have been counted |
| BlockPools.BlockPool.Release | hbserve/placement.py:402-427 | one holder less per listed block; stops at the first block whose holders are used up, when exactly those before it have been given up |
| BlockPools.BlockPool.FreeBlock | hbserve/placement.py:405-427 | a freed block is joined with both neighbours; ranges stay disjoint, separated and mirrored in both dictionaries |
| BlockPools.BlockPool.Address | hbserve/placement.py:430-433 | the bytes of a block lie inside the pool; a block beyond the capacity is refused |
| BlockPools.BlockPool.BlockOfByte | hbserve/placement.py:430-433 | block addresses partition the pool: every byte belongs to exactly one block, so no two blocks share a byte |
| PrefixKeys.KeyAt | hbserve/prefix.py:9-19 | the k-th key chains exactly the first k + 1 blocks of the request |
| PrefixKeys.BlockKeys | hbserve/prefix.py:9-19 | the chaining loop yields one key per whole prompt block, and none without token identities |
| PrefixKeys.KeyContentIsKv | hbserve/prefix.py:9-19 | a key fixes the KV of its block: slot w of block k holds what any request with that key would compute |
| PrefixSpec.LookupAccounted | hbserve/prefix.py:50-63 | a lookup hands out one new reference per block of every hit and keeps count, bytes and budget right |
| PrefixSpec.PublishAccounted | hbserve/prefix.py:65-85 | publishing with evictions keeps every count equal to its holders, the bytes equal to the sum over the entries, and the sum within the budget |
| PrefixSpec.EvictAccounted | hbserve/prefix.py:38-42 | an eviction gives back exactly the references of its entry |
| PrefixSpec.ReleaseOrderAccounted | hbserve/prefix.py:87-94 | reordering the idle entries of a request changes no account |
| PrefixOrders.ExpireMeans | hbserve/prefix.py:44-48 | expiry keeps exactly the entries whose deadline has not passed, in their order |
| PrefixOrders.LookupMeans | hbserve/prefix.py:50-63 | the hits are the blocks of the live entries with the leading asked keys, up to the limit or the first key of no live entry; the entries hit stand at the young end in the order asked, the others keep theirs |
| PrefixOrders.PublishOneMeans | hbserve/prefix.py:65-85 | publishing a known key only confirms it and renews its deadline at the young end; a new one is stored if it fits the budget, behind as few evictions of oldest entries as make room |
| PrefixOrders.PublishMeans | hbserve/prefix.py:65-85 | a publication expires first and then publishes each complete block in order |
| PrefixOrders.ReleaseOrderMeans | hbserve/prefix.py:87-94 | of a finished request exactly the entries that nobody else holds go to the young end, last block first, and the others keep their order |
| PrefixCaches.PrefixCache.Lookup | hbserve/prefix.py:50-63 | the cache object answers with the blocks of the live entries that have the longest run of leading keys, in place, moves exactly those to the young end and retains them |
| PrefixCaches.PrefixCache.Publish | hbserve/prefix.py:65-85 | the cache object publishes as specified: expiry, then block by block a confirmation or a new entry behind the fewest evictions of oldest entries |
| PrefixCaches.PrefixCache.Expire | hbserve/prefix.py:44-48 | drops exactly the entries whose deadline has passed |
| PrefixCaches.PrefixCache.ReleaseOrder | hbserve/prefix.py:87-94 | exactly the idle entries of a finished request go to the young end, last block first |
| PlacementSpec.AllocateRowsExact | hbserve/placement.py:1022-1031 | one allocation per layer succeeds exactly when all layers together fit, and takes blocks that nobody held |
| PlacementSpec.ColdestUnique | hbserve/placement.py:940-955 | the victim order is total, so the choice of a victim is determined |
| PlacementInvariant.MigrateExact | hbserve/placement.py:975-995 | a migration succeeds exactly when the whole request fits the other pool |
| PlacementInvariant.MigrateInv | hbserve/placement.py:975-995 | a migration keeps both pools balanced |
| PlannerSoundness.ReclaimedMeans | hbserve/placement.py:924-937 | the counter of reclaimed blocks counts exactly the blocks whose last reference goes, however often a block is shared or listed |
| PlannerSoundness.PlanEvictionsSound | hbserve/placement.py:930-945 | the planned deficit shrinks by exactly the blocks that the planned evictions set free |
| PlannerSoundness.PlanVictimsSound | hbserve/placement.py:940-968 | victims are distinct requests outside the batch, they fit the cold pool together, and the deficit shrinks by what they free |
| PlannerSoundness.MigrateAllExact | hbserve/placement.py:1009-1020 | requests that fit the target together migrate one after the other without a failure |
| PlannerSoundness.ReserveOneExact | hbserve/placement.py:1021-1042 | one slice is reserved exactly when its growth fits the free blocks; publishing beside it never fails |
| PlannerSoundness.PlannerSound | hbserve/placement.py:903-1055 | with no other batch pending, a reservation succeeds if and only if the plan is feasible, although evictions, migrations, growth and publication interleave; afterwards every slice is covered by hot blocks |
| Plans.EvictionsMean | hbserve/placement.py:930-945 | the planned evictions are the idle entries among the fewest oldest ones that cover the deficit, or all idle entries if nothing less does |
| Plans.VictimsMean | hbserve/placement.py:940-968 | the victims are the fewest requests, by age, whose blocks cover the rest of the deficit and fit the cold pool |
| Plans.PlanMeans | hbserve/placement.py:903-973 | the plan of a batch without naming its loops: the fewest oldest idle entries, then the fewest coldest requests outside the batch, and infeasible exactly when these do not suffice |
| PlacementRuns.PlanWithoutTiers | hbserve/placement.py:903-973 | without a cold tier and with an empty cache a batch fits exactly when its growth fits the free blocks |
| PlacementRuns.RunConserves | hbserve/placement.py:856-1099 | in every reachable state a hot block counts its block-table cells and prefix entries, a cold block has at most one holder, and the cache bytes are the sum over its entries and within budget |
| PlacementRuns.RunDrains | hbserve/placement.py:1088-1099 | once all requests are gone the cold pool is fully free and hot blocks are held by prefix entries only |
| PlacementRuns.AdmitInv | hbserve/placement.py:856-879 | admission behind prefix hits keeps all accounts |
| PlacementEffects.AdmitMeans | hbserve/placement.py:856-879 | an admitted request holds the blocks of exactly the live cached prefix of its prompt, short of its last token, layer by layer, reports its length, and nothing else changes |
| PlacementEffects.PreemptMeans | hbserve/placement.py:1057-1086 | preemption swaps out exactly if the cold pool has room for all blocks of the request, else drops them, and refuses exactly without hot blocks; all else stays |
| PlacementEffects.ReleaseMeans | hbserve/placement.py:1088-1099 | a release fails exactly for an unknown request; its blocks go back, its idle entries turn young if it was hot, and all else stays |
| PlacementEffects.CompleteMeans | hbserve/placement.py:881-887 | completion publishes the full blocks of each slice for good, slice by slice, and changes nothing but the cache |
| ReservationEffects.ReserveMeans | hbserve/placement.py:997-1055 | a reservation evicts exactly the planned entries, moves exactly the victims out and the returning requests in, in this order in the log, gives each request of the batch the least number of further blocks for its end, and leaves every other request alone |
| ReservationEffects.BlocksLeast | hbserve/placement.py:1021-1031 | the blocks of a request are the fewest that hold its tokens |
| KvPlanning.Reclaim | hbserve/placement.py:924-929 | the counting loop computes the specified reclaimed blocks |
| KvPlanning.PlanVictims | hbserve/placement.py:940-968 | the loop picks the coldest request again and again, as specified |
| Placements.Placement.AdmitRequest | hbserve/placement.py:856-879 | the placement object gives the request exactly the blocks of its live cached prefix, in order, and returns that many tokens; all other requests stay |
| Placements.Placement.CanReserve | hbserve/placement.py:970-973 | true exactly when the reservation that follows at once will succeed |
| Placements.Placement.ReserveBatch | hbserve/placement.py:997-1055 | the placement object evicts, swaps and grows exactly as the plan of fewest evictions and victims says; it raises, changing nothing, exactly when another batch is pending or the plan is infeasible |
| Placements.Placement.MigrateRequest | hbserve/placement.py:975-995 | the placement object moves all layers of a request as specified |
| Placements.Placement.PreemptRequest | hbserve/placement.py:1057-1086 | swaps all blocks out exactly when the cold pool has room, else drops them; raises exactly without hot blocks; nothing else changes |
| Placements.Placement.CompleteBatch | hbserve/placement.py:881-887 | publishes the full blocks of every completed slice, in order, and changes nothing but the cache |
| Placements.Placement.ReleaseRequest | hbserve/placement.py:1088-1099 | forgets the request and frees exactly its blocks, its idle prefix entries turning young; raises for an unknown one |
| KvMemory.CopyTableAt | hbserve/placement.py:975-995 | executing a migration makes the new block table read as the old one did, byte by byte |
| KvWrites.WritesAreExclusive | hbserve/placement.py:1021-1042 | every block that a slice writes has one holder, the writer itself: no prefix entry, no other request and no second cell names it |
| KvWrites.SliceReads | hbserve/placement.py:1161-1198 | below the frontier nothing is overwritten, from the frontier on the slice's own tokens appear |
| KvWrites.SliceGood | hbserve/placement.py:1021-1042 | committing to one more slice keeps every promise about contents |
| KvRefinement.MigrateGood | hbserve/placement.py:975-995 | swapping a request out or in keeps every promise about contents, in both tiers |
| KvReservation.ReserveGood | hbserve/placement.py:997-1055 | reserving a batch, or the same batch grown by more slices, keeps every promise about contents |
| KvAdmission.HitsArrive | hbserve/placement.py:856-879 | the table built from prefix hits reads as the KV of the request's own prompt |
| KvAdmission.AdmitGood | hbserve/placement.py:856-879 | admission keeps every promise; the new request starts behind its hits, strictly inside its prompt |
| KvLifecycle.ExecuteGood | hbserve/placement.py:881-887 | executing the migrations and writes of a batch and publishing its blocks keeps every promise |
| KvLifecycle.PreemptGood | hbserve/placement.py:1057-1086 | preemption swaps a request out whole, or forgets its tokens and nobody else's |
| KvLifecycle.ReleaseGood | hbserve/placement.py:1088-1099 | releasing a request takes nothing from anyone else |
| KvRuns.ActSound | hbserve/placement.py:856-1099 | each call on the plane keeps every promise about contents |
| KvRuns.RunReads | hbserve/placement.py:975-1198 | data refinement: after any run from any initial memory, each processed token of each live request is found through its block table with all its bytes, across swaps, block reuse and shared prefixes, as soon as the pending migrations and slices are carried out |
| KvRuns.RunPublished | hbserve/prefix.py:65-85 | published prefix blocks are immutable: in every reachable state an entry's blocks hold the KV its key stands for, at once or, while pending, as soon as its batch ran |
| KvRuns.TokenReads | hbserve/placement.py:1161-1198 | the block and slot found by dividing the token position by the block size hold every byte of the token |
| KvPieces.SplitKv | hbserve/placement.py:1161-1198 | an extent of a request's layer is split into the fewest contiguous pieces that are its bytes in order; it fails exactly when the extent leaves the block table |
| KvPieces.LocationsDistinct | hbserve/placement.py:1177-1198 | two bytes share an address only in the same block at the same place, so tables without a common block never overlap |
| KvPieces.TableInjective | hbserve/placement.py:1177-1198 | no two bytes of a layer share an address |
| KvPieces.SplitStripes | hbserve/placement.py:758-783 | at most three pieces, no byte lost, cut exactly at the borders of the whole stripes inside the extent |
| BlockRuns.MergeRuns | hbserve/placement.py:497-513 | the merged runs copy exactly the given block pairs in their order, and none could be longer |
| BlockRuns.RunsUnique | hbserve/placement.py:497-513 | there is only one such list of runs |
| Extents.ExtentAllocator.Allocate | hbserve/placement.py:279-294 | first fit; the free list stays sorted, disjoint and coalesced; fails, changing nothing, exactly when nothing is asked for or no extent is long enough |
| Extents.ExtentAllocator.Release | hbserve/placement.py:296-318 | gives an extent back and coalesces; raises exactly for an extent outside the range, with nothing changed, or over free bytes, with the extent already sorted into a list that is no longer coalesced |
| Extents.WholeIsOne | hbserve/placement.py:296-318 | a coalesced list that covers a whole range is that one extent |
| ModelCaches.ModelCache.Activate | hbserve/placement.py:1120-1142 | activation of an admitted model always succeeds; a hit makes it the youngest and keeps the order of the others, a miss evicts the fewest oldest models, with fewer evicted nowhere so many bytes in a row are unused |
| ModelCaches.EmptyFits | hbserve/placement.py:633-641 | an empty cache is one free extent, which holds every admitted model |
| Compilers.Compiler.Compile | hbserve/compiler.py:189-507 | the operations of an iteration, all of them in order: one embedding read for each token, layer by layer the weights its flags ask for, appends, context reads, experts and barriers, then norm, head if there is output, tail; each depends on exactly those it needs, memory of a layer on the compute that frees its buffer; topologically ordered, and the last one comes after all |
| Operations.OnlyOne | hbserve/compiler.py:189-507 | the order and the needs determine the graph: two such lists have the same operations with the same dependencies |
| Compilers.RolesExhaustive | hbserve/compiler.py:323-370 | every row has an append and a context read in every layer, and there are no others |
| Graphs.SingleEnd | hbserve/compiler.py:507-507 | if only the last operation has no successor, everything precedes it |
| Transactions.FencedPush | hbserve/placement.py:1391-1473 | each cold fence is the last access to its block and follows all earlier ones |
| Transactions.SerialPush | hbserve/placement.py:1391-1473 | accesses to one cold block stay one dependency chain, over all batches |
| Transactions.HandedPush | hbserve/placement.py:1398-1489 | a swap-out is written after it is read, a swap-in written after it is fetched, a weight chunk installed after it is fetched, and swap-ins start behind all earlier hot reads |
| Stagings.StagedPush | hbserve/placement.py:1242-1272 | one emission keeps all of this, and waits for its own batch or for retained transactions only |
| Strictness.FencesLatest | hbserve/placement.py:1374-1390 | the fences of a range of cold blocks are exactly the last accesses to one of them |
| Strictness.StrictPush | hbserve/placement.py:1352-1489 | one more emission, itself exact, leaves every hot read, fetch, install, link, cold write and barrier of the batch waiting for exactly what it must |
| TaskMaps.AncestorFirst | hbserve/placement.py:1505-1590 | every transaction of an operation's ancestor precedes every transaction of the operation |
| TaskMaps.RootFirst | hbserve/placement.py:1505-1508 | every transaction of an operation follows every root of the batch |
| TaskMaps.BatchCompletes | hbserve/placement.py:1490-1590 | all transactions of a batch but the cold writes of swap-outs and their links precede its last one |
| Mappings.Mapper.EmitLinks | hbserve/placement.py:1352-1372 | exactly one link for each stack that holds bytes of the transfer, carrying the bytes that the address arithmetic gives that stack, each behind the given transaction |
| Mappings.Mapper.SwapOut | hbserve/placement.py:1391-1432 | one run leaves the hot pool, by exactly one hot read and one cold write; the write waits for the read, over its links, and for the fences of its blocks, and for nothing else |
| Mappings.Mapper.SwapIn | hbserve/placement.py:1434-1489 | one run comes back by one fetch and one hot write, behind exactly the release, all hot reads so far and the fences of its blocks |
| Mappings.Mapper.MapBatch | hbserve/placement.py:1201-1664 | the log gains exactly the chunks of the weights, the runs of every migration and the striped pieces of every operation, in order; each piece waits for exactly the ends of its operation's dependencies, or for the release, install and swap barriers, each other transaction for exactly what it must; the batch completes with its last transaction except for cold writes, and depends on earlier batches only through their retain set |
| Pipelines.AppendsFirst | hbserve/compiler.py:323-370 | in physical memory every context read of a layer follows every append of the batch to that layer, and each row has one |
| Pipelines.MapIteration | hbserve/placement.py:1201-1664 | compiled and mapped, an iteration has all of this together: exactly its operations, with exact dependencies in both graphs, the steps of the batch and no others, operations that carry out the slices of the plane, and context reads behind every append |
| Pipelines.CompiledServes | hbserve/placement.py:1161-1198 | the pieces of the compiled operations are the bytes of the slices, through the block tables of the reserved plane, layer by layer |
| Pipelines.WorldMappable | hbserve/placement.py:1201-1240 | with blocks as large as any live layer needs, the reserved batch can be mapped in every reachable state: its block tables cover its slices and its migrations are orderly |
| Pipelines.IterationMaps | hbserve/placement.py:1201-1664 | what MapIteration guarantees is what the executed runs below ask of a batch |
| Executions.SameView | hbserve/placement.py:1242-1272 | if all conflicting transactions are ordered, every transaction reads the same values in any admissible order of execution; RunDetermined provides the hypothesis |
| Executions.SameMemory | hbserve/placement.py:1242-1272 | and memory ends up the same |
| KvApart.ActTidied | hbserve/placement.py:975-1198 | in every run pending migrations move whole blocks, none is both read and written by them in the same tier, and slices write blocks of their own |
| Settlements.SettleMoves | hbserve/placement.py:975-995 | the merged runs of blocks that are handed to the mapper move memory exactly as the migrations decided by the plane |
| Emissions.MoveSteps | hbserve/placement.py:1391-1489 | executing the emitted hot reads, cold writes, fetches and hot writes in order moves every byte of the migrated blocks, through the value each one hands over |
| KvResults.BatchShows | hbserve/placement.py:1201-1664 | executing one mapped batch turns the memory the plane starts from into the one it commits to |
| KvResults.ContextRight | hbserve/compiler.py:323-370 | within a batch each byte of a context read is the KV of its own request, layer and position, including tokens of the same batch |
| KvOrder.MovesParted | hbserve/placement.py:1391-1489 | migrations of one batch never clash with each other |
| KvOrder.BatchClash | hbserve/placement.py:1242-1272 | two transactions of a batch that touch the same byte, one of them writing it, are ordered by dependencies |
| Realizations.RunDetermined | hbserve/placement.py:1391-1590 | over a whole run all conflicting transactions are ordered, by the fences of cold blocks across batches and by completion of one batch before the next otherwise |
| Realizations.RunRealized | hbserve/placement.py:1201-1664 | for any run of the plane, executing its emitted transactions in any admissible order leaves in every hot and cold block exactly the bytes the plane decided |
| Realizations.ContextsRead | hbserve/placement.py:1161-1198 | in any such execution every context read of the run sees, byte for byte, the KV of its own request |
| Realizations.TokensFound | hbserve/placement.py:1161-1198 | and afterwards every byte of every processed token of every live request is found at the address its block table gives |
| Frontiers.SliceFits | hbserve/engine.py:205-232 | a slice stays within budget, chunk and lifetime and passes the compiler's checks; the decode check fails exactly off the frontier |
| Frontiers.AdvanceKeeps | hbserve/engine.py:376-403 | on the frontier no check fires and the frontier is kept; a request completes exactly when it has emitted all its output, having processed its whole lifetime |
| Frontiers.RecomputeExact | hbserve/engine.py:234-247 | recomputing keeps the prefill target at prompt + emitted if and only if nothing was emitted yet or all but the last token is processed |
| Frontiers.ShortRaises | hbserve/engine.py:205-247 | a short target never recovers: the chunk that reaches it runs into a check |
| Traps.TrapExists | hbserve/engine.py:205-247 | one request alone, served and preempted by reservations that the plane refuses, is recomputed twice and then runs into the decode check |
| LeanPlane.SoloFits | hbserve/placement.py:903-973 | the only request with blocks can always grow to any end within its lifetime, if that fits the pool alone |
| LeanPlane.FitsMeans | hbserve/placement.py:970-1055 | without tiers a reservation succeeds exactly when the needed blocks are free |
| Affordability.FeasibleAffords | hbserve/placement.py:903-973 | whatever the plan can do, the growth of a feasible batch fits the free blocks together with all that idle entries and requests outside the batch hold |
| Affordability.AffordableFeasible | hbserve/placement.py:903-973 | and if no request outside the batch is hot, that condition suffices: the plan only evicts prefix entries |
| Affordability.NoVictims | hbserve/placement.py:940-968 | without hot requests outside the batch the plan has no victim |
| Affordability.PreemptAffords | hbserve/placement.py:1057-1086 | preempting a request outside the batch never makes the batch unaffordable |
| Paces.BudgetLeft | hbserve/engine.py:291-297 | while running requests are served in order the token budget never runs out before the last of them, and only the last can be cut |
| Paces.JoinedRationed | hbserve/engine.py:325-362 | a request that joins keeps this so for the next iteration |
| Paces.BookedPaced | hbserve/engine.py:376-403 | and so does the completion of a slice, because a request asks for no more tokens later on |
| Seats.RunningYields | hbserve/engine.py:234-266 | preempting a running request always succeeds, with any configuration |
| Seats.RunningFit | hbserve/engine.py:291-316 | the reservation of the slices of all running requests succeeds, with any configuration |
| Seats.CalmReserved | hbserve/placement.py:903-1055 | and its plan swaps nobody out, so running requests stay in hot memory |
| Executors.Executor.CanReserve | hbserve/placement.py:970-973 | the answer is exactly whether the reservation that follows would succeed |
| Executors.Executor.ReserveBatch | hbserve/placement.py:997-1055 | reserves, or grows the reserved batch, while all promises about contents hold |
| Schedulers.Engine.PreemptLast | hbserve/engine.py:234-266 | the youngest running request leaves the hot pool and becomes the first to resume; it never raises, for any configuration; recompute off the frontier taints the run |
| Schedulers.Engine.MakeFit | hbserve/engine.py:298-311 | preempts from the young end exactly while the slice does not fit, until it fits or its own request had to go; with room for each request alone and without tiers the head of the running list is never lost |
| Schedulers.Engine.ScheduleRunning | hbserve/engine.py:291-316 | one slice of the exact size for every request that is still running, in order and within the budget, each dealt right after as many preemptions as its fit asks for; together they can be afforded; it fails only at a frontier check of a tainted run |
| Schedulers.Engine.ServeRunning | hbserve/engine.py:291-323 | the reservation that follows the sweep never fails, its plan is feasible and swaps nobody out, and every running request has its slice reserved |
| Schedulers.Engine.AdmitOne | hbserve/engine.py:325-362 | a waiting request is admitted behind its cached prefix and joins the batch exactly if its chunk fits beside the others, else nothing of it remains |
| Schedulers.Engine.AdmitWaiting | hbserve/engine.py:325-362 | admission is greedy and in order: from the front of the waiting list the requests of the batch's model join, others are passed over, until the budget is spent, the batch is full, or the next one of the model does not fit |
| Schedulers.Engine.NextSchedule | hbserve/engine.py:268-374 | the batch is exactly that of greedy admission in order after the sweep of the running requests, within token budget, chunk and batch size; it is reserved and serves every running request; it fails only with nobody running, when no waiting request can be held, or at a check of a tainted run; the recursion is at most two deep |
| Schedulers.Engine.ApplyCompletion | hbserve/engine.py:376-403 | slice by slice exactly the sliced request's frontier moves to the slice end, and it is released exactly when finished; a check fires only in a tainted run; the head of the running list makes progress |
| Schedulers.Engine.Iterate | hbserve/engine.py:405-455 | one iteration is exactly the enqueued arrivals, the schedule, its execution and the completion; it fails only with nobody running or at a check of a tainted run; with room for each lifetime alone and without tiers the measure of remaining work strictly shrinks or the run is tainted |
| Schedulers.Engine.Run | hbserve/engine.py:405-455 | for any configuration a run ends early only when nobody runs and no waiting request can be held, or at a check of a tainted run; without tiers, with each lifetime fitting the pool alone and no recompute off the frontier, all requests complete within as many batches as the sum of their lifetimes |
| Completions.BatchCompiles | hbserve/compiler.py:146-187 | the slices of a scheduled batch pass every check of the compiler |
| Completions.BatchReads | hbserve/engine.py:268-374 | while a batch is being put together, each token before a slice's end is found in hot memory with the value computed for it |
| Completions.MeasurePositive | hbserve/engine.py:405-455 | the measure is positive while work is left |
| Completions.ProgressShrinks | hbserve/engine.py:376-403 | progress of the head shrinks the measure |
| Batches.ServedNothing | hbserve/engine.py:364-367 | when nothing is scheduled after the sweep no request is running any more, and there is unfinished work |
| Sweeps.VictimNotAlone | hbserve/engine.py:298-311 | with room for a lone request, a head that does not fit is not alone |
| Sweeps.HeadFits | hbserve/engine.py:298-311 | a lone running request fits |
| PeerRemappers.Segments | hbserve/windows/peer.py:206-223 | an access is cut byte for byte, in order, at the borders of the KV range and of the units |
| PeerRemappers.PlacesDistinct | hbserve/windows/peer.py:206-223 | no two canonical bytes share a place |
| PeerRemappers.Covers | hbserve/windows/peer.py:60-61 | one interval covers a range exactly when every byte of it has been written |
| PeerRemappers.Extend | hbserve/windows/peer.py:63-74 | the interval list stays sorted and separated and gains exactly the written range |
| PeerHomes.DemotionsExact | hbserve/windows/peer.py:316-342 | demotions are exactly the units beyond the slots |
| PeerHomes.PeerRemapper.Preflight | hbserve/windows/peer.py:238-285 | passes exactly when the trace never reads unwritten bytes and never has a unit too many |
| PeerHomes.PeerRemapper.CopyOut | hbserve/windows/peer.py:316-342 | the oldest unit moves to a new home, only its written ranges are copied, and it reads there as before |
| PeerHomes.PeerRemapper.Touch | hbserve/windows/peer.py:352-394 | one access raises exactly when a placement-free reader would; otherwise the unit's only place holds its written bytes as flat memory does |
| PeerHomes.PeerRemapper.Use | hbserve/windows/peer.py:377-380 | a resident unit becomes the youngest and the others keep their order |
| PeerHomes.PeerRemapper.Bear | hbserve/windows/peer.py:352-376 | a new unit takes the next free slot, or exactly the slot of the least recently used unit, which moves to the next home |
| PeerHomes.PeerRemapper.Remap | hbserve/windows/peer.py:287-394 | raises exactly when a placement-free reader would; otherwise flat memory takes every write of the trace, after each access the unit's place holds its written bytes as flat memory does at that moment, and the places change by least recent use |
| PeerHomes.PeerRemapper.Serve | hbserve/windows/peer.py:238-394 | on a fresh remapper a trace that passes the preflight never raises and refines flat memory access by access; one that does not is refused untouched; the demotions are max(0, units - slots) |
| Intervals.Merge | hbserve/sglang/backend.py:24-33 | the same numbers in sorted, separated form |
| Intervals.Subtract | hbserve/sglang/backend.py:36-46 | exactly the numbers outside the range remain |
| Intervals.Missing | hbserve/sglang/backend.py:49-53 | exactly the numbers of the range that no interval has |
| KvLayouts.BuildArenas | hbserve/sglang/layout.py:114-131 | KV arenas start on page boundaries and share no page |
| KvLayouts.PageSlots | hbserve/sglang/layout.py:154-164 | exactly the slots that share a byte with the page; an error exactly when no arena does |
| KvLayouts.Pieces | hbserve/sglang/backend.py:200-206 | a byte range is cut exactly at page boundaries, every byte in its page |
| KvLayouts.SlotPieces | hbserve/sglang/backend.py:208-212 | all bytes of a slot over all layers |
| HardwareCaches.HardwareCache.Writeback | hbserve/sglang/backend.py:337-345 | exactly the dirty bytes reach the backing, which is then clean and backed, and nothing a reader sees changes |
| HardwareCaches.HardwareCache.PageFor | hbserve/sglang/backend.py:347-365 | the page gets its entry at the young end, in a free slot or, only if there is none, in that of the oldest entry, without changing what a reader sees |
| HardwareCaches.HardwareCache.ReadPiece | hbserve/sglang/backend.py:367-388 | after gaps are filled, the slot shows the flat memory on the piece |
| HardwareCaches.HardwareCache.Read | hbserve/sglang/backend.py:367-388 | a read of any range sees the flat memory in every byte, across evictions in between, and changes nothing |
| HardwareCaches.HardwareCache.Write | hbserve/sglang/backend.py:367-388 | a write of any range changes exactly those bytes of the flat memory |
| HardwareCaches.HardwareCache.Flush | hbserve/sglang/backend.py:453-459 | the dirty pages, oldest first, are written back until the limit is reached or none is left, and nothing a reader sees changes |
| HardwareCaches.HardwareCache.Release | hbserve/sglang/backend.py:214-253 | a page dies exactly if a released live slot overlaps it and no live slot does any more; the dead leave the cache and free their slots, the invalidated ones are the dead that were backed, other entries lose exactly the bytes of the released slots, and live slots keep theirs |
| HardwareCaches.HardwareCache.Observe | hbserve/sglang/backend.py:255-269 | the slots a batch newly fills live from then on; refused, with nothing changed, exactly when the batch is empty, names a request twice or a reserved slot, or builds on KV that is not there |
| StackGeometry.StackIs | hbfsim_client/transaction_protocol.py:144-153 | the case distinction is the rotation of the lane modulo the stacks |
| StackGeometry.BytesConserved | hbfsim_client/transaction_protocol.py:202-235 | the per-byte histogram sums to the range |
| StackLinks.LinkBytesByStack | hbfsim_client/transaction_protocol.py:202-235 | group by group, each stack gets exactly its bytes; refused exactly off page boundaries |
| StackLinks.HistogramUnique | hbfsim_client/transaction_protocol.py:202-235 | all decompositions that equal the per-byte histogram agree and conserve the bytes |
| LinkSplits.EdgeSplit | hbserve/sglang/backend.py:271-289 | whole stripes split evenly plus decoded edges equal the per-byte histogram, for any rotation |
| LinkSplits.TransferBytesByStack | hbserve/windows/peer.py:24-41 | partial first page, aligned middle, partial last page equal the per-byte histogram |
| LinkSplits.LinkPayloadByStack | hbserve/recovery.py:67-78 | aligning outward and subtracting the excess equals the per-byte histogram |
| PageMaps.PhysicalRoundTrip | hbfsim_client/transaction_protocol.py:182-199 | the static map can be inverted on every logical page; a page lies on its own stack, and rows of pages go over its planes in turn |
| PageMaps.LogicalRoundTrip | hbfsim_client/transaction_protocol.py:182-199 | every physical page is the image of a logical one |
| PageMaps.StaticBijection | hbfsim_client/transaction_protocol.py:182-199 | a bijection from the logical pages onto the page-aligned physical addresses; pages beyond the capacity have none |
| PageMaps.VpnIs | hbfsim_client/transaction_protocol.py:168-179 | a mapping page belongs to its pages' group and stack |
| PageMaps.DenseMappingPages | hbfsim_client/transaction_protocol.py:238-264 | the count equals the size of the set of mapping pages of the range |
| TrieEncoding.SiblingMeans | hbserve/sglang/requests.py:82-95 | in lexical order the predecessor alone tells whether an edge is known |
| TrieEncoding.NewEdge | hbserve/sglang/requests.py:82-95 | an edge that differs from the predecessor's is new below its prefix |
| TraceTokens.SharedTokens | hbserve/sglang/requests.py:97-105 | encoded requests share exactly the tokens of their common leading blocks, cut to their lengths |
| TraceTokens.EncodeTrace | hbserve/sglang/requests.py:79-108 | any two encoded requests share exactly min(length, length, common blocks * block size) leading tokens; refused exactly when some prefix branches wider than the vocabulary |
| ListScheduling.RealizesSum | hbserve/gpu_profile.py:29-34 | the heap loop loses no work |
| ListScheduling.ListSchedule | hbserve/gpu_profile.py:29-34 | the loads realize an assignment of the tasks, and slots * max exceeds the total by at most (slots - 1) times the longest task |
| ListScheduling.WithinTwice | hbserve/gpu_profile.py:29-35 | slots * max is at most 2 * slots - 1 times the makespan of any assignment |
| Recoveries.VersionsApart | hbserve/recovery.py:378-399 | the versions of a checkpoint lie apart from each other, below its log, inside its part of the arena |
| Recoveries.HoldsAppend | hbserve/recovery.py:359-428 | later checkpoints leave all committed bytes of earlier ones alone |
| Recoveries.AcceptedHolds | hbserve/recovery.py:434-447 | media that recovery accepts, the publication's own or its staged child, holds every committed byte of the publication |
| Checkpoints.Executor.RecordWrite | hbserve/recovery.py:228-241 | a contiguous write extends the object's segments, anything else is refused; segments stay apart and resident |
| Checkpoints.Executor.RecordOperation | hbserve/recovery.py:219-241 | the pieces of one KV write become segments of its object, in order, each behind the one before |
| Projections.NoteSame | hbserve/recovery.py:219-241 | two writes with the same bytes in the same order, however they are cut into pieces, leave the same segments |
| Checkpoints.Executor.PublishCheckpoint | hbserve/recovery.py:359-428 | data, log and root land in new flash, the media left behind is sound, and apart from the root page nothing changes below the free end, the weights included; exhausted exactly beyond the capacity |
| Checkpoints.Executor.ReplayWrites | hbserve/recovery.py:462-473 | the replay rebuilds segments from the recorded writes alone, and fails exactly where one does not continue its object |
| Checkpoints.Executor.RestoreCheckpoint | hbserve/recovery.py:431-490 | accepted exactly for matching media and segments rebuilt by the replay that match the manifest; afterwards HBM holds every committed KV byte where its object lives; a refusal after the replay leaves the rebuilt segments behind and HBM as it was |
| Replays.OneMoreSlice | hbserve/placement.py:1021-1034 | reserving some slices first makes no difference to reserving one more with them |
| ReplayRuns.JoinedReserve | hbserve/recovery.py:467-470 | admitting a request before or after a reservation of others comes to the same |
| ReplayRuns.ReserveAlike | hbserve/placement.py:997-1055 | planes that differ in admission numbers only reserve alike |
| ReplayRuns.ReplayRestores | hbserve/recovery.py:462-473 | for any run without tiers and preemption, replaying its log, one admission per new request, one reservation and one completion per batch, ends in the same block tables and pools, although the run reserved slice by slice and may have taken admissions back |
| Restorations.ReplayMaps | hbserve/recovery.py:462-473 | batch by batch the replay reserves through the same block tables as the run |
| Restorations.RestoreRebuilds | hbserve/recovery.py:462-490 | the KV writes of the replayed batches rebuild exactly the segments that the KV writes of the run recorded |

## Left out

- Simulator session, receipts, digests, counters, statistics, provenance and all validation of input files: no state that a property depends on.
- Real-valued timing, calibrated profiles, thermal models, percentiles: order of events only.
- Request groups of the engine, and its `hot_kv_blocks` flag: more cases of the same kind.
- The finish time of a batch is chosen freely, no earlier than its release.
- BlockReferences.References.Set: the 64-bit range is a property of the array cells; the pool holds the plain map that the chunked arrays are proved to refine, and counts in unbounded integers, which stay far below that range.
- BlockPools.BlockPool.CompactFreeIndex: the rebuild of a dictionary that holds too much memory changes no content and is not modelled.
- PrefixCaches.PrefixCache.Expire: walks the list by index instead of over a snapshot of the items; deadlines are naturals.
- Placements.Placement.MigrateRequest: a migration that does not fit is excluded, because a planned one always fits; the half-done state of a failing one is not described.
- KvRuns.RunReads: is about the migrations and slices of a run as the plane decides them; that the emitted transactions come to the same is `Realizations.RunRealized`. Reads of a request that is swapped out are of the cold tier.
- Realizations.RunRealized: a transaction reads its input and makes its writes in one step, and a batch is submitted after the one before has completed (cold writes and links aside), as the session does. KV contents are what the compiled appends produce for their request, layer and position.
- Schedulers.Engine.Run: with a cold tier, a prefix cache or several models no bound on the number of batches is stated; the caller gives one.
- Mappings.Mapper.MapBatch: the checks at its entry (duplicate batch, reserved blocks) and the receipt are left out; spans, durations and target names are dropped; the alignment of the cold pool to whole pages, which the constructor establishes for aligned block sizes, is a precondition.
- Compilers.Compiler.Compile: the addresses and sizes of weights, the tokens of an embedding read, the routing of experts (here: a positive number of experts for a layer with routing) and the calibrated workspace are left out.
- Executors.Executor.CanReserve: the executor behind the engine is the placement plane alone.
- PeerHomes.PeerRemapper.Remap: transactions and their dependencies, batch numbers and finalization are left out; memory effects are applied in order.
- HardwareCaches.HardwareCache.Read: the transaction graph, ready fences, uncached homes with their staging slots, and placements that split the KV by priority over two tiers are left out; effects are applied in order.
- KvLayouts.BuildArenas: weights, cache, staging and capacities are other extents of the same kind.
- PageMaps.DenseMappingPages: the rotation is any function into the stacks; the 64-bit mixer is not modelled.
- ListScheduling.ListSchedule: the tasks are given; the list of attention tiles and the float ratio are left out.
- TraceTokens.EncodeTrace: block bodies are a fixed sequence for each hash; seeds and time stamps are left out.
- Checkpoints.Executor.PublishCheckpoint: files, staging through a scratch page, link traffic and lifecycle records are left out; a copy is one step.
- Checkpoints.Executor.RestoreCheckpoint: takes the KV writes of the replayed batches; that they rebuild the run's own segments is `Restorations.RestoreRebuilds`. The root page, rewritten by every publication, is not part of what accepted media is shown to hold.
- Checkpoints.Executor.RecordOperation: the segments after a refused piece in the middle of an operation are not described.
- Recoveries.AcceptedHolds: the bytes of a KV object are a function of its name and position, as the identities compared at restoration demand.
- SGLang hooks, the GPU compiler, fixed-window emitters and synthetic generators: emission without further state.
