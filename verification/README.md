# PegaFlow: a verified model

PegaFlow offloads the KV cache of language models from GPU memory to pinned host
memory and runs a metadata server that tells nodes who owns which block. This
project models its logic in Dafny and proves what it relies on.

* **Layout and copies.** `Layout` is the affine addressing of a registered layer,
  `Memory` and `Transfer` the copy descriptors, their coalescing and the copies on
  byte arrays.
* **Blocks and grouping.** `Blocks` is the filling and sealing of blocks,
  `InsertEntries` the two ways of grouping a saved batch, `Pipeline` the insert
  worker.
* **Topology.** `PageLayout`, `Names`, `Topology` and `Registration` are the page
  placement, the sealing of a worker set and the registration machine.
* **Save and load.** `SavePlan`, `Placement` and `SaveLoad` are what one save does
  to memory and to the store, `LoadPath` what a load does. `Ledger` is the invariant
  behind both: every block that is inflight, resident or on loan goes back to
  deliveries whose GPU bytes are still in host memory, and the saves under way own
  their bytes. `Phases` are the steps of a save, `Engine` the store as a class whose
  operations interleave freely, `RoundTrip` a save followed by a load.
* **MetaServer.** `MetaStore` is the store, `MetaRuns` its histories under a
  monotone clock, `MetaRaces` its lock scopes in any interleaving, `MetaQuery` the
  prefix query.
* **HyperLogLog.** `Hll` is the bit-level register rule, `HllWindow` the sliding
  window with its cached merge.
* **Admission, leases, CPU lists.** `Sketch` is the count-min sketch and the cache
  in front of which it stands, `Leases` the query leases, `CpuList` the cpulist
  printer and parser.

`dafny verify dfyconfig.toml` checks the whole project.

## How the model reads the source

* Integers are unbounded; `usize`, `u64`, `u32` and `u8` limits are written out
  where the code depends on them. A checked operation that would panic is an
  explicit error or an excluded input; a wrapping one wraps.
* Clock readings, allocation results, session ids, lease tokens and hash functions
  are parameters. Where an operation reads the clock twice, it takes two readings.
* State that the source updates in place is a class; the maps and vectors in it are
  fields that methods reassign, buffers are arrays. The lemmas speak about the
  functions that the methods are proved against.
* Device and host memory are byte arrays; an address is an index.
* An unordered walk over a map or set takes its elements in arbitrary order.
* The seal check keeps the ownership grid as a map keyed by (layer, rank) where the
  source flattens it into a vector; layer and rank arithmetic is proved separately.
* The comment on the window tracker's `record` puts every slot on the grid of the
  first one. The code does so while the ring holds a slot and starts a new grid
  when it has run empty; the model follows the code (`GridOfFirst`, `GridRestarts`).

## Model

| member | source | states |
|---|---|---|
| Layout.TwoDistancesDecide | pegaflow-core/src/layout.rs:205-225 | probing the two block distances nearest the K/V offset answers for all distances between blocks |
| Layout.SplitDisjointExact | pegaflow-core/src/layout.rs:205-225 | pairwise disjointness of all K and V ranges is the same as every block distance being clear |
| Layout.BoundsCheckExact | pegaflow-core/src/layout.rs:164-203 | the bounds check passes exactly when the stride is large enough, every segment of every block fits the region, and all segments are pairwise disjoint; no address overflows |
| Layout.RejectionIsReal | pegaflow-core/src/layout.rs:205-225 | for a layout that fits, the distance check rejects exactly when some K range really overlaps some V range |
| Layout.NewExact | pegaflow-core/src/layout.rs:73-130 | construction succeeds exactly for sane arguments whose ranges, computed from the arguments alone, all fit the region and never meet; the layout then addresses exactly those ranges |
| Layout.NewInNumbers | pegaflow-core/src/layout.rs:73-130 | the same in numbers: whole blocks back to back must fit together; a K/V split is dense, and V must start after all of K and end inside the region; the address of every block, and a host stride of one unpadded segment |
| Layout.WithBlockStrideExact | pegaflow-core/src/layout.rs:140-153 | a stride override succeeds exactly when the stride covers a block (a segment, if split) and the moved ranges still fit and stay disjoint; block b then starts at b strides, and nothing else changes |
| Layout.WithSsdPaddingKeeps | pegaflow-core/src/layout.rs:157-160 | padding keeps the layout accepted and gives the least multiple of the alignment that holds a segment |
| Layout.PiecesCoverSegments | pegaflow-core/src/layout.rs:231-255 | the copies of a block are exactly its segments, merged into one range when contiguous |
| Layout.PiecesInRegion | pegaflow-core/src/layout.rs:231-255 | every copy range of an accepted layout is nonempty, lies in the registered region and does not overflow |
| Layout.PiecesDisjoint | pegaflow-core/src/layout.rs:231-255 | copy ranges of different blocks or segments never overlap |
| Memory.CopyInto | pegaflow-core/src/transfer/memcpy.rs:62-106 | an in-place copy changes exactly the destination range, to the source bytes |
| Memory.RunBatch | pegaflow-core/src/transfer/memcpy.rs:62-106 | a batch leaves the destination as its moves applied in order |
| Memory.UncoveredKept | pegaflow-core/src/transfer/memcpy.rs:62-106 | a byte no move covers keeps its value |
| Memory.CoveredDelivered | pegaflow-core/src/transfer/memcpy.rs:62-106 | when moves that meet agree, a covered byte holds what any covering move delivers |
| Memory.MoveSynced | pegaflow-core/src/transfer/memcpy.rs:62-106 | after an agreeing batch both sides of every move hold the same bytes |
| Memory.Merge | pegaflow-core/src/transfer/memcpy.rs:28-56 | coalescing adjacent copies has the same effect as the uncoalesced batch in both directions on all memories, and leaves no two neighbours that touch on both sides |
| Blocks.InflightBlock.constructor | pegaflow-core/src/block.rs:365-374 | a new block has no slot filled, all slots remaining, footprint zero and every NUMA node unknown |
| Blocks.InflightBlock.InsertSlot | pegaflow-core/src/block.rs:397-427 | an insert into a vacant slot stores block and NUMA node, adds its footprint modulo 2^64, and completes exactly with the last slot; a duplicate changes nothing |
| Blocks.InflightBlock.Seal | pegaflow-core/src/block.rs:431-442 | sealing a complete block keeps its slots, NUMA nodes and footprint in slot order |
| Blocks.SlotsAreFirstOffers | pegaflow-core/src/block.rs:397-427 | over any insert sequence a slot holds exactly the first block offered for it |
| Blocks.FootprintIsFilledSum | pegaflow-core/src/block.rs:397-427 | the footprint is the sum over the filled slots, reduced to u64 |
| Blocks.SizesAdd | pegaflow-core/src/block.rs:131-154 | the footprint of segments adds up, segment by segment |
| Blocks.CompleteMeansAllOffered | pegaflow-core/src/block.rs:397-427 | a block is complete exactly when every slot has been offered |
| Blocks.OutcomeExact | pegaflow-core/src/block.rs:397-427 | an insert is a duplicate exactly when its slot was offered before, and completes exactly when it offers the last missing slot |
| Blocks.CompletedAtMostOnce | pegaflow-core/src/block.rs:397-427 | after the completing insert every further one is a duplicate |
| Blocks.CompletedExactly | pegaflow-core/src/block.rs:397-427 | some insert completes the block exactly when all slots are offered |
| Blocks.SealedByFirstOffers | pegaflow-core/src/block.rs:431-442 | insert sequences with the same first offers seal to the same block, whatever their order and repeats |
| Blocks.FromOrderedSlotInserts | pegaflow-core/src/block.rs:304-330 | the one-pass seal accepts exactly full batches in slot order and hands anything else back unchanged |
| Blocks.OrderedSealRefines | pegaflow-core/src/block.rs:304-330 | on such a batch it gives the slots and NUMA nodes of slot-by-slot sealing, and the same footprint exactly when the sum fits u64 or wraps onto its maximum |
| PageLayout.BuildPageLayout | pegaflow-core/src/instance.rs:88-143 | succeeds exactly when the distinct layer sets partition the layers, and then places every shard |
| PageLayout.PlacementIndependent | pegaflow-core/src/instance.rs:88-143 | any order and repetition of the workers gives the same shards, offsets and page sizes |
| PageLayout.SlicesTile | pegaflow-core/src/instance.rs:88-143 | the layers of a shard tile its page: every byte belongs to exactly one slice |
| PageLayout.OffsetsAligned | pegaflow-core/src/instance.rs:88-143 | aligned padded sizes give aligned offsets and page sizes |
| Names.SortNames | pegaflow-core/src/instance.rs:418-532 | the sorted, duplicate-free listing of the layer names |
| Names.ListingUnique | pegaflow-core/src/instance.rs:418-532 | a set of names has only one sorted listing |
| Names.LessExactly | pegaflow-core/src/instance.rs:418-532 | names are ordered by their first difference, a proper prefix before the longer name |
| Topology.CollectGeometry | pegaflow-core/src/instance.rs:418-532 | geometry collection fails exactly when two workers disagree about a layer |
| Topology.CheckGrid | pegaflow-core/src/instance.rs:418-532 | the ownership grid passes exactly when every (layer, tp rank) cell has an owner and all its owners are of one pipeline stage; two stages in a cell are reported before a missing owner |
| Topology.SealTopology | pegaflow-core/src/instance.rs:418-532 | sealing succeeds exactly for a sealable worker set and yields sorted layer ids and, page-first, the page placement; geometry conflicts are reported first, then stage conflicts |
| Topology.SealableExactly | pegaflow-core/src/instance.rs:418-532 | a worker set is sealable exactly when workers that share a layer agree on its segment size, split and padded size, those of one rank on the stage, every registered layer is present at every rank and, page-first, layer sets are equal or disjoint |
| Topology.SealDeterministic | pegaflow-core/src/instance.rs:418-532 | two topologies sealed from the same worker set are equal |
| Topology.LayerFirstSlotsInjective | pegaflow-core/src/instance.rs:197-215 | layer-first slots are in range and distinct for distinct (layer, rank) pairs |
| Topology.LayerFirstSlotsSurjective | pegaflow-core/src/instance.rs:197-215 | every layer-first slot belongs to a (layer, rank) pair |
| Topology.SlotIndexExactly | pegaflow-core/src/instance.rs:197-215 | a slot lookup fails exactly for a layer or rank out of range; otherwise quotient and remainder by the tp size are layer and rank, or page-first the layer's shard |
| Registration.InstanceContext.constructor | pegaflow-core/src/instance.rs:341-363 | a new instance has no device and no topology |
| Registration.InstanceContext.New | pegaflow-core/src/instance.rs:341-363 | an instance is refused exactly for a zero tp size or world size |
| Registration.InstanceContext.EnsureAccepting | pegaflow-core/src/instance.rs:382-404 | a duplicate device is reported before a sealed instance |
| Registration.InstanceContext.RegisterNewGpu | pegaflow-core/src/instance.rs:654-721 | a registration is refused before sealing exactly for a rank out of range, no layers, a known device, a sealed instance, a negative device or a device that does not come up; then it is accepted, sealing first if it completes the world; refused ones change nothing |
| Registration.ListWorkers | pegaflow-core/src/instance.rs:654-721 | the worker list handed to sealing holds exactly the registered workers |
| Registration.RunKeeps | pegaflow-core/src/instance.rs:654-721 | in every run the topology is present exactly when world_size devices are registered, and then it was sealed from exactly those workers |
| Registration.SealedForever | pegaflow-core/src/instance.rs:654-721 | once sealed, no later request changes anything |
| Registration.SealDecidedByWorkers | pegaflow-core/src/instance.rs:654-721 | whether a full world seals, and into what, depends on its worker set alone |
| Registration.RegistrationOrderIrrelevant | pegaflow-core/src/instance.rs:654-721 | two registration orders of the same workers end with the same topology, or both without one |
| InsertEntries.CanUseOrderedFastPath | pegaflow-core/src/offload.rs:87-94 | the fast path is chosen exactly when there is a layer and all layers share one hash list |
| InsertEntries.BuildOrdered | pegaflow-core/src/offload.rs:98-119 | one entry per hash position, carrying that position of every layer in layer order |
| InsertEntries.BuildHashed | pegaflow-core/src/offload.rs:122-139 | one entry per hash, carrying all its images in batch order |
| InsertEntries.BuildInsertEntries | pegaflow-core/src/offload.rs:70-85 | dispatches between the two, counts all blocks, and sums their padded sizes exactly as long as the sum fits u64 |
| InsertEntries.StoredBytesAdd | pegaflow-core/src/offload.rs:70-85 | the byte count adds up layer by layer, padded block size times number of blocks |
| InsertEntries.GroupFirst | pegaflow-core/src/offload.rs:122-139 | the first image of a hash group for a slot is the one at the first layer of that slot listing the hash, at its first position |
| InsertEntries.FastFirst | pegaflow-core/src/offload.rs:98-119 | the fast path offers first, for every hash and slot, what the batch read layer by layer stores first |
| InsertEntries.SlowFirst | pegaflow-core/src/offload.rs:122-139 | so does the hash-map path |
| InsertEntries.GroupedTriples | pegaflow-core/src/offload.rs:122-139 | the hash-map path yields every (hash, slot, block) triple as often as the batch contains it |
| InsertEntries.OrderedTriples | pegaflow-core/src/offload.rs:98-119 | so does the fast path |
| InsertEntries.OrderedRefinesGrouped | pegaflow-core/src/offload.rs:70-139 | with distinct hashes the fast path output is also a correct hash-map path output, layer order kept |
| InsertEntries.PathsOfferSameFirst | pegaflow-core/src/offload.rs:70-139 | even with repeated hashes both paths offer the same image first for every key and slot |
| Pipeline.OfferImages | pegaflow-core/src/storage/write_path.rs:240-256 | offering images stops at the completing one, with the effect of offering all of them |
| Pipeline.InsertPartialSlots | pegaflow-core/src/storage/write_path.rs:213-266 | images go to the inflight block of the key or a fresh one, which is sealed and leaves the map exactly when its last slot fills; a block of another slot count is left alone and the images are dropped |
| Pipeline.ProcessEntry | pegaflow-core/src/storage/write_path.rs:140-184 | an entry for a resident key, or for an inflight block of another slot count, changes nothing; otherwise the block is sealed exactly when its deliveries and the entry offer every slot, and holds the first of them |
| Pipeline.OrderedEntry | pegaflow-core/src/storage/write_path.rs:152-160 | the one-pass seal is the block of the entry's own deliveries |
| Pipeline.HandleEntry | pegaflow-core/src/storage/write_path.rs:140-184 | one entry keeps, for every key, what the batch so far has made of it |
| Pipeline.HandleEntries | pegaflow-core/src/storage/write_path.rs:140-184 | after all entries every key has its first seal built from a prefix of what it was offered, or has all of it pending |
| Pipeline.Publish | pegaflow-core/src/storage/read_cache.rs:60-65 | a resident key is never overwritten; another key gets its first seal that admission does not refuse |
| Pipeline.ProcessInsertBatch | pegaflow-core/src/storage/write_path.rs:127-207 | for every key: resident blocks stay; a block becomes resident exactly when its pending deliveries and the batch offer every slot, unless admission refuses it, and else keeps them pending; all blocks hold first deliveries |
| Pipeline.SealedIsFirst | pegaflow-core/src/storage/write_path.rs:127-207 | each slot of a sealed block is the first delivery for it among those the block was built from |
| Pipeline.FirstAtPrefix | pegaflow-core/src/storage/write_path.rs:127-207 | more deliveries never change which one a slot goes back to |
| Pipeline.IdleOutcome | pegaflow-core/src/storage/write_path.rs:127-207 | an empty batch leaves every key where it is |
| Transfer.BuildCopyDescs | pegaflow-core/src/gpu_worker.rs:403-465 | descriptors for every piece of every block in order with their total size, or an error exactly when a block index is out of range |
| Transfer.DescIsPiece | pegaflow-core/src/gpu_worker.rs:403-465 | every descriptor belongs to a piece of a block |
| Transfer.PieceHasDesc | pegaflow-core/src/gpu_worker.rs:403-465 | every piece of a block has a descriptor |
| Transfer.SaveImages | pegaflow-core/src/gpu_worker.rs:403-465 | after a consistent save batch the host image of every block equals its GPU image |
| Transfer.LoadImages | pegaflow-core/src/gpu_worker.rs:403-465 | after a consistent load batch the GPU image of every block equals its host image |
| Transfer.SaveFrame | pegaflow-core/src/gpu_worker.rs:403-465 | host bytes outside every descriptor keep their value |
| Transfer.LoadFrame | pegaflow-core/src/gpu_worker.rs:403-465 | GPU bytes outside every descriptor keep their value |
| SavePlan.SealedIsSound | pegaflow-core/src/instance.rs:418-532 | a topology sealed from accepted, uniformly padded registrations agrees with every worker on ids, piece sizes and page slices |
| SavePlan.ResolveOne | pegaflow-core/src/offload.rs:288-345 | a layer of a save resolves exactly when lengths match, the layer is known and on the device, the rank is valid and all block ids are in range, with the first failing check as the error |
| SavePlan.ResolveContexts | pegaflow-core/src/offload.rs:288-345 | a request resolves as a whole or not at all, skipping layers without blocks |
| SavePlan.FilterContexts | pegaflow-core/src/offload.rs:355-380 | exactly the blocks whose key is resident are dropped, then layers with nothing left |
| SavePlan.ContextsCarryFirst | pegaflow-core/src/offload.rs:288-345 | resolving keeps, for every layer and hash, which block the request lists first |
| SavePlan.ToSaveCarriesFirst | pegaflow-core/src/offload.rs:355-380 | filtering keeps it for blocks that are not resident and drops everything resident |
| SavePlan.ContextsCarry | pegaflow-core/src/offload.rs:288-345 | the contexts carry a hash for a slot exactly if a layer of the request fills that slot and lists it |
| SavePlan.AskedSlotRank | pegaflow-core/src/instance.rs:197-215 | layer-first, a request fills only slots whose number modulo the tp size is its rank |
| SavePlan.ToSaveCarries | pegaflow-core/src/offload.rs:355-380 | after filtering, exactly if moreover the block is not resident |
| Placement.AllocLayer | pegaflow-core/src/offload.rs:414-468 | a layer gets one padded buffer per block and segment, at the allocation itself blockwise and at i padded strides into it pooled, exactly when the size fits usize and all its allocations are granted |
| Placement.PlacedFootprint | pegaflow-core/src/offload.rs:414-468 | a placed block takes up its padded block size |
| Placement.LayerPlanSized | pegaflow-core/src/offload.rs:556-597 | layer-first, every stored block takes up the bytes its save layer is accounted for with |
| Placement.PagePlanSized | pegaflow-core/src/offload.rs:555-597 | page-first likewise |
| Placement.PlanLayerFirst | pegaflow-core/src/offload.rs:413-490 | layer-first placement succeeds exactly when every allocation is granted |
| Placement.LayerPlanGood | pegaflow-core/src/offload.rs:413-490 | it writes only fresh memory, never the same byte twice, and every stored slot can be found again |
| Placement.CheckPageContexts | pegaflow-core/src/offload.rs:170-188 | page-first contexts pass exactly when unsplit, of one shard and with one block list |
| Placement.PlanPageFirst | pegaflow-core/src/offload.rs:151-251 | page-first placement succeeds exactly when the contexts pass, the layer count matches the shard, the page is nonempty and pages are granted |
| Placement.AcceptedSaveCoversShard | pegaflow-core/src/offload.rs:190-210 | a save whose layer count matches names exactly the layers of the shard |
| Placement.PageWritesConsistent | pegaflow-core/src/offload.rs:225-249 | page-first writes that meet are the same write, so every slice is written by its own layer |
| Placement.PagePlanGood | pegaflow-core/src/offload.rs:151-251 | page-first placement writes only fresh memory inside each layer's slice, and every layer of a stored page was written |
| Placement.PlaceBatch | pegaflow-core/src/offload.rs:389-490 | placement succeeds exactly when all allocations are granted and, page-first, the contexts pass; either placement is good and sized, hands the store a hash for a slot exactly if a pending context carries it, and stores first, layer by layer, what the contexts carry first |
| Placement.LayerPlanFirst | pegaflow-core/src/offload.rs:556-597 | layer-first: what is stored first for a slot and hash is the block the layer's contexts carry first |
| Placement.PagePlanFirst | pegaflow-core/src/offload.rs:556-597 | page-first: the page stored first for a hash holds, in every layer's slice, the block that layer's contexts carry first |
| Placement.LayerPlanExact | pegaflow-core/src/offload.rs:556-597 | layer-first hands over exactly what the contexts carry |
| Placement.PagePlanExact | pegaflow-core/src/offload.rs:556-597 | page-first hands over exactly what the contexts carry |
| SaveLoad.DeliveryOrigin | pegaflow-core/src/offload.rs:553-604 | every image handed to the store is one block of one saved layer |
| SaveLoad.LayerDelivered | pegaflow-core/src/offload.rs:553-604 | every block of every saved layer is handed to the store |
| SaveLoad.FirstInStream | pegaflow-core/src/storage/write_path.rs:127-207 | the first delivery for a key and slot is the one its stream goes back to |
| SaveLoad.BuiltFirst | pegaflow-core/src/offload.rs:70-139 | whichever grouping ran, the first delivery of a batch for a key and slot is what the batch stores first |
| SaveLoad.GoodWritesFree | pegaflow-core/src/offload.rs:389-490 | a good plan writes no live byte, and stays good when other bytes become live |
| SaveLoad.CopyDone | pegaflow-core/src/offload.rs:493-515 | after the copy the host image of every planned block equals its GPU image |
| SaveLoad.CopyKeeps | pegaflow-core/src/offload.rs:493-515 | the copy changes no byte outside the plan |
| SaveLoad.CopiedFrame | pegaflow-core/src/offload.rs:493-515 | writes outside the plan do not undo the copy |
| SaveLoad.BackedIsKept | pegaflow-core/src/offload.rs:493-604 | a stored layer holds the GPU bytes of its block and occupies only bytes the plan wrote |
| SaveLoad.DeliveriesKept | pegaflow-core/src/offload.rs:493-604 | every delivery of a copied save is in host memory, carries for every layer GPU bytes of a block asked for under its hash, and occupies only bytes the save wrote |
| SaveLoad.FirstDeliveryOrigin | pegaflow-core/src/offload.rs:262-604 | a save delivers a slot of a key exactly if the key was not resident when it was planned and the request fills the slot under that hash; the first such delivery carries, for every layer of the slot, the GPU bytes of the block the request lists first, in both placements |
| Ledger.DropKeeps | pegaflow-core/src/storage/mod.rs:447-502 | dropping blocks, loans or saves under way never invalidates what is still held |
| Ledger.ReserveKeeps | pegaflow-core/src/offload.rs:389-490 | a save planned in free memory claims bytes no held block and no other save uses |
| Ledger.CopyFrame | pegaflow-core/src/offload.rs:493-515 | the copy of one save leaves the bytes of all held blocks and of all other saves alone |
| Ledger.InsertKeeps | pegaflow-core/src/offload.rs:520-604 | inserting a copied save, whatever happened since it was planned, leaves every held block with the bytes of its first deliveries and all saves under way apart |
| Ledger.HeldKept | pegaflow-core/src/storage/read_cache.rs:36-51 | a resident or lent block has, slot by slot and layer by layer, the bytes of the first deliveries it was built from |
| Phases.CopyToHost | pegaflow-core/src/gpu_worker.rs:525-571 | describe, coalesce and copy leave the host as the plain list of copies would |
| Phases.Prepare | pegaflow-core/src/offload.rs:280-490 | a rank or stage that is not the worker's own is refused; otherwise phases 0 to 2 accept exactly the saveable requests, and the plan is good, exact and stores first what was asked first |
| Phases.SaveableExactly | pegaflow-core/src/offload.rs:280-490 | acceptance in full: the worker's own rank and stage, every layer known, on the device, with one hash per block and blocks in range, and memory for what is not resident |
| Phases.RankRecorded | pegaflow-core/src/instance.rs:620-640 | layer-first, every slot an accepted save delivers is, modulo the tp size, the worker's own rank |
| Phases.PrepareTicket | pegaflow-core/src/offload.rs:280-490 | likewise, and a prepared save claims only free bytes |
| Phases.BeginSave | pegaflow-core/src/offload.rs:280-490 | an accepted save is entered as under way; a refused or empty one changes nothing, and a foreign rank or stage is always refused |
| Phases.CopyPlan | pegaflow-core/src/offload.rs:493-515 | phase 3 copies every block and writes nothing else |
| Phases.CopySave | pegaflow-core/src/offload.rs:493-515 | phase 3 keeps the bytes of held blocks and of other saves under way |
| Phases.GroupPlan | pegaflow-core/src/offload.rs:520-604 | the copied blocks, grouped, are all in host memory and in slot range |
| Phases.InsertPlan | pegaflow-core/src/offload.rs:520-604 | phase 4 settles every key and records, for every key and slot, whether and with which GPU bytes the save delivered it, layer-first only in slots of the worker's own rank |
| Phases.IdleSave | pegaflow-core/src/offload.rs:385-387 | a save whose blocks are all resident changes nothing |
| Phases.FinishSave | pegaflow-core/src/offload.rs:493-604 | phases 3 and 4 back to back |
| Phases.SettleSave | pegaflow-core/src/offload.rs:385-604 | an accepted save with nothing left, or copied and inserted |
| Phases.RunSave | pegaflow-core/src/offload.rs:262-606 | all phases with nothing in between: refused without a trace, always so for a foreign rank or stage, or settled |
| LoadPath.CollectTargets | pegaflow-core/src/lib.rs:672-697 | a load is refused exactly when block and id counts differ or a block has another slot count |
| LoadPath.ConsumeFitting | pegaflow-core/src/lib.rs:667-693 | one lease is consumed and its blocks checked; it is spent even if they do not fit |
| LoadPath.CollectLeased | pegaflow-core/src/lib.rs:663-697 | a load stops at the first lease that is refused or does not fit, which is spent together with those before it; otherwise all leases are consumed in order and their blocks collected |
| LoadPath.SeparateRegionsApart | pegaflow-core/src/layout.rs:132-139 | layers in separate regions have no block in common |
| LoadPath.FusedLayersApart | pegaflow-core/src/layout.rs:132-139 | layers interleaved in one fused buffer have no block in common either, although their regions overlap |
| LoadPath.BuildLoad | pegaflow-core/src/lib.rs:699-745 | one transfer per layer at its slot and page offset, exactly when all layers resolve; the missing-slot error never fires |
| LoadPath.LoadRestores | pegaflow-core/src/lib.rs:699-745 | a load into distinct blocks leaves on the GPU exactly the image the host keeps, also in fused buffers |
| LoadPath.LoadKeepsOutside | pegaflow-core/src/lib.rs:699-745 | a load changes no GPU byte outside its blocks |
| Engine.SealedInstanceServes | pegaflow-core/src/instance.rs:654-721 | whatever the registration order, a sealed instance has a topology the engine can serve for all its workers |
| Engine.CopyToDevice | pegaflow-core/src/gpu_worker.rs:470-520 | the same towards the device; an index out of range stops it before any copy |
| Engine.Store.constructor | pegaflow-core/src/lib.rs:142-187 | a new store holds nothing |
| Engine.Store.Begin | pegaflow-core/src/offload.rs:280-490 | a foreign rank or stage is refused; otherwise a save is accepted exactly when saveable, and then its memory is reserved; a refused one changes nothing |
| Engine.Store.Copy | pegaflow-core/src/offload.rs:493-515 | a planned save is copied at any later time without touching held blocks or other saves |
| Engine.Store.Insert | pegaflow-core/src/offload.rs:520-604 | a copied save is inserted at any later time: late duplicates are dropped, every key is settled, and every image added holds the GPU bytes of the request, the first one those of the block listed first |
| Engine.Store.Abandon | pegaflow-core/src/offload.rs:493-500 | a save that failed gives its memory back and changes nothing else |
| Engine.Store.Evict | pegaflow-core/src/storage/read_cache.rs:80-85 | evicted blocks leave the cache; everything still held keeps its bytes |
| Engine.Store.CollectStale | pegaflow-core/src/storage/write_path.rs:302-332 | stale inflight blocks are dropped; everything still held keeps its bytes |
| Engine.Store.Lend | pegaflow-core/src/storage/read_cache.rs:36-51 | a resident block is handed out and stays readable even if it is evicted |
| Engine.Store.Return | pegaflow-core/src/lease.rs:136-139 | a block handed back is no longer kept |
| Engine.Store.Save | pegaflow-core/src/offload.rs:262-606 | a foreign rank or stage is refused; otherwise a save is accepted exactly when saveable; a refused one changes nothing; an accepted one settles every key and delivers every slot exactly as asked, first delivery from the block listed first, layer-first only in slots of its own rank |
| Engine.Store.LoadBlocks | pegaflow-core/src/lib.rs:648-758 | a load is accepted exactly when loadable; a refused one leaves the GPU alone; an accepted one into distinct blocks restores for every layer and block the bytes of the first delivery the block was built from, and no other GPU byte changes |
| Engine.LoadableExactly | pegaflow-core/src/lib.rs:648-758 | a load goes through exactly when counts and slot counts match, every layer is known and on the device, the rank exists and every layer has every named block |
| RoundTrip.PrefixBlocks | pegaflow-core/src/storage/read_cache.rs:36-51 | the blocks of the longest prefix of keys that are all resident |
| RoundTrip.HitExactly | pegaflow-core/src/storage/write_path.rs:127-207 | after a save a block is resident exactly if it was before, or every slot of it was pending or asked for by the request |
| RoundTrip.ResidentArrives | pegaflow-core/src/storage/write_path.rs:127-207 | the bytes a block has after a save: what it held or had pending, else the GPU bytes of the block the request lists first under its hash |
| RoundTrip.LoadKeys | pegaflow-core/src/lib.rs:648-758 | look up and load: a hit exactly if all keys are resident and the destination has the layers and blocks; a miss loads nothing |
| RoundTrip.SaveThenLoad | pegaflow-core/src/offload.rs:262-606 | save from one device, look up, load on another: exactly when that goes through, exactly which bytes arrive in every loaded block, and that no other byte of the destination changes |
| MetaStore.BlockHashStore.constructor | pegaflow-metaserver/src/store.rs:124-131 | an empty store |
| MetaStore.BlockHashStore.Heartbeat | pegaflow-metaserver/src/store.rs:144-178 | registers, renews or takes over a node; refuses exactly a foreign session while the holder was seen within the stale window |
| MetaStore.BlockHashStore.TouchSession | pegaflow-metaserver/src/store.rs:385-402 | a write needs the current session; an unknown node and a known node with another session give different errors |
| MetaStore.BlockHashStore.Unregister | pegaflow-metaserver/src/store.rs:180-200 | drops the node and every record of its session, returning how many records went; unknown nodes and foreign sessions change nothing |
| MetaStore.BlockHashStore.InsertHashes | pegaflow-metaserver/src/store.rs:202-223 | records the node as owner of exactly the given keys, touching first, recording at a later clock reading |
| MetaStore.BlockHashStore.RemoveHashes | pegaflow-metaserver/src/store.rs:225-253 | drops exactly the session's own records of the given keys and the keys left without owner, and counts them |
| MetaStore.BlockHashStore.QueryPrefix | pegaflow-metaserver/src/store.rs:256-286 | the longest prefix of hashes with a live owner, each with all its live owners |
| MetaStore.BlockHashStore.SweepExpired | pegaflow-metaserver/src/store.rs:290-336 | the sweep keeps what is within the TTL; its snapshot counts what queries on the swept store would show, its stats are the drops in owners, keys and nodes |
| MetaStore.DropKey | pegaflow-metaserver/src/store.rs:234-251 | one key of a removal: the session's own record goes, and the key if nobody is left |
| MetaStore.RemoveNodeOwners | pegaflow-metaserver/src/store.rs:404-417 | the walk over all keys drops exactly one session's records |
| MetaStore.RetainOwners | pegaflow-metaserver/src/store.rs:296-305 | the owners of a key within the TTL and the number of them that are visible |
| MetaStore.RetainBlocks | pegaflow-metaserver/src/store.rs:295-313 | the block walk of a sweep, with exact owner, key and redundancy counts |
| MetaStore.RetainNodes | pegaflow-metaserver/src/store.rs:315-328 | nodes silent for longer than the TTL are dropped |
| MetaStore.SnapshotAdd | pegaflow-metaserver/src/store.rs:62-73 | recording one key keeps the buckets and the copy count exact |
| MetaStore.SweepExact | pegaflow-metaserver/src/store.rs:290-336 | exactly the owners with own age and node age within the TTL remain, exactly the nodes seen within it, every owner has its node, every key an owner, and a second sweep at that time changes nothing |
| MetaStore.RemovedCount | pegaflow-metaserver/src/store.rs:225-253 | a removal takes away exactly as many ownership records as it counts |
| MetaRuns.Execute | pegaflow-metaserver/src/store.rs:144-336 | each store method is one step of the run model |
| MetaRuns.SessionExclusion | pegaflow-metaserver/src/store.rs:144-253 | with TTL at least the stale window, after an accepted heartbeat, insert or remove every call of another session on that node within the window is refused and changes nothing, unless the holder unregisters |
| MetaRuns.ShortTtlBreaksExclusion | pegaflow-metaserver/src/lib.rs:126-132 | with a smaller TTL a sweep lets another session in early |
| MetaRuns.ExclusiveExactly | pegaflow-metaserver/src/lib.rs:126-132 | exclusion over all runs holds exactly when TTL is at least the stale window |
| MetaRuns.RecordOrigin | pegaflow-metaserver/src/store.rs:144-178 | every node record goes back to the accepted call that last renewed it |
| MetaRuns.HeartbeatRefusedExactly | pegaflow-metaserver/src/store.rs:144-178 | over every run a heartbeat is refused exactly when another session asserted itself within the stale window and has not unregistered |
| MetaRuns.OwnershipExact | pegaflow-metaserver/src/store.rs:180-253 | over every run a record is there exactly when an accepted insert wrote it and nothing replaced, removed, unregistered or expired it since |
| MetaRuns.KeysOwned | pegaflow-metaserver/src/store.rs:202-336 | in every run every stored key has an owner |
| MetaRuns.QueryExact | pegaflow-metaserver/src/store.rs:256-286 | a query names a node for a hash exactly when the node is fresh and an insert of its current session wrote the record and nothing has removed, unregistered, replaced or swept it since |
| MetaRaces.SoloIsAtomic | pegaflow-metaserver/src/store.rs:144-336 | a call whose lock scopes are not interrupted has the effect of its atomic step |
| MetaRaces.NoLostInsert | pegaflow-metaserver/src/store.rs:202-253 | in every interleaving of lock scopes a record disappears only through an admitted removal or unregister of its own session, an insert of its own node, or a sweep that found it expired |
| MetaRaces.CleanUpRace | pegaflow-metaserver/src/store.rs:237-250 | an interleaving in which the guarded clean-up keeps another node's fresh record that an unconditional one would lose |
| MetaQuery.CountEntry | pegaflow-metaserver/src/service.rs:271-279 | one entry bumps exactly the counters that have kept up, in u32 arithmetic |
| MetaQuery.CountPrefixes | pegaflow-metaserver/src/service.rs:267-279 | every named node ends with the number of leading entries that name it, for fewer than 2^32 entries |
| MetaQuery.TruncationHarmless | pegaflow-metaserver/src/service.rs:255-279 | cutting the list at the first hash nobody owns loses nothing |
| MetaQuery.QueryPrefixBlocks | pegaflow-metaserver/src/service.rs:232-292 | the response lists exactly the live owners of the first hash, each with its own longest prefix of the full list; an empty request is an error |
| Hll.BucketIndex | pegaflow-common/src/hll.rs:108-116 | the shifted word is the number written by the first bucket bits of the stream |
| Hll.CountLeadingZeros | pegaflow-common/src/hll.rs:119-138 | the masked word and byte scan count the zeros after the index in the padded bit stream, and leave u8 exactly when that count exceeds 255 |
| Hll.RankOf | pegaflow-common/src/hll.rs:59-67 | the rank is computed exactly when it fits u8 |
| Hll.OverflowExactly | pegaflow-common/src/hll.rs:119-138 | no hash of a given length overflows exactly when the padded length less the bucket bits plus one is at most 255; 32 bytes always suffice |
| HllWindow.InsertHash | pegaflow-common/src/hll.rs:59-67 | insert raises exactly the hash's register to its rank, unless the rank overflows u8 |
| HllWindow.MergeInto | pegaflow-common/src/hll.rs:75-85 | merge is the element-wise maximum |
| HllWindow.AlignedExactly | pegaflow-common/src/hll.rs:281-289 | a new slot starts a whole number of slots after the last, not after now, fewer than 2^32 slots on, and a multiple of 2^32 slots behind now: it contains now exactly when the gap is under 2^32 slots |
| HllWindow.HllTracker.constructor | pegaflow-common/src/hll.rs:253-262 | an empty tracker |
| HllWindow.HllTracker.OpenSlot | pegaflow-common/src/hll.rs:270-297 | a slot opened on an empty ring starts now, any other a whole number of slots after the one before; the invariant keeps that for all slots ever opened |
| HllWindow.HllTracker.Record | pegaflow-common/src/hll.rs:270-300 | a request is added to the back slot, opening one exactly on an empty ring or when the back slot is over, now or on the grid of the slot before; exactly a hash whose rank overflows u8 is not recorded |
| HllWindow.GridOfRoot | pegaflow-common/src/hll.rs:264-297 | over every run a slot is on the grid of the last slot before it that was opened on an empty ring |
| HllWindow.GridOfFirst | pegaflow-common/src/hll.rs:264-297 | all slots are on the grid of the very first one, as the comment promises, exactly when every slot opened on an empty ring is |
| HllWindow.GridRestarts | pegaflow-common/src/hll.rs:264-297 | a run in which the ring empties and the second slot is off the first one's grid |
| HllWindow.LiveCountIsSize | pegaflow-common/src/hll.rs:312-335 | the reference count is the number of live requests |
| HllWindow.HllTracker.ExpireOldSlots | pegaflow-common/src/hll.rs:337-346 | after expiry every retained slot is younger than the window |
| HllWindow.HllTracker.EnsureMerged | pegaflow-common/src/hll.rs:350-360 | the cached merge equals the maximum ranks of all slots but the back one |
| HllWindow.HllTracker.ComputeMetric | pegaflow-common/src/hll.rs:312-335 | the registers it estimates from are, per bucket, the largest rank among the live requests, and the total counts exactly those |
| HllWindow.LiveIsRange | pegaflow-common/src/hll.rs:312-346 | reading the retained slots is the same as filtering all requests by age |
| HllWindow.LiveRankBounds | pegaflow-common/src/hll.rs:312-335 | the reference register is the maximum over the live requests, independent of order and repeats |
| HllWindow.WindowContract | pegaflow-common/src/hll.rs:264-300 | a request stops counting once it is as old as the window and counts while younger than the window less one slot |
| Sketch.NeverUnderReports | pegaflow-core/src/cache.rs:164-195 | over any run of accesses and agings the estimate is at least the ideal counter |
| Sketch.ExactWhenAlone | pegaflow-core/src/cache.rs:164-195 | it equals the ideal counter when some row holds the key alone |
| Sketch.IdealCounts | pegaflow-core/src/cache.rs:164-195 | between two agings the ideal counter is what was there plus the number of touches of the key, capped at 255; touches of other keys do not count |
| Sketch.IdealHalves | pegaflow-core/src/cache.rs:188-195 | an aging leaves the floor of half the count |
| Sketch.EstimateTouched | pegaflow-core/src/cache.rs:164-173 | a touch raises the key's estimate by one, capped at 255 |
| Sketch.EstimateHalved | pegaflow-core/src/cache.rs:188-195 | an aging halves every estimate |
| Sketch.AgedInNumbers | pegaflow-core/src/cache.rs:230-237 | in a sequential run every window_limit + 1-st increment first halves all counters, and then the key's own goes up by one, capped at 255 |
| Sketch.Estimator.constructor | pegaflow-core/src/cache.rs:149-162 | all counters start at zero |
| Sketch.Estimator.Incr | pegaflow-core/src/cache.rs:164-173 | every row counts the access; the result is the new estimate, one above the old or 255 |
| Sketch.Estimator.Get | pegaflow-core/src/cache.rs:176-185 | the smallest of the key's cells |
| Sketch.Estimator.Age | pegaflow-core/src/cache.rs:188-195 | every counter is halved, and with it every estimate |
| Sketch.TinyLfu.constructor | pegaflow-core/src/cache.rs:240-246 | a sketch with an empty window |
| Sketch.TinyLfu.Incr | pegaflow-core/src/cache.rs:230-237 | ages first when the window is full, then counts; the second reset condition never fires |
| Sketch.AgesOncePerWindow | pegaflow-core/src/cache.rs:230-237 | a sequential run ages exactly once per window_limit + 1 increments |
| Sketch.TinyLfuCache.constructor | pegaflow-core/src/cache.rs:43-56 | an empty cache |
| Sketch.TinyLfuCache.Get | pegaflow-core/src/cache.rs:59-67 | a hit returns the value, moves the key to the recent end leaving the others in their order, and counts one access |
| Sketch.WithoutKeepsOrder | pegaflow-core/src/cache.rs:59-67 | taking a key out of the recency order leaves the others in theirs |
| Sketch.TinyLfuCache.Insert | pegaflow-core/src/cache.rs:76-99 | a resident key is never overwritten; a new one is rejected exactly when its estimate is below the victim's |
| Sketch.TinyLfuCache.RemoveLru | pegaflow-core/src/cache.rs:101-103 | evicts the least recent entry |
| Sketch.RejectionIsEarned | pegaflow-core/src/cache.rs:76-99 | a candidate is rejected only for a victim really used more often, if some row holds the victim alone |
| Leases.QueryLeaseManager.constructor | pegaflow-core/src/lease.rs:66-83 | no leases |
| Leases.QueryLeaseManager.SweepExpired | pegaflow-core/src/lease.rs:179-185 | exactly the leases with expiry in the future stay |
| Leases.QueryLeaseManager.Create | pegaflow-core/src/lease.rs:85-103 | adds a lease for the given number of loads, one if that is zero, for 600 seconds from now |
| Leases.QueryLeaseManager.Consume | pegaflow-core/src/lease.rs:105-134 | the exact outcome and new lease table of a consume; a missing or expired token and a foreign instance are told apart |
| Leases.QueryLeaseManager.Release | pegaflow-core/src/lease.rs:136-139 | drops one lease and says whether it was live |
| Leases.QueryLeaseManager.ReleaseInstance | pegaflow-core/src/lease.rs:141-148 | drops exactly the leases of an instance |
| Leases.Execute | pegaflow-core/src/lease.rs:85-152 | each manager method is one step of the run model |
| Leases.RefusedConsumeHarmless | pegaflow-core/src/lease.rs:105-134 | a refused consume changes no unexpired lease |
| Leases.LeaseAccounted | pegaflow-core/src/lease.rs:85-152 | in every run a lease's remaining count plus its successful consumes is the number of consumers it was created for, one if that is zero, and a missing one is used up, 600 seconds old or released |
| Leases.ConsumeExactly | pegaflow-core/src/lease.rs:105-134 | over every run a consume succeeds exactly for the creating instance, less than 600 seconds after creation, unreleased and with fewer successes before than the consumers it was created for, one if that is zero; it returns the stored blocks |
| Leases.NeverOverdrawn | pegaflow-core/src/lease.rs:85-134 | a token never yields more successful consumes than the consumers it was created for, one if that is zero |
| CpuList.SplitJoin | pegaflow-common/src/numa.rs:131-140 | splitting undoes joining |
| CpuList.FormatCpuList | pegaflow-common/src/numa.rs:49-79 | prints the maximal consecutive runs in list order; the successor overflows exactly when an id before the last is the maximum |
| CpuList.RangesExpand | pegaflow-common/src/numa.rs:49-79 | expanding the runs gives back the list |
| CpuList.RangesMaximal | pegaflow-common/src/numa.rs:49-79 | no run goes on where the one before ends |
| CpuList.DecimalDigits | pegaflow-common/src/numa.rs:59-70 | an id is printed in digits, without leading zeros |
| CpuList.ParseSigned | pegaflow-common/src/numa.rs:138-160 | a number may carry a plus sign and nothing else |
| CpuList.ParseCpuList | pegaflow-common/src/numa.rs:131-167 | succeeds exactly for well-formed lists and returns the ids sorted and without repeats |
| CpuList.ParseUndoesFormat | pegaflow-common/src/numa.rs:49-167 | reading the printed form of any list yields that list, element by element |
| CpuList.RoundTrip | pegaflow-common/src/numa.rs:49-167 | printing and parsing returns the sorted, duplicate-free list; strictly increasing lists come back unchanged |
| Layout.FitExactContiguous | pegaflow-core/src/layout.rs:164-203 | all segments of a contiguous layout fit the region exactly when its span does |
| Layout.FitExactSplit | pegaflow-core/src/layout.rs:164-203 | all segments of a split layout fit the region exactly when its span does |
| Memory.GrowRun | pegaflow-core/src/transfer/memcpy.rs:28-56 | one coalesced run joins consecutive adjacent copies, as many as there are, without changing the effect |
| Blocks.InflightBlock.FilledCount | pegaflow-core/src/block.rs:382-384 | the number of slots that hold a block |
| PageLayout.DedupSets | pegaflow-core/src/instance.rs:88-143 | repeated layer sets are kept once |
| PageLayout.SortByKey | pegaflow-core/src/instance.rs:88-143 | sets are ordered by their least layer |
| PageLayout.ClaimLayers | pegaflow-core/src/instance.rs:88-143 | claiming fails exactly when two sets share a layer |
| PageLayout.FindUnowned | pegaflow-core/src/instance.rs:88-143 | finds a layer nobody claims exactly when there is one |
| PageLayout.PackPages | pegaflow-core/src/instance.rs:88-143 | packs each shard's layers one after another in id order |
| Topology.AddGeometry | pegaflow-core/src/instance.rs:418-532 | adding one worker's layers fails exactly on a conflict with what is recorded |
| Topology.ClaimCells | pegaflow-core/src/instance.rs:418-532 | one worker claims its grid cells, refusing a cell that another pipeline stage holds |
| Topology.AllCellsOwned | pegaflow-core/src/instance.rs:418-532 | the grid is full exactly when every cell is owned |
| Topology.PaddedSizes | pegaflow-core/src/instance.rs:418-532 | the padded size of every layer, by id |
| Topology.WorkerSets | pegaflow-core/src/instance.rs:418-532 | the set of layer ids of every worker |
| Topology.SealPages | pegaflow-core/src/instance.rs:418-532 | page-first sealing succeeds exactly when the workers' layer sets are equal or disjoint |
| InsertEntries.PushLayer | pegaflow-core/src/offload.rs:122-139 | pushing one layer extends every hash's group in order |
| InsertEntries.Drain | pegaflow-core/src/offload.rs:122-139 | draining the map yields one entry per hash with its whole group |
| Transfer.DescribeBlock | pegaflow-core/src/gpu_worker.rs:403-465 | one descriptor for a whole block, or one each for K and V, with V behind K in a block of one segment; the byte count, or the range error |
| Transfer.DescribeLayer | pegaflow-core/src/gpu_worker.rs:403-465 | the descriptors of one layer, or an error exactly when a block is out of range |
| SavePlan.KeepMissing | pegaflow-core/src/offload.rs:355-380 | the blocks of a layer whose key is not resident, in order |
| Placement.AllocPages | pegaflow-core/src/offload.rs:212-223 | one page per block, exactly when all are granted |
| Placement.SlicePages | pegaflow-core/src/offload.rs:225-249 | every block of a layer gets the layer's offset and size within the block's page |
| Engine.LendBlock | pegaflow-core/src/storage/read_cache.rs:36-51 | a lookup that keeps a reference, exactly when the key is resident |
| Engine.FetchBlocks | pegaflow-core/src/lib.rs:699-758 | building and running the transfers restores every block and touches nothing else |
| HllWindow.BumpSlot | pegaflow-common/src/hll.rs:297-300 | adding a request to a slot keeps its registers and count right, and fails exactly when the rank overflows u8 |
| HllWindow.BumpBack | pegaflow-common/src/hll.rs:297-300 | adding a request to the back slot keeps all slots and the cached merge right; an overflowing rank changes nothing |
| HllWindow.MergeSlots | pegaflow-common/src/hll.rs:350-360 | merging slots from scratch gives the maximum ranks of their requests |
| HllWindow.HllTracker.RecordInBack | pegaflow-common/src/hll.rs:297-300 | a request is logged in the back slot, exactly when its rank fits u8 |
| HllWindow.HllTracker.TotalRequests | pegaflow-common/src/hll.rs:321 | the slot counters add up to the requests of the retained slots |
| HllWindow.HllTracker.UnionWithBack | pegaflow-common/src/hll.rs:141-149 | cached merge and back slot together give the maximum ranks of all retained slots |
| Sketch.Estimator.AgeRow | pegaflow-core/src/cache.rs:188-195 | every counter of a row is halved, the other rows are left alone |
| CpuList.Flush | pegaflow-common/src/numa.rs:59-70 | a run is printed as one id, or as its two ends with a dash |
| CpuList.SortAscending | pegaflow-common/src/numa.rs:163 | the sorted permutation |
| CpuList.Dedup | pegaflow-common/src/numa.rs:164 | repeats are dropped, nothing else |
| CpuList.SortDistinct | pegaflow-common/src/numa.rs:163-164 | the strictly increasing list of the same ids |
| CpuList.ReadPart | pegaflow-common/src/numa.rs:138-160 | a part is an id or a range of two ids; anything else is an error |
| CpuList.CollectRange | pegaflow-common/src/numa.rs:151-153 | all ids of an inclusive range, none when its ends are out of order |

## Left out

- Pinned memory pools, CUDA and Ascend calls, streams, worker threads and channels: a copy is a byte copy, and each phase of a save is one step.
- The allocator: it is assumed to grant memory that is inside the pool, granted once, and outside the bytes that held blocks and saves under way occupy (`AllocatorSound` in `Phases`).
- Engine.Store.Insert: which seals admission refuses is a parameter, and so are the keys that Evict and CollectStale drop; the cache order and the sketch that decide them are modelled on their own in `Sketch`, the ages of inflight blocks are not.
- Engine.Store.Save: takes for granted that the registered regions lie in device memory and that SSD padding is the same for all layers; the padded block size and the page size are not checked against usize overflow.
- Engine.Store.LoadBlocks: restores contents only for pairwise distinct destination blocks of layers whose blocks do not meet on the device, because the order of copies within a batch is not fixed.
- Engine.Store.LoadBlocks: takes for granted that a leased block with this instance's slot count was stored under this topology; the source checks the slot count only, and instances of different layouts that share one namespace are not modelled.
- Engine.Store.LoadBlocks: takes the blocks of the consumed leases as arguments; consuming them is `CollectLeased` in `LoadPath`.
- InsertEntries.BuildInsertEntries: says nothing about the byte count once the true sum exceeds u64.
- The registration of layouts by RPC, instance lookup, unregistration of instances and the transfer locks.
- The SSD tier, prefetching, RDMA and the MetaServer client.
- Save and load metrics, logging, tracing, gRPC, HTTP and command line wiring.
- Floating point: cardinality estimation, bias constants, hit rate and the sizing of the sketch; widths and depths are parameters.
- Sketch.Estimator.Incr: does not model concurrent increments; the compare-and-swap loop is one saturating increment.
- Sketch.TinyLfu.Incr: does not model concurrent increments of the window counter.
- Sketch.Estimator.Age: models the shift by one bit, the only shift in use.
- HllWindow.HllTracker.Record: treats a rank that overflows u8 as a request that is not recorded, where a build with overflow checks stops and one without wraps.
- CpuList.FormatCpuList: treats the overflow of the successor of the largest id as a failure, as a build with overflow checks does.
- Multi-window tracking, which runs one tracker per window.
- NUMA probing and thread pinning.
