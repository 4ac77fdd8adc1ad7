/**
 Where a save puts its bytes (pegaflow-core/src/offload.rs): one padded slot per
 block and layer, or one page per block holding a whole shard. Both placements
 are shown to be `Good`: they write only fresh memory, writes never disagree,
 and the stored image of every layer of a slot can be found again.
 */
module Placement {
  import opened Prelude
  import opened Blocks
  import opened InsertEntries
  import opened Memory
  import opened Topology
  import opened SavePlan
  import T = Transfer
  import L = Layout
  import P = PageLayout

  datatype Plan = Plan(transfers: seq<T.LayerTransfer>, layers: seq<SaveLayer>)

  /** The pinned pool: base address granted for allocation `a`, part `v` (K or V), of context `c`. */
  type Pool = (nat, nat, nat) -> Option<nat>

  // ---------------------------------------------------------------------------
  // What a placement must achieve
  // ---------------------------------------------------------------------------

  /** Layers whose bytes live in a slot. */
  predicate StoredIn(t: Topology, l: nat, slot: nat)
    requires SlotKnown(t)
  {
    l < t.NumLayers() && match t.page
      case Some(p) => p.layerShard[l] == slot
      case None => t.tpSize > 0 && slot / t.tpSize == l
  }

  lemma SlotStores(t: Topology, l: nat, rank: nat, slot: nat)
    requires SlotKnown(t) && SlotIndex(t, l, rank) == Ok(slot)
    ensures StoredIn(t, l, slot)
    ensures t.page.None? ==> forall k :: StoredIn(t, k, slot) ==> k == l
  {
    if t.page.None? { GridIndex(l, rank, t.NumLayers(), t.tpSize); }
  }

  /** Byte offset of a layer inside its slot. */
  function OffsetIn(t: Topology, l: nat): nat
    requires t.page.Some? ==> l < |t.page.value.layerOffsets|
  {
    if t.page.Some? then t.page.value.layerOffsets[l] else 0
  }

  /** The transfers copy exactly the blocks of the contexts into owned images. */
  ghost predicate CopiesContexts(ts: seq<T.LayerTransfer>, ctxs: seq<Ctx>) {
    && |ts| == |ctxs|
    && forall c :: 0 <= c < |ctxs| ==> CopiesContext(ts[c], ctxs[c])
  }

  ghost predicate CopiesContext(tr: T.LayerTransfer, ctx: Ctx) {
    && tr.layout == ctx.layout
    && |tr.blocks| == |ctx.blocks|
    && forall i :: 0 <= i < |ctx.blocks| ==>
         tr.blocks[i].blockIdx == ctx.blocks[i].0 && tr.blocks[i].block.Owned? && tr.blocks[i].block.Valid()
  }

  lemma ContextsReady(ts: seq<T.LayerTransfer>, ctxs: seq<Ctx>)
    requires CopiesContexts(ts, ctxs)
    requires forall c, i :: 0 <= c < |ctxs| && 0 <= i < |ctxs[c].blocks| ==>
      ctxs[c].blocks[i].0 < ctxs[c].layout.numBlocks
    ensures T.Ready(ts)
  {
    forall c | 0 <= c < |ts| ensures T.HostsValid(ts[c]) && T.InRange(ts[c]) {
      assert CopiesContext(ts[c], ctxs[c]);
    }
  }

  /** Host memory a descriptor writes. */
  function HostRange(c: CopyDesc): L.Range { L.Range(c.host, c.size) }

  predicate Contains(r: L.Range, a: nat) { r.addr <= a < r.addr + r.bytes }

  ghost predicate RangeFresh(r: L.Range, hostLen: nat, live: set<nat>) {
    r.addr + r.bytes <= hostLen && forall a :: Contains(r, a) ==> a !in live
  }

  ghost predicate WritesFresh(ts: seq<T.LayerTransfer>, hostLen: nat, live: set<nat>)
    requires T.Ready(ts)
  {
    forall t: nat, b: nat, p: nat :: T.IsPiece(ts, t, b, p) ==>
      RangeFresh(HostRange(T.DescAt(ts, t, b, p)), hostLen, live)
  }

  /** Two writes that meet are the same write. */
  ghost predicate WritesConsistent(ts: seq<T.LayerTransfer>)
    requires T.Ready(ts)
  {
    forall t: nat, b: nat, p: nat, t': nat, b': nat, p': nat
      {:trigger T.DescAt(ts, t, b, p), T.DescAt(ts, t', b', p')} ::
      T.IsPiece(ts, t, b, p) && T.IsPiece(ts, t', b', p')
      && L.Overlap(HostRange(T.DescAt(ts, t, b, p)), HostRange(T.DescAt(ts, t', b', p'))) ==>
        T.DescAt(ts, t, b, p) == T.DescAt(ts, t', b', p')
  }

  /** Block `i` of context `c` is what layer `l` stores for block `j` of save layer `s`. */
  ghost predicate Backs(plan: Plan, t: Topology, ctxs: seq<Ctx>, s: SaveLayer, j: nat, l: nat, c: nat, i: nat)
    requires t.page.Some? ==> l < |t.page.value.layerOffsets|
  {
    && c < |ctxs| && c < |plan.transfers| && i < |ctxs[c].blocks| && i < |plan.transfers[c].blocks|
    && plan.transfers[c].blocks[i].block.Owned? && plan.transfers[c].blocks[i].block.Valid()
    && j < |s.blocks| && j < |s.hashes| && s.blocks[j].segments != []
    && ctxs[c].id == l && ctxs[c].blocks[i].1 == s.hashes[j]
    && T.HostRanges(s.blocks[j], OffsetIn(t, l), T.PieceSizes(ctxs[c].layout))
       == T.HostRanges(plan.transfers[c].blocks[i].block.owned, 0, T.PieceSizes(ctxs[c].layout))
  }

  ghost predicate HasBacking(plan: Plan, t: Topology, ctxs: seq<Ctx>, s: SaveLayer, j: nat, l: nat)
    requires t.page.Some? ==> l < |t.page.value.layerOffsets|
  {
    exists c: nat, i: nat :: Backs(plan, t, ctxs, s, j, l, c, i)
  }

  /** Every layer of every stored slot was written by this plan. */
  ghost predicate StoresLayers(plan: Plan, t: Topology, ctxs: seq<Ctx>)
    requires SlotKnown(t) && (t.page.Some? ==> |t.page.value.layerOffsets| == t.NumLayers())
  {
    forall s, j: nat, l: nat :: s in plan.layers && j < |s.blocks| && StoredIn(t, l, s.slotId) ==>
      HasBacking(plan, t, ctxs, s, j, l)
  }

  ghost predicate Good(plan: Plan, t: Topology, shapes: seq<seq<nat>>, ctxs: seq<Ctx>, hostLen: nat, live: set<nat>) {
    && Sound(t, shapes)
    && CopiesContexts(plan.transfers, ctxs) && T.Ready(plan.transfers)
    && WritesFresh(plan.transfers, hostLen, live)
    && WritesConsistent(plan.transfers)
    && Parallel(plan.layers)
    && (forall s :: s in plan.layers ==> s.slotId < t.TotalSlots())
    && StoresLayers(plan, t, ctxs)
  }

  // ---------------------------------------------------------------------------
  // Layer-first placement
  // ---------------------------------------------------------------------------

  function Stride(ctx: Ctx): nat {
    if ctx.layout.IsSplit() then ctx.layout.paddedSegmentBytes else ctx.layout.PaddedBlockBytes()
  }

  function Parts(ctx: Ctx): nat { if ctx.layout.IsSplit() then 2 else 1 }

  function AllocCount(ctx: Ctx, blockwise: bool): nat { if blockwise then |ctx.blocks| else 1 }

  function BlocksPerAlloc(ctx: Ctx, blockwise: bool): nat { if blockwise then 1 else |ctx.blocks| }

  function AllocBytes(ctx: Ctx, blockwise: bool): nat { Stride(ctx) * BlocksPerAlloc(ctx, blockwise) }

  predicate IsAlloc(ctxs: seq<Ctx>, blockwise: bool, c: nat, a: nat, v: nat) {
    c < |ctxs| && a < AllocCount(ctxs[c], blockwise) && v < Parts(ctxs[c])
  }

  /** All of a context's allocations succeed. */
  ghost predicate CtxGranted(ctx: Ctx, blockwise: bool, pool: Pool, c: nat) {
    && AllocBytes(ctx, blockwise) <= U64_MAX
    && forall a: nat, v: nat :: a < AllocCount(ctx, blockwise) && v < Parts(ctx) ==> pool(c, a, v).Some?
  }

  ghost predicate Granted(ctxs: seq<Ctx>, blockwise: bool, pool: Pool) {
    forall c :: 0 <= c < |ctxs| ==> CtxGranted(ctxs[c], blockwise, pool, c)
  }

  function AllocRange(ctxs: seq<Ctx>, blockwise: bool, pool: Pool, c: nat, a: nat, v: nat): L.Range
    requires c < |ctxs| && pool(c, a, v).Some?
  {
    L.Range(pool(c, a, v).value, AllocBytes(ctxs[c], blockwise))
  }

  /** The pool hands out fresh, pairwise disjoint memory. */
  ghost predicate FreshAllocs(ctxs: seq<Ctx>, blockwise: bool, pool: Pool, hostLen: nat, live: set<nat>)
    requires Granted(ctxs, blockwise, pool)
  {
    && (forall c: nat, a: nat, v: nat :: IsAlloc(ctxs, blockwise, c, a, v) ==>
          RangeFresh(AllocRange(ctxs, blockwise, pool, c, a, v), hostLen, live))
    && (forall c: nat, a: nat, v: nat, c': nat, a': nat, v': nat
          {:trigger IsAlloc(ctxs, blockwise, c, a, v), IsAlloc(ctxs, blockwise, c', a', v')} ::
          IsAlloc(ctxs, blockwise, c, a, v) && IsAlloc(ctxs, blockwise, c', a', v') && (c, a, v) != (c', a', v') ==>
          !L.Overlap(AllocRange(ctxs, blockwise, pool, c, a, v), AllocRange(ctxs, blockwise, pool, c', a', v')))
  }

  /** Which allocation block `i` falls into, and where in it. */
  function AllocOf(blockwise: bool, i: nat): nat { if blockwise then i else 0 }

  function PlaceIn(ctx: Ctx, blockwise: bool, i: nat): nat { if blockwise then 0 else i * Stride(ctx) }

  function SegmentAt(ctx: Ctx, blockwise: bool, base: nat, i: nat): Segment {
    Segment(base + PlaceIn(ctx, blockwise, i), Stride(ctx))
  }

  /** The padded image of block `i`: one segment, or one each for K and V. */
  function RawAt(ctx: Ctx, blockwise: bool, pool: Pool, c: nat, i: nat): RawBlock
    requires forall v: nat :: v < Parts(ctx) ==> pool(c, AllocOf(blockwise, i), v).Some?
  {
    var a := AllocOf(blockwise, i);
    assert pool(c, a, 0).Some?;
    if ctx.layout.IsSplit() then
      RawBlock([SegmentAt(ctx, blockwise, pool(c, a, 0).value, i), SegmentAt(ctx, blockwise, pool(c, a, 1).value, i)])
    else
      RawBlock([SegmentAt(ctx, blockwise, pool(c, a, 0).value, i)])
  }

  ghost predicate RawsOf(raws: seq<RawBlock>, ctx: Ctx, blockwise: bool, pool: Pool, c: nat) {
    forall i :: 0 <= i < |raws| ==>
      && (forall v: nat :: v < Parts(ctx) ==> pool(c, AllocOf(blockwise, i), v).Some?)
      && raws[i] == RawAt(ctx, blockwise, pool, c, i)
  }

  /** Allocate and carve one layer's buffers, pooled per layer or per block. */
  method AllocLayer(ctx: Ctx, blockwise: bool, pool: Pool, c: nat) returns (r: Result<seq<RawBlock>, SaveError>)
    requires ctx.blocks != []
    ensures r.Ok? <==> CtxGranted(ctx, blockwise, pool, c)
    ensures r.Ok? ==> |r.value| == |ctx.blocks| && RawsOf(r.value, ctx, blockwise, pool, c)
    ensures r.Ok? <==>
      && (if ctx.layout.seg.Split? then ctx.layout.paddedSegmentBytes
          else ctx.layout.paddedSegmentBytes * ctx.layout.segments)
         * (if blockwise then 1 else |ctx.blocks|) <= 0xFFFF_FFFF_FFFF_FFFF
      && forall a: nat :: a < (if blockwise then |ctx.blocks| else 1) ==>
           pool(c, a, 0).Some? && (ctx.layout.seg.Split? ==> pool(c, a, 1).Some?)
    ensures r.Ok? ==> forall i :: 0 <= i < |ctx.blocks| ==>
      var a, bytes := if blockwise then i else 0,
                      if ctx.layout.seg.Split? then ctx.layout.paddedSegmentBytes
                      else ctx.layout.paddedSegmentBytes * ctx.layout.segments;
      var at := if blockwise then 0 else i * bytes;
      r.value[i].segments ==
        [Segment(pool(c, a, 0).value + at, bytes)]
        + (if ctx.layout.seg.Split? then [Segment(pool(c, a, 1).value + at, bytes)] else [])
  {
    if AllocBytes(ctx, blockwise) > U64_MAX {
      return Err(PoolExhausted);
    }
    var raws: seq<RawBlock> := [];
    for a := 0 to AllocCount(ctx, blockwise)
      invariant |raws| == (if blockwise then a else if a == 0 then 0 else |ctx.blocks|)
      invariant forall k: nat, v: nat :: k < a && v < Parts(ctx) ==> pool(c, k, v).Some?
      invariant RawsOf(raws, ctx, blockwise, pool, c)
    {
      var k, v := pool(c, a, 0), pool(c, a, 1);
      if k.None? || (ctx.layout.IsSplit() && v.None?) {
        return Err(PoolExhausted);
      }
      ghost var before := raws;
      for b := 0 to BlocksPerAlloc(ctx, blockwise)
        invariant |raws| == |before| + b
        invariant RawsOf(raws, ctx, blockwise, pool, c)
      {
        var i := |raws|;
        assert AllocOf(blockwise, i) == a;
        if ctx.layout.IsSplit() {
          raws := raws + [RawBlock([SegmentAt(ctx, blockwise, k.value, i), SegmentAt(ctx, blockwise, v.value, i)])];
        } else {
          raws := raws + [RawBlock([SegmentAt(ctx, blockwise, k.value, i)])];
        }
      }
    }
    r := Ok(raws);
  }

  /** A placed block takes up the padded block size that the slot is accounted for with. */
  lemma PlacedFootprint(ctx: Ctx, blockwise: bool, pool: Pool, c: nat, i: nat)
    requires L.Accepted(ctx.layout) && forall v: nat :: v < Parts(ctx) ==> pool(c, AllocOf(blockwise, i), v).Some?
    ensures RawAt(ctx, blockwise, pool, c, i).Footprint() == ctx.layout.paddedSegmentBytes * ctx.layout.segments
  {
    var segments := RawAt(ctx, blockwise, pool, c, i).segments;
    SizesAdd(segments[..1], segments[1..]);
    assert segments == segments[..1] + segments[1..];
    SizesAdd(segments[1..], []);
  }

  function TransferOf(ctx: Ctx, raws: seq<RawBlock>): (r: T.LayerTransfer)
    requires |raws| == |ctx.blocks|
    ensures r.layout == ctx.layout && |r.blocks| == |ctx.blocks|
    ensures forall i :: 0 <= i < |ctx.blocks| ==> r.blocks[i] == T.TransferBlock(ctx.blocks[i].0, T.Owned(raws[i]))
  {
    T.LayerTransfer(ctx.layout,
                    seq(|raws|, i requires 0 <= i < |raws| => T.TransferBlock(ctx.blocks[i].0, T.Owned(raws[i]))))
  }

  function HashList(ctx: Ctx): (r: seq<Hash>)
    ensures |r| == |ctx.blocks| && forall i :: 0 <= i < |r| ==> r[i] == ctx.blocks[i].1
  {
    seq(|ctx.blocks|, i requires 0 <= i < |ctx.blocks| => ctx.blocks[i].1)
  }

  function SaveLayerOf(ctx: Ctx, raws: seq<RawBlock>): SaveLayer {
    SaveLayer(ctx.slot, ctx.layout.PaddedBlockBytes(), raws, HashList(ctx))
  }

  ghost predicate PlansContext(tr: T.LayerTransfer, sl: SaveLayer, ctx: Ctx, blockwise: bool, pool: Pool, c: nat) {
    && |sl.blocks| == |ctx.blocks|
    && RawsOf(sl.blocks, ctx, blockwise, pool, c)
    && sl == SaveLayerOf(ctx, sl.blocks)
    && tr == TransferOf(ctx, sl.blocks)
  }

  /** The plan that stores every layer in its own padded slots. */
  ghost predicate IsLayerPlan(plan: Plan, ctxs: seq<Ctx>, blockwise: bool, pool: Pool) {
    && |plan.transfers| == |plan.layers| == |ctxs|
    && forall c :: 0 <= c < |ctxs| ==> PlansContext(plan.transfers[c], plan.layers[c], ctxs[c], blockwise, pool, c)
  }

  /** Every stored block takes up exactly the bytes its save layer is accounted for with. */
  ghost predicate Sized(layers: seq<SaveLayer>) {
    forall c, j :: 0 <= c < |layers| && 0 <= j < |layers[c].blocks| ==>
      layers[c].blocks[j].Footprint() == layers[c].paddedBlockSize
  }

  lemma LayerPlanSized(plan: Plan, ctxs: seq<Ctx>, blockwise: bool, pool: Pool)
    requires IsLayerPlan(plan, ctxs, blockwise, pool) && forall c :: 0 <= c < |ctxs| ==> L.Accepted(ctxs[c].layout)
    ensures Sized(plan.layers)
  {
    forall c, j | 0 <= c < |plan.layers| && 0 <= j < |plan.layers[c].blocks|
      ensures plan.layers[c].blocks[j].Footprint() == plan.layers[c].paddedBlockSize
    {
      assert PlansContext(plan.transfers[c], plan.layers[c], ctxs[c], blockwise, pool, c);
      PlacedFootprint(ctxs[c], blockwise, pool, c, j);
    }
  }

  method PlanLayerFirst(ctxs: seq<Ctx>, blockwise: bool, pool: Pool) returns (r: Result<Plan, SaveError>)
    requires forall c :: 0 <= c < |ctxs| ==> ctxs[c].blocks != []
    ensures r.Ok? <==> Granted(ctxs, blockwise, pool)
    ensures r.Ok? ==> IsLayerPlan(r.value, ctxs, blockwise, pool)
  {
    var transfers: seq<T.LayerTransfer>, layers: seq<SaveLayer> := [], [];
    for c := 0 to |ctxs|
      invariant |transfers| == |layers| == c
      invariant forall k :: 0 <= k < c ==> CtxGranted(ctxs[k], blockwise, pool, k)
      invariant forall k :: 0 <= k < c ==> PlansContext(transfers[k], layers[k], ctxs[k], blockwise, pool, k)
    {
      var raws := AllocLayer(ctxs[c], blockwise, pool, c);
      if raws.Err? {
        return Err(raws.error);
      }
      transfers := transfers + [TransferOf(ctxs[c], raws.value)];
      layers := layers + [SaveLayerOf(ctxs[c], raws.value)];
      assert PlansContext(transfers[c], layers[c], ctxs[c], blockwise, pool, c);
    }
    r := Ok(Plan(transfers, layers));
  }

  /** Slots fit their allocation, and slots of one allocation follow one another. */
  lemma SlotFits(ctx: Ctx, blockwise: bool, i: nat)
    requires i < |ctx.blocks|
    ensures PlaceIn(ctx, blockwise, i) + Stride(ctx) <= AllocBytes(ctx, blockwise)
  {
    if !blockwise {
      MulMonotone(i + 1, |ctx.blocks|, Stride(ctx));
      assert (i + 1) * Stride(ctx) == i * Stride(ctx) + Stride(ctx);
    }
  }

  lemma SlotsFollow(ctx: Ctx, i: nat, j: nat)
    requires i < j
    ensures PlaceIn(ctx, false, i) + Stride(ctx) <= PlaceIn(ctx, false, j)
  {
    MulMonotone(i + 1, j, Stride(ctx));
    assert (i + 1) * Stride(ctx) == i * Stride(ctx) + Stride(ctx);
  }

  /** A piece never exceeds the padded slot it is copied into. */
  lemma PieceFitsStride(ctx: Ctx, p: nat)
    requires L.Accepted(ctx.layout) && p < |T.PieceSizes(ctx.layout)|
    ensures p < Parts(ctx) && 0 < T.PieceSizes(ctx.layout)[p] <= Stride(ctx)
  {
    var l := ctx.layout;
    if !l.IsSplit() {
      MulMonotone(l.segmentBytes, l.paddedSegmentBytes, l.segments);
      MulMonotone(1, l.segments, l.segmentBytes);
    }
  }

  /** The host range of a piece lies inside its slot. */
  lemma LayerPiece(plan: Plan, ctxs: seq<Ctx>, blockwise: bool, pool: Pool, c: nat, i: nat, p: nat)
    requires IsLayerPlan(plan, ctxs, blockwise, pool) && T.Ready(plan.transfers) && T.IsPiece(plan.transfers, c, i, p)
    requires L.Accepted(ctxs[c].layout)
    ensures i < |ctxs[c].blocks| && p < Parts(ctxs[c]) && pool(c, AllocOf(blockwise, i), p).Some?
    ensures var d := T.DescAt(plan.transfers, c, i, p);
            && d.host == pool(c, AllocOf(blockwise, i), p).value + PlaceIn(ctxs[c], blockwise, i)
            && 0 < d.size <= Stride(ctxs[c])
  {
    PieceFitsStride(ctxs[c], p);
    assert PlansContext(plan.transfers[c], plan.layers[c], ctxs[c], blockwise, pool, c);
    assert plan.layers[c].blocks[i] == RawAt(ctxs[c], blockwise, pool, c, i);
  }

  lemma LayerWritesFresh(plan: Plan, ctxs: seq<Ctx>, blockwise: bool, pool: Pool, hostLen: nat, live: set<nat>)
    requires IsLayerPlan(plan, ctxs, blockwise, pool) && T.Ready(plan.transfers)
    requires forall c :: 0 <= c < |ctxs| ==> L.Accepted(ctxs[c].layout)
    requires Granted(ctxs, blockwise, pool) && FreshAllocs(ctxs, blockwise, pool, hostLen, live)
    ensures WritesFresh(plan.transfers, hostLen, live)
  {
    forall c: nat, i: nat, p: nat | T.IsPiece(plan.transfers, c, i, p)
      ensures RangeFresh(HostRange(T.DescAt(plan.transfers, c, i, p)), hostLen, live)
    {
      LayerPiece(plan, ctxs, blockwise, pool, c, i, p);
      SlotFits(ctxs[c], blockwise, i);
      var a := AllocOf(blockwise, i);
      assert IsAlloc(ctxs, blockwise, c, a, p);
      var whole, part := AllocRange(ctxs, blockwise, pool, c, a, p), HostRange(T.DescAt(plan.transfers, c, i, p));
      assert forall x :: Contains(part, x) ==> Contains(whole, x);
    }
  }

  lemma LayerWritesApart(plan: Plan, ctxs: seq<Ctx>, blockwise: bool, pool: Pool, hostLen: nat, live: set<nat>,
                         c: nat, i: nat, p: nat, c': nat, i': nat, p': nat)
    requires IsLayerPlan(plan, ctxs, blockwise, pool) && T.Ready(plan.transfers)
    requires forall c :: 0 <= c < |ctxs| ==> L.Accepted(ctxs[c].layout)
    requires Granted(ctxs, blockwise, pool) && FreshAllocs(ctxs, blockwise, pool, hostLen, live)
    requires T.IsPiece(plan.transfers, c, i, p) && T.IsPiece(plan.transfers, c', i', p') && (c, i, p) != (c', i', p')
    ensures !L.Overlap(HostRange(T.DescAt(plan.transfers, c, i, p)), HostRange(T.DescAt(plan.transfers, c', i', p')))
  {
    LayerPiece(plan, ctxs, blockwise, pool, c, i, p);
    LayerPiece(plan, ctxs, blockwise, pool, c', i', p');
    SlotFits(ctxs[c], blockwise, i);
    SlotFits(ctxs[c'], blockwise, i');
    var a, a' := AllocOf(blockwise, i), AllocOf(blockwise, i');
    assert IsAlloc(ctxs, blockwise, c, a, p) && IsAlloc(ctxs, blockwise, c', a', p');
    if (c, a, p) != (c', a', p') {
      assert !L.Overlap(AllocRange(ctxs, blockwise, pool, c, a, p), AllocRange(ctxs, blockwise, pool, c', a', p'));
    } else if i < i' {
      SlotsFollow(ctxs[c], i, i');
    } else {
      SlotsFollow(ctxs[c], i', i);
    }
  }

  lemma LayerPlanStores(plan: Plan, t: Topology, shapes: seq<seq<nat>>, w: Worker, tpRank: nat, ctxs: seq<Ctx>,
                        blockwise: bool, pool: Pool)
    requires IsLayerPlan(plan, ctxs, blockwise, pool) && t.page.None? && AllSound(t, shapes, w, tpRank, ctxs)
    ensures StoresLayers(plan, t, ctxs)
  {
    forall s, j: nat, l: nat | s in plan.layers && j < |s.blocks| && StoredIn(t, l, s.slotId)
      ensures HasBacking(plan, t, ctxs, s, j, l)
    {
      var c :| 0 <= c < |plan.layers| && plan.layers[c] == s;
      assert PlansContext(plan.transfers[c], s, ctxs[c], blockwise, pool, c) && CtxSound(t, shapes, w, tpRank, ctxs[c]);
      SlotStores(t, ctxs[c].id, tpRank, ctxs[c].slot);
      assert s.blocks[j] == RawAt(ctxs[c], blockwise, pool, c, j);
      assert Backs(plan, t, ctxs, s, j, l, c, j);
    }
  }

  lemma SlotBelowTotal(t: Topology, shapes: seq<seq<nat>>, l: nat, rank: nat, slot: nat)
    requires Sound(t, shapes) && SlotIndex(t, l, rank) == Ok(slot)
    ensures slot < t.TotalSlots()
  {
    if t.page.None? { GridIndex(l, rank, t.NumLayers(), t.tpSize); }
  }

  /** The layer-first placement is good. */
  lemma LayerPlanGood(plan: Plan, t: Topology, shapes: seq<seq<nat>>, w: Worker, tpRank: nat, ctxs: seq<Ctx>,
                      blockwise: bool, pool: Pool, hostLen: nat, live: set<nat>)
    requires Sound(t, shapes) && t.page.None? && AllSound(t, shapes, w, tpRank, ctxs)
    requires IsLayerPlan(plan, ctxs, blockwise, pool)
    requires Granted(ctxs, blockwise, pool) && FreshAllocs(ctxs, blockwise, pool, hostLen, live)
    ensures Good(plan, t, shapes, ctxs, hostLen, live)
  {
    forall c | 0 <= c < |ctxs|
      ensures CopiesContext(plan.transfers[c], ctxs[c]) && L.Accepted(ctxs[c].layout)
      ensures |plan.layers[c].blocks| == |plan.layers[c].hashes| && plan.layers[c].slotId < t.TotalSlots()
    {
      assert PlansContext(plan.transfers[c], plan.layers[c], ctxs[c], blockwise, pool, c);
      assert CtxSound(t, shapes, w, tpRank, ctxs[c]);
      SlotBelowTotal(t, shapes, ctxs[c].id, tpRank, ctxs[c].slot);
    }
    ContextsReady(plan.transfers, ctxs);
    LayerWritesFresh(plan, ctxs, blockwise, pool, hostLen, live);
    LayerPlanStores(plan, t, shapes, w, tpRank, ctxs, blockwise, pool);
    var ts := plan.transfers;
    forall c: nat, i: nat, p: nat, c': nat, i': nat, p' : nat | T.IsPiece(ts, c, i, p) && T.IsPiece(ts, c', i', p')
      && L.Overlap(HostRange(T.DescAt(ts, c, i, p)), HostRange(T.DescAt(ts, c', i', p')))
      ensures T.DescAt(ts, c, i, p) == T.DescAt(ts, c', i', p')
    {
      if (c, i, p) != (c', i', p') {
        LayerWritesApart(plan, ctxs, blockwise, pool, hostLen, live, c, i, p, c', i', p');
      }
    }
  }

  // ---------------------------------------------------------------------------
  // Page-first placement
  // ---------------------------------------------------------------------------

  function ShardLayers(t: Topology, shard: nat): set<nat>
    requires t.page.Some?
  {
    set l | 0 <= l < |t.page.value.layerShard| && t.page.value.layerShard[l] == shard
  }

  function IdsIn(ctxs: seq<Ctx>): set<nat> { set ctx | ctx in ctxs :: ctx.id }

  /** The checks on the contexts: whole blocks, one shard, one block list. */
  predicate FitsPage(ctx: Ctx, reference: Ctx) {
    !ctx.layout.IsSplit() && ctx.slot == reference.slot && ctx.blocks == reference.blocks
  }

  predicate PageAcceptable(t: Topology, ctxs: seq<Ctx>)
    requires t.page.Some? && ctxs != [] && ctxs[0].slot < |t.page.value.shardPageSizes|
  {
    && (forall c :: 0 <= c < |ctxs| ==> FitsPage(ctxs[c], ctxs[0]))
    && |IdsIn(ctxs)| == |ShardLayers(t, ctxs[0].slot)|
    && t.page.value.shardPageSizes[ctxs[0].slot] > 0
  }

  function PageAt(pool: Pool, i: nat, size: nat): RawBlock
    requires pool(0, i, 0).Some?
  {
    RawBlock([Segment(pool(0, i, 0).value, size)])
  }

  /** A layer's slice of page `i`. */
  function SliceOf(p: P.PageLayout, pool: Pool, i: nat, l: nat): RawBlock
    requires pool(0, i, 0).Some? && l < |p.layerOffsets| && l < |p.layerBytes|
  {
    RawBlock([Segment(pool(0, i, 0).value + p.layerOffsets[l], p.layerBytes[l])])
  }

  ghost predicate PagesGranted(pool: Pool, n: nat) {
    forall i: nat :: i < n ==> pool(0, i, 0).Some?
  }

  ghost predicate FreshPages(pool: Pool, n: nat, size: nat, hostLen: nat, live: set<nat>)
    requires PagesGranted(pool, n)
  {
    && (forall i: nat :: i < n ==> RangeFresh(L.Range(pool(0, i, 0).value, size), hostLen, live))
    && (forall i: nat,
        j: nat :: i < j < n ==> !L.Overlap(L.Range(pool(0, i, 0).value, size), L.Range(pool(0, j, 0).value, size)))
  }

  ghost predicate SlicesFor(tr: T.LayerTransfer, p: P.PageLayout, ctx: Ctx, pool: Pool) {
    && ctx.id < |p.layerOffsets| && ctx.id < |p.layerBytes| && PagesGranted(pool, |ctx.blocks|)
    && tr.layout == ctx.layout && |tr.blocks| == |ctx.blocks|
    && forall i :: 0 <= i < |ctx.blocks| ==>
         tr.blocks[i] == T.TransferBlock(ctx.blocks[i].0, T.Owned(SliceOf(p, pool, i, ctx.id)))
  }

  /** The plan that stores a shard's layers in one page per block. */
  ghost predicate IsPagePlan(plan: Plan, t: Topology, ctxs: seq<Ctx>, pool: Pool)
    requires t.page.Some? && ctxs != [] && ctxs[0].slot < |t.page.value.shardPageSizes|
  {
    var p := t.page.value;
    var n, size := |ctxs[0].blocks|, p.shardPageSizes[ctxs[0].slot];
    && PagesGranted(pool, n)
    && |plan.transfers| == |ctxs|
    && (forall c :: 0 <= c < |ctxs| ==> SlicesFor(plan.transfers[c], p, ctxs[c], pool))
    && |plan.layers| == 1
    && plan.layers[0] == SaveLayer(ctxs[0].slot, size, plan.layers[0].blocks, HashList(ctxs[0]))
    && |plan.layers[0].blocks| == n
    && forall i :: 0 <= i < n ==> plan.layers[0].blocks[i] == PageAt(pool, i, size)
  }

  /** Check the contexts one after another, collecting their layer ids. */
  method CheckPageContexts(ctxs: seq<Ctx>) returns (r: Result<set<nat>, SaveError>)
    requires ctxs != []
    ensures r.Ok? <==> forall c :: 0 <= c < |ctxs| ==> FitsPage(ctxs[c], ctxs[0])
    ensures r.Ok? <==> forall c :: 0 <= c < |ctxs| ==>
      ctxs[c].layout.seg.Contiguous? && ctxs[c].slot == ctxs[0].slot && ctxs[c].blocks == ctxs[0].blocks
    ensures r.Ok? ==> r.value == IdsIn(ctxs)
  {
    var ids: set<nat> := {};
    for c := 0 to |ctxs|
      invariant forall k :: 0 <= k < c ==> FitsPage(ctxs[k], ctxs[0])
      invariant ids == IdsIn(ctxs[..c])
    {
      if ctxs[c].layout.IsSplit() {
        return Err(SplitInPage);
      }
      if ctxs[c].slot != ctxs[0].slot {
        return Err(ManyShards);
      }
      if ctxs[c].blocks != ctxs[0].blocks {
        return Err(DifferentBlocks);
      }
      ids := ids + {ctxs[c].id};
      assert ctxs[..c + 1] == ctxs[..c] + [ctxs[c]];
    }
    assert ctxs[..|ctxs|] == ctxs;
    r := Ok(ids);
  }

  /** One page per block. */
  method AllocPages(pool: Pool, n: nat, size: nat) returns (r: Result<seq<RawBlock>, SaveError>)
    ensures r.Ok? <==> PagesGranted(pool, n)
    ensures r.Ok? ==> |r.value| == n && forall i :: 0 <= i < n ==> r.value[i] == PageAt(pool, i, size)
    ensures r.Ok? <==> forall i: nat :: i < n ==> pool(0, i, 0).Some?
    ensures r.Ok? ==> forall i :: 0 <= i < n ==> r.value[i].segments == [Segment(pool(0, i, 0).value, size)]
  {
    var pages: seq<RawBlock> := [];
    for i := 0 to n
      invariant PagesGranted(pool, i)
      invariant |pages| == i && forall k :: 0 <= k < i ==> pages[k] == PageAt(pool, k, size)
    {
      var base := pool(0, i, 0);
      if base.None? {
        return Err(PoolExhausted);
      }
      pages := pages + [RawBlock([Segment(base.value, size)])];
    }
    r := Ok(pages);
  }

  /** A layer's slices of all pages. */
  method SlicePages(p: P.PageLayout, ctx: Ctx, pool: Pool) returns (tr: T.LayerTransfer)
    requires ctx.id < |p.layerOffsets| && ctx.id < |p.layerBytes| && PagesGranted(pool, |ctx.blocks|)
    ensures SlicesFor(tr, p, ctx, pool)
    ensures forall i :: 0 <= i < |ctx.blocks| ==>
      && tr.blocks[i].block.Owned?
      && tr.blocks[i].block.owned.segments
         == [Segment(pool(0, i, 0).value + p.layerOffsets[ctx.id], p.layerBytes[ctx.id])]
  {
    var blocks: seq<T.TransferBlock> := [];
    for i := 0 to |ctx.blocks|
      invariant |blocks| == i
      invariant forall k :: 0 <= k < i ==>
        blocks[k] == T.TransferBlock(ctx.blocks[k].0, T.Owned(SliceOf(p, pool, k, ctx.id)))
    {
      blocks := blocks + [T.TransferBlock(ctx.blocks[i].0, T.Owned(SliceOf(p, pool, i, ctx.id)))];
    }
    tr := T.LayerTransfer(ctx.layout, blocks);
  }

  /** `alloc_page_first_targets` and the page half of phase 4. */
  method PlanPageFirst(t: Topology, ctxs: seq<Ctx>, pool: Pool) returns (r: Result<Plan, SaveError>)
    requires t.page.Some? && ctxs != [] && ctxs[0].slot < |t.page.value.shardPageSizes|
    requires forall c :: 0 <= c < |ctxs| ==>
      ctxs[c].id < |t.page.value.layerOffsets| && ctxs[c].id < |t.page.value.layerBytes|
    ensures r.Ok? <==> PageAcceptable(t, ctxs) && PagesGranted(pool, |ctxs[0].blocks|)
    ensures r.Ok? <==>
      && (forall c :: 0 <= c < |ctxs| ==>
            ctxs[c].layout.seg.Contiguous? && ctxs[c].slot == ctxs[0].slot && ctxs[c].blocks == ctxs[0].blocks)
      && |IdsIn(ctxs)| == |ShardLayers(t, ctxs[0].slot)|
      && t.page.value.shardPageSizes[ctxs[0].slot] > 0
      && forall i: nat :: i < |ctxs[0].blocks| ==> pool(0, i, 0).Some?
    ensures r.Ok? ==> IsPagePlan(r.value, t, ctxs, pool)
  {
    var p := t.page.value;
    var shard := ctxs[0].slot;
    var size := p.shardPageSizes[shard];
    var ids := CheckPageContexts(ctxs);
    if ids.Err? {
      return Err(ids.error);
    }
    if |ids.value| != |ShardLayers(t, shard)| {
      return Err(PartialShard);
    }
    if size == 0 {
      return Err(EmptyPage);
    }
    var pages := AllocPages(pool, |ctxs[0].blocks|, size);
    if pages.Err? {
      return Err(pages.error);
    }
    var transfers: seq<T.LayerTransfer> := [];
    for c := 0 to |ctxs|
      invariant |transfers| == c
      invariant forall k :: 0 <= k < c ==> SlicesFor(transfers[k], p, ctxs[k], pool)
    {
      assert FitsPage(ctxs[c], ctxs[0]);
      var tr := SlicePages(p, ctxs[c], pool);
      transfers := transfers + [tr];
    }
    r := Ok(Plan(transfers, [SaveLayer(shard, size, pages.value, HashList(ctxs[0]))]));
  }

  lemma PagePlanSized(plan: Plan, t: Topology, ctxs: seq<Ctx>, pool: Pool)
    requires t.page.Some? && ctxs != [] && ctxs[0].slot < |t.page.value.shardPageSizes|
    requires IsPagePlan(plan, t, ctxs, pool)
    ensures Sized(plan.layers)
  {
    forall j | 0 <= j < |plan.layers[0].blocks|
      ensures plan.layers[0].blocks[j].Footprint() == plan.layers[0].paddedBlockSize
    {
      SizesAdd(plan.layers[0].blocks[j].segments, []);
    }
  }

  lemma {:induction false} SubsetSame<X>(a: set<X>, b: set<X>)
    requires a <= b && |a| == |b|
    ensures a == b
  {
    if b - a != {} {
      var x :| x in b - a;
      SubsetSize(a, b - {x});
    } else {
      assert b <= a;
    }
  }

  /**
   Page-first coverage: an accepted save names exactly the layers of its shard.
   The code only compares two counts; the pigeonhole does the rest.
   */
  lemma AcceptedSaveCoversShard(t: Topology, shapes: seq<seq<nat>>, w: Worker, tpRank: nat, ctxs: seq<Ctx>)
    requires Sound(t, shapes) && t.page.Some? && AllSound(t, shapes, w, tpRank, ctxs) && ctxs != []
    requires ctxs[0].slot < |t.page.value.shardPageSizes| && PageAcceptable(t, ctxs)
    ensures IdsIn(ctxs) == ShardLayers(t, ctxs[0].slot)
  {
    forall c | 0 <= c < |ctxs| ensures ctxs[c].id in ShardLayers(t, ctxs[0].slot) {
      assert CtxSound(t, shapes, w, tpRank, ctxs[c]) && FitsPage(ctxs[c], ctxs[0]);
    }
    SubsetSame(IdsIn(ctxs), ShardLayers(t, ctxs[0].slot));
  }

  /** A page-first piece starts at its layer's slice and stays inside it. */
  lemma PagePiece(plan: Plan, t: Topology, shapes: seq<seq<nat>>, w: Worker, tpRank: nat, ctxs: seq<Ctx>, pool: Pool,
                  c: nat, i: nat, p: nat)
    requires Sound(t, shapes) && t.page.Some? && AllSound(t, shapes, w, tpRank, ctxs) && ctxs != []
    requires ctxs[0].slot < |t.page.value.shardPageSizes| && PageAcceptable(t, ctxs)
    requires IsPagePlan(plan, t, ctxs, pool) && T.Ready(plan.transfers) && T.IsPiece(plan.transfers, c, i, p)
    ensures i < |ctxs[0].blocks| && ctxs[c].id < t.NumLayers() && p == 0
    ensures var page, d := t.page.value, T.DescAt(plan.transfers, c, i, p);
            && page.layerShard[ctxs[c].id] == ctxs[0].slot
            && d.host == pool(0, i, 0).value + page.layerOffsets[ctxs[c].id]
            && 0 < d.size <= page.layerBytes[ctxs[c].id]
  {
    assert CtxSound(t, shapes, w, tpRank, ctxs[c]) && FitsPage(ctxs[c], ctxs[0]);
    assert SlicesFor(plan.transfers[c], t.page.value, ctxs[c], pool);
    PieceFitsStride(ctxs[c], p);
  }

  lemma PageWritesFresh(plan: Plan, t: Topology, shapes: seq<seq<nat>>, w: Worker, tpRank: nat, ctxs: seq<Ctx>,
                        pool: Pool, hostLen: nat, live: set<nat>)
    requires Sound(t, shapes) && t.page.Some? && AllSound(t, shapes, w, tpRank, ctxs) && ctxs != []
    requires ctxs[0].slot < |t.page.value.shardPageSizes| && PageAcceptable(t, ctxs)
    requires IsPagePlan(plan, t, ctxs, pool) && T.Ready(plan.transfers)
    requires FreshPages(pool, |ctxs[0].blocks|, t.page.value.shardPageSizes[ctxs[0].slot], hostLen, live)
    ensures WritesFresh(plan.transfers, hostLen, live)
  {
    var size := t.page.value.shardPageSizes[ctxs[0].slot];
    forall c: nat, i: nat, p: nat | T.IsPiece(plan.transfers, c, i, p)
      ensures RangeFresh(HostRange(T.DescAt(plan.transfers, c, i, p)), hostLen, live)
    {
      PagePiece(plan, t, shapes, w, tpRank, ctxs, pool, c, i, p);
      var whole, part := L.Range(pool(0, i, 0).value, size), HostRange(T.DescAt(plan.transfers, c, i, p));
      assert RangeFresh(whole, hostLen, live);
      assert forall x :: Contains(part, x) ==> Contains(whole, x);
    }
  }

  /** Two page-first writes that meet are in the same slice of the same page, hence identical. */
  lemma PageWritesConsistent(plan: Plan, t: Topology, shapes: seq<seq<nat>>, w: Worker, tpRank: nat, ctxs: seq<Ctx>,
                             pool: Pool, hostLen: nat, live: set<nat>, c: nat, i: nat, p: nat, c': nat, i': nat,
                             p': nat)
    requires Sound(t, shapes) && t.page.Some? && AllSound(t, shapes, w, tpRank, ctxs) && ctxs != []
    requires ctxs[0].slot < |t.page.value.shardPageSizes| && PageAcceptable(t, ctxs)
    requires IsPagePlan(plan, t, ctxs, pool) && T.Ready(plan.transfers)
    requires FreshPages(pool, |ctxs[0].blocks|, t.page.value.shardPageSizes[ctxs[0].slot], hostLen, live)
    requires T.IsPiece(plan.transfers, c, i, p) && T.IsPiece(plan.transfers, c', i', p')
    requires L.Overlap(HostRange(T.DescAt(plan.transfers, c, i, p)), HostRange(T.DescAt(plan.transfers, c', i', p')))
    ensures T.DescAt(plan.transfers, c, i, p) == T.DescAt(plan.transfers, c', i', p')
  {
    var page, size := t.page.value, t.page.value.shardPageSizes[ctxs[0].slot];
    PagePiece(plan, t, shapes, w, tpRank, ctxs, pool, c, i, p);
    PagePiece(plan, t, shapes, w, tpRank, ctxs, pool, c', i', p');
    var r, r' := L.Range(pool(0, i, 0).value, size), L.Range(pool(0, i', 0).value, size);
    assert i == i' by {
      assert L.Overlap(r, r');
      assert i < i' ==> !L.Overlap(r, r');
      assert i' < i ==> !L.Overlap(r', r);
    }
    var l, l' := ctxs[c].id, ctxs[c'].id;
    assert l == l';
    assert CtxSound(t, shapes, w, tpRank, ctxs[c]) && CtxSound(t, shapes, w, tpRank, ctxs[c']);
    assert FitsPage(ctxs[c], ctxs[0]) && FitsPage(ctxs[c'], ctxs[0]);
    assert ctxs[c].name == ctxs[c'].name && ctxs[c].layout == ctxs[c'].layout;
    assert SlicesFor(plan.transfers[c], page, ctxs[c], pool) && SlicesFor(plan.transfers[c'], page, ctxs[c'], pool);
  }

  /** The slice that context `c` copies for block `j` is where page `j` keeps its layer. */
  lemma PageBacks(plan: Plan, t: Topology, ctxs: seq<Ctx>, pool: Pool, c: nat, j: nat)
    requires t.page.Some? && ctxs != [] && ctxs[0].slot < |t.page.value.shardPageSizes|
    requires IsPagePlan(plan, t, ctxs, pool) && c < |ctxs| && FitsPage(ctxs[c], ctxs[0]) && j < |ctxs[0].blocks|
    ensures Backs(plan, t, ctxs, plan.layers[0], j, ctxs[c].id, c, j)
  {
    assert SlicesFor(plan.transfers[c], t.page.value, ctxs[c], pool);
    assert plan.layers[0].blocks[j] == PageAt(pool, j, t.page.value.shardPageSizes[ctxs[0].slot]);
  }

  lemma PagePlanStores(plan: Plan, t: Topology, shapes: seq<seq<nat>>, w: Worker, tpRank: nat, ctxs: seq<Ctx>,
                       pool: Pool)
    requires Sound(t, shapes) && t.page.Some? && AllSound(t, shapes, w, tpRank, ctxs) && ctxs != []
    requires ctxs[0].slot < |t.page.value.shardPageSizes| && PageAcceptable(t, ctxs)
    requires IsPagePlan(plan, t, ctxs, pool)
    ensures StoresLayers(plan, t, ctxs)
  {
    AcceptedSaveCoversShard(t, shapes, w, tpRank, ctxs);
    forall s, j: nat, l: nat | s in plan.layers && j < |s.blocks| && StoredIn(t, l, s.slotId)
      ensures HasBacking(plan, t, ctxs, s, j, l)
    {
      assert s == plan.layers[0] && l in IdsIn(ctxs);
      var c :| 0 <= c < |ctxs| && ctxs[c].id == l;
      PageBacks(plan, t, ctxs, pool, c, j);
    }
  }

  /** The page-first placement is good. */
  lemma PagePlanGood(plan: Plan, t: Topology, shapes: seq<seq<nat>>, w: Worker, tpRank: nat, ctxs: seq<Ctx>,
                     pool: Pool, hostLen: nat, live: set<nat>)
    requires Sound(t, shapes) && t.page.Some? && AllSound(t, shapes, w, tpRank, ctxs) && ctxs != []
    requires ctxs[0].slot < |t.page.value.shardPageSizes| && PageAcceptable(t, ctxs)
    requires IsPagePlan(plan, t, ctxs, pool)
    requires FreshPages(pool, |ctxs[0].blocks|, t.page.value.shardPageSizes[ctxs[0].slot], hostLen, live)
    ensures Good(plan, t, shapes, ctxs, hostLen, live)
  {
    var ts := plan.transfers;
    forall c | 0 <= c < |ctxs|
      ensures CopiesContext(ts[c], ctxs[c])
    {
      assert CtxSound(t, shapes, w, tpRank, ctxs[c]) && SlicesFor(ts[c], t.page.value, ctxs[c], pool);
    }
    forall c, i | 0 <= c < |ctxs| && 0 <= i < |ctxs[c].blocks|
      ensures ctxs[c].blocks[i].0 < ctxs[c].layout.numBlocks
    {
      assert CtxSound(t, shapes, w, tpRank, ctxs[c]);
    }
    ContextsReady(ts, ctxs);
    PageWritesFresh(plan, t, shapes, w, tpRank, ctxs, pool, hostLen, live);
    PagePlanStores(plan, t, shapes, w, tpRank, ctxs, pool);
    forall c: nat, i: nat, p: nat, c': nat, i': nat, p' : nat | T.IsPiece(ts, c, i, p) && T.IsPiece(ts, c', i', p')
      && L.Overlap(HostRange(T.DescAt(ts, c, i, p)), HostRange(T.DescAt(ts, c', i', p')))
      ensures T.DescAt(ts, c, i, p) == T.DescAt(ts, c', i', p')
    {
      PageWritesConsistent(plan, t, shapes, w, tpRank, ctxs, pool, hostLen, live, c, i, p, c', i', p');
    }
  }

  // ---------------------------------------------------------------------------
  // What is handed to the store, and what it hands over first
  // ---------------------------------------------------------------------------

  /** The store is handed a hash for a slot exactly if a context of that slot carries it. */
  ghost predicate StoresExactly(plan: Plan, ctxs: seq<Ctx>) {
    forall slot: nat, h: Hash :: FirstStored(plan.layers, slot, h).Some? <==> Carries(ctxs, slot, h)
  }

  /** Block `j` of save layer `k` holds, as layer `l`, the block the contexts carry first under its hash. */
  ghost predicate BacksFirst(plan: Plan, t: Topology, ctxs: seq<Ctx>, k: nat, j: nat, l: nat, c: nat, i: nat)
    requires t.page.Some? ==> l < |t.page.value.layerOffsets|
    requires k < |plan.layers|
  {
    && Backs(plan, t, ctxs, plan.layers[k], j, l, c, i)
    && FirstCarried(ctxs, l, plan.layers[k].hashes[j]) == Some(ctxs[c].blocks[i].0)
  }

  ghost predicate HasFirst(plan: Plan, t: Topology, ctxs: seq<Ctx>, k: nat, j: nat, l: nat)
    requires t.page.Some? ==> l < |t.page.value.layerOffsets|
    requires k < |plan.layers|
  {
    exists c: nat, i: nat :: BacksFirst(plan, t, ctxs, k, j, l, c, i)
  }

  /** What is stored first for a slot and hash holds, layer by layer, what the contexts carry first. */
  ghost predicate StoresFirst(plan: Plan, t: Topology, ctxs: seq<Ctx>)
    requires SlotKnown(t) && (t.page.Some? ==> |t.page.value.layerOffsets| == t.NumLayers())
  {
    forall slot: nat, h: Hash, l: nat :: FirstStored(plan.layers, slot, h).Some? && StoredIn(t, l, slot) ==>
      var at := FirstStored(plan.layers, slot, h).value;
      HasFirst(plan, t, ctxs, at.0, at.1, l)
  }

  lemma {:induction false} FirstCarriedNone(ctxs: seq<Ctx>, id: nat, h: Hash)
    requires forall c :: 0 <= c < |ctxs| && ctxs[c].id == id ==> FirstIn(ctxs[c].blocks, h).None?
    ensures FirstCarried(ctxs, id, h).None?
  {
    if ctxs != [] { FirstCarriedNone(ctxs[..|ctxs| - 1], id, h); }
  }

  lemma {:induction false} FirstCarriedAt(ctxs: seq<Ctx>, id: nat, h: Hash, c: nat)
    requires c < |ctxs| && ctxs[c].id == id && FirstIn(ctxs[c].blocks, h).Some?
    requires forall k :: 0 <= k < c && ctxs[k].id == id ==> FirstIn(ctxs[k].blocks, h).None?
    ensures FirstCarried(ctxs, id, h) == FirstIn(ctxs[c].blocks, h)
  {
    var n := |ctxs| - 1;
    if c < n {
      FirstCarriedAt(ctxs[..n], id, h, c);
    } else {
      FirstCarriedNone(ctxs[..n], id, h);
    }
  }

  /** Contexts of a layer that all list the same blocks. */
  lemma {:induction false} FirstCarriedSame(ctxs: seq<Ctx>, id: nat, h: Hash, c: nat)
    requires c < |ctxs| && ctxs[c].id == id
    requires forall k :: 0 <= k < |ctxs| && ctxs[k].id == id ==> ctxs[k].blocks == ctxs[c].blocks
    ensures FirstCarried(ctxs, id, h) == FirstIn(ctxs[c].blocks, h)
  {
    var n := |ctxs| - 1;
    if c < n {
      FirstCarriedSame(ctxs[..n], id, h, c);
    } else if k :| 0 <= k < n && ctxs[k].id == id {
      assert ctxs[..n][k] == ctxs[k];
      FirstCarriedSame(ctxs[..n], id, h, k);
    } else {
      FirstCarriedNone(ctxs[..n], id, h);
    }
  }

  lemma LayerPlanExact(plan: Plan, ctxs: seq<Ctx>, blockwise: bool, pool: Pool)
    requires IsLayerPlan(plan, ctxs, blockwise, pool)
    ensures StoresExactly(plan, ctxs)
  {
    forall slot: nat, h: Hash ensures FirstStored(plan.layers, slot, h).Some? <==> Carries(ctxs, slot, h) {
      CarriesAt(ctxs, slot, h);
      forall c | 0 <= c < |ctxs|
        ensures plan.layers[c].slotId == ctxs[c].slot
        ensures (h in plan.layers[c].hashes <==> FirstIn(ctxs[c].blocks, h).Some?)
      {
        assert PlansContext(plan.transfers[c], plan.layers[c], ctxs[c], blockwise, pool, c);
        NotIn(ctxs[c].blocks, h);
        assert plan.layers[c].hashes == HashList(ctxs[c]);
      }
    }
  }

  lemma LayerPlanFirst(plan: Plan, t: Topology, shapes: seq<seq<nat>>, w: Worker, tpRank: nat, ctxs: seq<Ctx>,
                       blockwise: bool, pool: Pool, slot: nat, h: Hash, l: nat)
    requires IsLayerPlan(plan, ctxs, blockwise, pool) && t.page.None? && AllSound(t, shapes, w, tpRank, ctxs)
    requires SlotKnown(t)
    requires FirstStored(plan.layers, slot, h).Some? && StoredIn(t, l, slot)
    ensures var at := FirstStored(plan.layers, slot, h).value; HasFirst(plan, t, ctxs, at.0, at.1, l)
  {
    var (k, j) := FirstStored(plan.layers, slot, h).value;
    assert PlansContext(plan.transfers[k], plan.layers[k], ctxs[k], blockwise, pool, k);
    assert CtxSound(t, shapes, w, tpRank, ctxs[k]);
    SlotStores(t, ctxs[k].id, tpRank, ctxs[k].slot);
    assert plan.layers[k].blocks[j] == RawAt(ctxs[k], blockwise, pool, k, j);
    assert Backs(plan, t, ctxs, plan.layers[k], j, l, k, j);
    FirstInAt(ctxs[k].blocks, h, j);
    forall c | 0 <= c < k && ctxs[c].id == l ensures FirstIn(ctxs[c].blocks, h).None? {
      assert PlansContext(plan.transfers[c], plan.layers[c], ctxs[c], blockwise, pool, c);
      assert CtxSound(t, shapes, w, tpRank, ctxs[c]);
      assert forall i :: 0 <= i < |ctxs[c].blocks| ==> ctxs[c].blocks[i].1 == plan.layers[c].hashes[i];
      NotIn(ctxs[c].blocks, h);
    }
    FirstCarriedAt(ctxs, l, h, k);
    assert BacksFirst(plan, t, ctxs, k, j, l, k, j);
  }

  lemma PagePlanExact(plan: Plan, t: Topology, ctxs: seq<Ctx>, pool: Pool)
    requires t.page.Some? && ctxs != [] && ctxs[0].slot < |t.page.value.shardPageSizes|
    requires PageAcceptable(t, ctxs) && IsPagePlan(plan, t, ctxs, pool)
    ensures StoresExactly(plan, ctxs)
  {
    forall slot: nat, h: Hash ensures FirstStored(plan.layers, slot, h).Some? <==> Carries(ctxs, slot, h) {
      CarriesAt(ctxs, slot, h);
      NotIn(ctxs[0].blocks, h);
      assert forall i :: 0 <= i < |ctxs[0].blocks| ==> plan.layers[0].hashes[i] == ctxs[0].blocks[i].1;
      assert h in plan.layers[0].hashes <==> FirstIn(ctxs[0].blocks, h).Some?;
      forall c | 0 <= c < |ctxs| ensures ctxs[c].slot == ctxs[0].slot && ctxs[c].blocks == ctxs[0].blocks {
        assert FitsPage(ctxs[c], ctxs[0]);
      }
    }
  }

  lemma PageCarriesFirst(ctxs: seq<Ctx>, c: nat, hashes: seq<Hash>, j: nat)
    requires ctxs != [] && c < |ctxs| && forall k :: 0 <= k < |ctxs| ==> FitsPage(ctxs[k], ctxs[0])
    requires hashes == HashList(ctxs[0]) && FirstOccurrence(hashes, j)
    ensures j < |ctxs[c].blocks| && FirstCarried(ctxs, ctxs[c].id, hashes[j]) == Some(ctxs[c].blocks[j].0)
  {
    assert FitsPage(ctxs[c], ctxs[0]);
    assert forall i :: 0 <= i < |hashes| ==> hashes[i] == ctxs[c].blocks[i].1;
    FirstInAt(ctxs[c].blocks, hashes[j], j);
    forall k | 0 <= k < |ctxs| ensures ctxs[k].blocks == ctxs[c].blocks {
      assert FitsPage(ctxs[k], ctxs[0]);
    }
    FirstCarriedSame(ctxs, ctxs[c].id, hashes[j], c);
  }

  lemma PagePlanFirst(plan: Plan, t: Topology, shapes: seq<seq<nat>>, w: Worker, tpRank: nat, ctxs: seq<Ctx>,
                      pool: Pool, slot: nat, h: Hash, l: nat)
    requires Sound(t, shapes) && t.page.Some? && AllSound(t, shapes, w, tpRank, ctxs) && ctxs != []
    requires ctxs[0].slot < |t.page.value.shardPageSizes| && PageAcceptable(t, ctxs) && IsPagePlan(plan, t, ctxs, pool)
    requires FirstStored(plan.layers, slot, h).Some? && StoredIn(t, l, slot)
    ensures var at := FirstStored(plan.layers, slot, h).value; HasFirst(plan, t, ctxs, at.0, at.1, l)
  {
    var (k, j) := FirstStored(plan.layers, slot, h).value;
    AcceptedSaveCoversShard(t, shapes, w, tpRank, ctxs);
    assert l in IdsIn(ctxs);
    var c :| 0 <= c < |ctxs| && ctxs[c].id == l;
    assert FitsPage(ctxs[c], ctxs[0]);
    PageBacks(plan, t, ctxs, pool, c, j);
    PageCarriesFirst(ctxs, c, HashList(ctxs[0]), j);
    assert BacksFirst(plan, t, ctxs, k, j, l, c, j);
  }

  // ---------------------------------------------------------------------------
  // Phase 2 as a whole
  // ---------------------------------------------------------------------------

  /** When phase 2 goes through. */
  ghost predicate Placeable(t: Topology, ctxs: seq<Ctx>, blockwise: bool, pool: Pool)
    requires ctxs != [] && (t.page.Some? ==> ctxs[0].slot < |t.page.value.shardPageSizes|)
  {
    if t.page.Some? then PageAcceptable(t, ctxs) && PagesGranted(pool, |ctxs[0].blocks|)
    else Granted(ctxs, blockwise, pool)
  }

  /** What the allocator promises: memory it grants is free and granted once. */
  ghost predicate PoolFresh(t: Topology, ctxs: seq<Ctx>, blockwise: bool, pool: Pool, hostLen: nat, live: set<nat>)
    requires ctxs != [] && (t.page.Some? ==> ctxs[0].slot < |t.page.value.shardPageSizes|)
  {
    if t.page.Some? then
      PagesGranted(pool, |ctxs[0].blocks|) ==>
        FreshPages(pool, |ctxs[0].blocks|, t.page.value.shardPageSizes[ctxs[0].slot], hostLen, live)
    else Granted(ctxs, blockwise, pool) ==> FreshAllocs(ctxs, blockwise, pool, hostLen, live)
  }

  lemma FirstSlotKnown(t: Topology, shapes: seq<seq<nat>>, w: Worker, tpRank: nat, ctxs: seq<Ctx>)
    requires Sound(t, shapes) && AllSound(t, shapes, w, tpRank, ctxs)
    ensures forall c :: 0 <= c < |ctxs| && t.page.Some? ==>
      && ctxs[c].slot < |t.page.value.shardPageSizes|
      && ctxs[c].id < |t.page.value.layerOffsets| && ctxs[c].id < |t.page.value.layerBytes|
  {
    forall c | 0 <= c < |ctxs| ensures CtxSound(t, shapes, w, tpRank, ctxs[c]) {
    }
  }

  lemma LayoutsAccepted(t: Topology, shapes: seq<seq<nat>>, w: Worker, tpRank: nat, ctxs: seq<Ctx>)
    requires AllSound(t, shapes, w, tpRank, ctxs)
    ensures forall c :: 0 <= c < |ctxs| ==> L.Accepted(ctxs[c].layout)
  {
    forall c | 0 <= c < |ctxs| ensures L.Accepted(ctxs[c].layout) {
      assert CtxSound(t, shapes, w, tpRank, ctxs[c]);
    }
  }

  /** Place a batch, page-first or layer-first; whatever is placed is good and complete. */
  method PlaceBatch(t: Topology, ctxs: seq<Ctx>, blockwise: bool, pool: Pool, ghost shapes: seq<seq<nat>>,
                    ghost w: Worker, ghost tpRank: nat, ghost hostLen: nat, ghost live: set<nat>)
    returns (r: Result<Plan, SaveError>)
    requires Sound(t, shapes) && AllSound(t, shapes, w, tpRank, ctxs) && ctxs != []
    requires t.page.Some? ==> ctxs[0].slot < |t.page.value.shardPageSizes|
    requires PoolFresh(t, ctxs, blockwise, pool, hostLen, live)
    ensures r.Ok? <==> Placeable(t, ctxs, blockwise, pool)
    ensures r.Ok? <==>
      if t.page.None? then forall c :: 0 <= c < |ctxs| ==> CtxGranted(ctxs[c], blockwise, pool, c)
      else PageAcceptable(t, ctxs) && PagesGranted(pool, |ctxs[0].blocks|)
    ensures r.Ok? ==>
      Good(r.value, t, shapes, ctxs, hostLen, live) && StoresExactly(r.value, ctxs) && StoresFirst(r.value, t, ctxs)
    ensures r.Ok? ==> Sized(r.value.layers)
  {
    FirstSlotKnown(t, shapes, w, tpRank, ctxs);
    if t.page.Some? {
      r := PlanPageFirst(t, ctxs, pool);
      if r.Ok? {
        PagePlanGood(r.value, t, shapes, w, tpRank, ctxs, pool, hostLen, live);
        PagePlanExact(r.value, t, ctxs, pool);
        PagePlanSized(r.value, t, ctxs, pool);
        forall slot: nat, h: Hash, l: nat | FirstStored(r.value.layers, slot, h).Some? && StoredIn(t, l, slot)
          ensures var at := FirstStored(r.value.layers, slot, h).value; HasFirst(r.value, t, ctxs, at.0, at.1, l)
        {
          PagePlanFirst(r.value, t, shapes, w, tpRank, ctxs, pool, slot, h, l);
        }
      }
    } else {
      r := PlanLayerFirst(ctxs, blockwise, pool);
      if r.Ok? {
        LayerPlanGood(r.value, t, shapes, w, tpRank, ctxs, blockwise, pool, hostLen, live);
        LayerPlanExact(r.value, ctxs, blockwise, pool);
        LayoutsAccepted(t, shapes, w, tpRank, ctxs);
        LayerPlanSized(r.value, ctxs, blockwise, pool);
        forall slot: nat, h: Hash, l: nat | FirstStored(r.value.layers, slot, h).Some? && StoredIn(t, l, slot)
          ensures var at := FirstStored(r.value.layers, slot, h).value; HasFirst(r.value, t, ctxs, at.0, at.1, l)
        {
          LayerPlanFirst(r.value, t, shapes, w, tpRank, ctxs, blockwise, pool, slot, h, l);
        }
      }
    }
  }
}
