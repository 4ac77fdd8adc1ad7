/**
 The load path (pegaflow-core/src/lib.rs, `batch_load_kv_blocks_multi_layer_inner`):
 checks on the leased blocks, slot and offset of every layer, and the copy back.
 */
module LoadPath {
  import opened Prelude
  import opened Blocks
  import opened Memory
  import opened Topology
  import opened SavePlan
  import opened Placement
  import opened SaveLoad
  import T = Transfer
  import L = Layout
  import Q = Leases

  /** Blocks of one lease and the GPU blocks they go to. */
  datatype Load = Load(blocks: seq<SealedBlock>, ids: seq<nat>)

  datatype LoadError =
    | LeaseRefused
    | CountMismatch
    | SlotMismatch
    | UnknownLayer
    | NotOnDevice
    | BadTpRank
    | MissingSlot
    | BlockOutOfRange

  type Target = (nat, SealedBlock)

  // ---------------------------------------------------------------------------
  // Collecting the blocks
  // ---------------------------------------------------------------------------

  predicate Fitting(load: Load, total: nat) {
    |load.blocks| == |load.ids| && forall j :: 0 <= j < |load.blocks| ==> |load.blocks[j].slots| == total
  }

  function TargetsOf(load: Load): (r: seq<Target>)
    requires |load.blocks| == |load.ids|
    ensures |r| == |load.ids| && forall j :: 0 <= j < |r| ==> r[j] == (load.ids[j], load.blocks[j])
  {
    seq(|load.ids|, j requires 0 <= j < |load.ids| => (load.ids[j], load.blocks[j]))
  }

  function AllTargets(loads: seq<Load>, total: nat): (r: seq<Target>)
    requires forall i :: 0 <= i < |loads| ==> Fitting(loads[i], total)
    ensures forall j :: 0 <= j < |r| ==> |r[j].1.slots| == total
  {
    if loads == [] then []
    else
      var n := |loads| - 1;
      assert Fitting(loads[n], total);
      AllTargets(loads[..n], total) + TargetsOf(loads[n])
  }

  /** Blocks with another slot count belong to an incompatible layout; the load is refused. */
  method CollectTargets(loads: seq<Load>, total: nat) returns (r: Result<seq<Target>, LoadError>)
    ensures r.Ok? <==> forall i :: 0 <= i < |loads| ==> Fitting(loads[i], total)
    ensures r.Ok? ==> r.value == AllTargets(loads, total)
  {
    var targets: seq<Target> := [];
    for i := 0 to |loads|
      invariant forall k :: 0 <= k < i ==> Fitting(loads[k], total)
      invariant targets == AllTargets(loads[..i], total)
    {
      if |loads[i].blocks| != |loads[i].ids| {
        return Err(CountMismatch);
      }
      for j := 0 to |loads[i].blocks|
        invariant forall k :: 0 <= k < j ==> |loads[i].blocks[k].slots| == total
      {
        if |loads[i].blocks[j].slots| != total {
          return Err(SlotMismatch);
        }
      }
      assert loads[..i + 1][..i] == loads[..i];
      targets := targets + TargetsOf(loads[i]);
    }
    assert loads[..|loads|] == loads;
    r := Ok(targets);
  }

  /** One lease of a load: its token, the GPU blocks it goes to, and when it is consumed. */
  datatype Wanted = Wanted(token: Q.Token, ids: seq<nat>, at: Q.Time)

  /** The leases once the first `n` have been consumed. */
  function LeasesAfter(leases: Q.LeaseMap, instance: string, wanted: seq<Wanted>, n: nat): Q.LeaseMap
    requires n <= |wanted|
  {
    if n == 0 then leases
    else Q.AfterConsume(LeasesAfter(leases, instance, wanted, n - 1), instance, wanted[n - 1].token, wanted[n - 1].at)
  }

  function OutcomeAt(leases: Q.LeaseMap, instance: string, wanted: seq<Wanted>,
                     i: nat): Result<seq<SealedBlock>, Q.LeaseError>
    requires i < |wanted|
  {
    Q.ConsumeOutcome(LeasesAfter(leases, instance, wanted, i), instance, wanted[i].token, wanted[i].at)
  }

  /** The lease can be consumed when its turn comes, and its blocks fit the destination and the layout. */
  predicate GoodAt(leases: Q.LeaseMap, instance: string, wanted: seq<Wanted>, total: nat, i: nat)
    requires i < |wanted|
  {
    && OutcomeAt(leases, instance, wanted, i).Ok?
    && Fitting(Load(OutcomeAt(leases, instance, wanted, i).value, wanted[i].ids), total)
  }

  function LeasedLoads(leases: Q.LeaseMap, instance: string, wanted: seq<Wanted>, total: nat, n: nat): (r: seq<Load>)
    requires n <= |wanted| && forall i: nat :: i < n ==> GoodAt(leases, instance, wanted, total, i)
    ensures |r| == n && forall i :: 0 <= i < n ==> Fitting(r[i], total)
  {
    if n == 0 then []
    else
      assert GoodAt(leases, instance, wanted, total, n - 1);
      LeasedLoads(leases, instance, wanted, total, n - 1)
        + [Load(OutcomeAt(leases, instance, wanted, n - 1).value, wanted[n - 1].ids)]
  }

  /** The first lease that spoils a load; the number of leases if none does. */
  ghost predicate StopsAt(leases: Q.LeaseMap, instance: string, wanted: seq<Wanted>, total: nat, n: nat) {
    && n <= |wanted| && (forall i: nat :: i < n ==> GoodAt(leases, instance, wanted, total, i))
    && (n < |wanted| ==> !GoodAt(leases, instance, wanted, total, n))
  }

  /** Consume one lease and check its blocks; the lease is spent even if they do not fit. */
  method ConsumeFitting(manager: Q.QueryLeaseManager, instance: string, w: Wanted, total: nat)
    returns (r: Result<seq<SealedBlock>, LoadError>)
    modifies manager
    ensures manager.leases == Q.AfterConsume(old(manager.leases), instance, w.token, w.at)
    ensures var outcome := Q.ConsumeOutcome(old(manager.leases), instance, w.token, w.at);
            && (r.Ok? <==> outcome.Ok? && Fitting(Load(outcome.value, w.ids), total))
            && (r.Ok? ==> r.value == outcome.value)
  {
    var blocks := manager.Consume(instance, w.token, w.at);
    if blocks.Err? {
      return Err(LeaseRefused);
    }
    if |blocks.value| != |w.ids| {
      return Err(CountMismatch);
    }
    for j := 0 to |blocks.value|
      invariant forall k :: 0 <= k < j ==> |blocks.value[k].slots| == total
    {
      if |blocks.value[j].slots| != total {
        return Err(SlotMismatch);
      }
    }
    return Ok(blocks.value);
  }

  /**
   Consume the leases of a load, one after the other. The load fails at the first
   lease that is refused or does not fit; that lease and those before it are spent.
   */
  method CollectLeased(manager: Q.QueryLeaseManager, instance: string, wanted: seq<Wanted>, total: nat)
    returns (r: Result<seq<Target>, LoadError>, ghost n: nat)
    modifies manager
    ensures StopsAt(old(manager.leases), instance, wanted, total, n) && (r.Ok? <==> n == |wanted|)
    ensures manager.leases == LeasesAfter(old(manager.leases), instance, wanted, if n < |wanted| then n + 1 else n)
    ensures r.Ok? ==> r.value == AllTargets(LeasedLoads(old(manager.leases), instance, wanted, total, n), total)
  {
    ghost var leases := manager.leases;
    var targets: seq<Target> := [];
    n := 0;
    for i := 0 to |wanted|
      invariant n == i && manager.leases == LeasesAfter(leases, instance, wanted, i)
      invariant forall k: nat :: k < i ==> GoodAt(leases, instance, wanted, total, k)
      invariant targets == AllTargets(LeasedLoads(leases, instance, wanted, total, i), total)
    {
      var blocks := ConsumeFitting(manager, instance, wanted[i], total);
      if blocks.Err? {
        return Err(blocks.error), n;
      }
      assert GoodAt(leases, instance, wanted, total, i);
      ghost var loads := LeasedLoads(leases, instance, wanted, total, i);
      assert LeasedLoads(leases, instance, wanted, total, i + 1)[..i] == loads;
      targets := targets + TargetsOf(Load(blocks.value, wanted[i].ids));
      n := n + 1;
    }
    r := Ok(targets);
  }

  // ---------------------------------------------------------------------------
  // One transfer per layer
  // ---------------------------------------------------------------------------

  predicate LayerLoadable(t: Topology, w: Worker, tpRank: nat, n: string)
    requires SlotKnown(t)
  {
    n in t.nameToId && n in w.caches && SlotIndex(t, t.nameToId[n], tpRank).Ok?
  }

  function LoadSlot(t: Topology, w: Worker, tpRank: nat, n: string): nat
    requires SlotKnown(t) && LayerLoadable(t, w, tpRank, n)
  {
    SlotIndex(t, t.nameToId[n], tpRank).value
  }

  function LoadTransfer(layout: L.Layout, targets: seq<Target>, slot: nat, offset: nat): (r: T.LayerTransfer)
    ensures r.layout == layout && |r.blocks| == |targets|
    ensures forall j :: 0 <= j < |targets| ==>
      r.blocks[j] == T.TransferBlock(targets[j].0, T.Cached(targets[j].1, slot, offset))
  {
    T.LayerTransfer(layout, seq(|targets|, j requires 0 <= j < |targets| =>
      T.TransferBlock(targets[j].0, T.Cached(targets[j].1, slot, offset))))
  }

  predicate OffsetKnown(t: Topology) { t.page.Some? ==> |t.page.value.layerOffsets| == t.NumLayers() }

  /** The transfers of a load; none when there is nothing to load. */
  ghost predicate IsLoadPlan(ts: seq<T.LayerTransfer>, t: Topology, w: Worker, tpRank: nat, names: seq<string>,
                             targets: seq<Target>)
    requires SlotKnown(t) && OffsetKnown(t)
  {
    if targets == [] then ts == []
    else
      && |ts| == |names|
      && forall i :: 0 <= i < |names| ==>
           && LayerLoadable(t, w, tpRank, names[i])
           && ts[i] == LoadTransfer(w.caches[names[i]], targets, LoadSlot(t, w, tpRank, names[i]),
                                    OffsetIn(t, t.nameToId[names[i]]))
  }

  method BuildLoad(t: Topology, w: Worker, tpRank: nat, names: seq<string>, targets: seq<Target>)
    returns (r: Result<seq<T.LayerTransfer>, LoadError>)
    requires SlotKnown(t) && OffsetKnown(t)
    requires (t.page.Some? ==> forall l :: 0 <= l < t.NumLayers() ==> t.page.value.layerShard[l] < t.TotalSlots())
    requires forall j :: 0 <= j < |targets| ==> |targets[j].1.slots| == t.TotalSlots()
    ensures r.Ok? <==> forall i :: 0 <= i < |names| ==> LayerLoadable(t, w, tpRank, names[i])
    ensures r.Ok? ==> IsLoadPlan(r.value, t, w, tpRank, names, targets)
  {
    var ts: seq<T.LayerTransfer> := [];
    for i := 0 to |names|
      invariant forall k :: 0 <= k < i ==> LayerLoadable(t, w, tpRank, names[k])
      invariant IsLoadPlan(ts, t, w, tpRank, names[..i], targets)
    {
      var id := LayerId(t, names[i]);
      if id.Err? {
        return Err(LoadError.UnknownLayer);
      }
      if names[i] !in w.caches {
        return Err(LoadError.NotOnDevice);
      }
      var slot := SlotIndex(t, id.value, tpRank);
      if slot.Err? {
        return Err(LoadError.BadTpRank);
      }
      assert LayerLoadable(t, w, tpRank, names[i]);
      SlotInRange(t, id.value, tpRank);
      for j := 0 to |targets|
      {
        if slot.value >= |targets[j].1.slots| {
          return Err(MissingSlot);
        }
      }
      if targets != [] {
        ts := ts + [LoadTransfer(w.caches[names[i]], targets, slot.value, OffsetIn(t, id.value))];
      }
    }
    assert names[..|names|] == names;
    r := Ok(ts);
  }

  /** The slot a lookup yields exists, so the missing-slot error never fires. */
  lemma SlotInRange(t: Topology, l: nat, rank: nat)
    requires SlotKnown(t) && SlotIndex(t, l, rank).Ok?
    requires t.page.Some? ==> forall l :: 0 <= l < t.NumLayers() ==> t.page.value.layerShard[l] < t.TotalSlots()
    ensures SlotIndex(t, l, rank).value < t.TotalSlots()
  {
    if t.page.None? { GridIndex(l, rank, t.NumLayers(), t.tpSize); }
  }

  // ---------------------------------------------------------------------------
  // What a load needs from memory
  // ---------------------------------------------------------------------------

  ghost predicate BlocksApart(a: L.Layout, x: nat, b: L.Layout, y: nat) {
    forall p, q :: 0 <= p < |L.PiecesOf(a, x)| && 0 <= q < |L.PiecesOf(b, y)| ==>
      !L.Overlap(L.PiecesOf(a, x)[p], L.PiecesOf(b, y)[q])
  }

  ghost predicate LayersApart(a: L.Layout, b: L.Layout) {
    forall x: nat, y: nat :: BlocksApart(a, x, b, y)
  }

  /**
   Blocks of different layers on one device do not meet. Their registered regions may: a fused
   buffer interleaves layers.
   */
  ghost predicate DeviceLaidOut(w: Worker) {
    forall n, m :: n in w.caches && m in w.caches && n != m ==> LayersApart(w.caches[n], w.caches[m])
  }

  /** Layers registered in separate regions. */
  lemma SeparateRegionsApart(a: L.Layout, b: L.Layout)
    requires L.Accepted(a) && L.Accepted(b)
    requires !L.Overlap(L.Range(a.dataPtr, a.sizeBytes), L.Range(b.dataPtr, b.sizeBytes))
    ensures LayersApart(a, b)
  {
    forall x: nat, y: nat, p, q | 0 <= p < |L.PiecesOf(a, x)| && 0 <= q < |L.PiecesOf(b, y)|
      ensures !L.Overlap(L.PiecesOf(a, x)[p], L.PiecesOf(b, y)[q])
    {
      L.PiecesInRegion(a, x, p);
      L.PiecesInRegion(b, y, q);
    }
  }

  /** Two multiples of a stride with room for both blocks between them. */
  lemma InterleavedGap(x: nat, y: nat, stride: nat, d: nat, first: nat, second: nat)
    requires first <= d && d + second <= stride
    ensures x * stride + first <= y * stride + d || y * stride + d + second <= x * stride
  {
    if x <= y {
      MulMonotone(x, y, stride);
    } else {
      MulMonotone(y + 1, x, stride);
      assert (y + 1) * stride == y * stride + stride;
    }
  }

  /**
   Layers interleaved in a fused buffer: with one stride, and each block's slice
   of the second layer after that of the first and before the next block.
   */
  lemma FusedLayersApart(a: L.Layout, b: L.Layout)
    requires L.Accepted(a) && L.Accepted(b) && a.seg.Contiguous? && b.seg.Contiguous? && a.blockStride == b.blockStride
    requires a.dataPtr + a.BlockBytes() <= b.dataPtr && b.dataPtr + b.BlockBytes() <= a.dataPtr + a.blockStride
    ensures LayersApart(a, b) && LayersApart(b, a)
  {
    forall x: nat, y: nat ensures BlocksApart(a, x, b, y) && BlocksApart(b, y, a, x) {
      if x < a.numBlocks && y < b.numBlocks {
        L.PiecesCoverSegments(a, x);
        L.PiecesCoverSegments(b, y);
        InterleavedGap(x, y, a.blockStride, b.dataPtr - a.dataPtr, a.BlockBytes(), b.BlockBytes());
      }
    }
  }

  predicate DistinctIds(targets: seq<Target>) {
    forall i, j :: 0 <= i < j < |targets| ==> targets[i].0 != targets[j].0
  }

  /** Every slot of a block can be read back, layer by layer. */
  ghost predicate Readable(t: Topology, shapes: seq<seq<nat>>, host: Mem, sealed: SealedBlock)
    requires Sound(t, shapes)
  {
    && |sealed.slots| == t.TotalSlots()
    && forall slot: nat, l: nat :: slot < t.TotalSlots() && StoredIn(t, l, slot) ==>
         LayerReadable(t, shapes, host, sealed, slot, l)
  }

  ghost predicate LayerReadable(t: Topology, shapes: seq<seq<nat>>, host: Mem, sealed: SealedBlock,
                                slot: nat, l: nat)
    requires Sound(t, shapes) && l < t.NumLayers()
  {
    slot < |sealed.slots| && exists image: Mem :: LayerKept(t, shapes, host, sealed.slots[slot], l, image)
  }

  /** One load batch and the memories it runs on. */
  datatype Fetch = Fetch(t: Topology, shapes: seq<seq<nat>>, w: Worker, tpRank: nat, names: seq<string>,
                         targets: seq<Target>,
                         ts: seq<T.LayerTransfer>, host: Mem, gpu: Mem)
  {
    ghost predicate Planned() {
      && Sound(t, shapes) && WorkerSound(t, shapes, w) && GpuHolds(w, |gpu|)
      && IsLoadPlan(ts, t, w, tpRank, names, targets)
      && forall j :: 0 <= j < |targets| ==> Readable(t, shapes, host, targets[j].1)
    }

    ghost predicate Ready() {
      Planned() && T.Ready(ts)
    }
  }

  lemma LayerFits(f: Fetch, i: nat, j: nat)
    requires f.Planned() && f.targets != [] && i < |f.names| && j < |f.targets|
    ensures var n := f.names[i];
            && LayerLoadable(f.t, f.w, f.tpRank, n) && CacheSound(f.t, f.shapes, n, f.w.caches[n])
            && f.ts[i] == LoadTransfer(f.w.caches[n], f.targets, LoadSlot(f.t, f.w, f.tpRank, n),
                                       OffsetIn(f.t, f.t.nameToId[n]))
            && LayerReadable(f.t, f.shapes, f.host, f.targets[j].1, LoadSlot(f.t, f.w, f.tpRank, n), f.t.nameToId[n])
  {
    var n := f.names[i];
    assert LayerLoadable(f.t, f.w, f.tpRank, n);
    var slot, l := LoadSlot(f.t, f.w, f.tpRank, n), f.t.nameToId[n];
    SlotBelowTotal(f.t, f.shapes, l, f.tpRank, slot);
    SlotStores(f.t, l, f.tpRank, slot);
    assert Readable(f.t, f.shapes, f.host, f.targets[j].1);
  }

  lemma HostsAreValid(f: Fetch)
    requires f.Planned()
    ensures forall i :: 0 <= i < |f.ts| ==> T.HostsValid(f.ts[i])
  {
    forall i, j | 0 <= i < |f.ts| && 0 <= j < |f.ts[i].blocks| ensures f.ts[i].blocks[j].block.Valid() {
      LayerFits(f, i, j);
    }
  }

  lemma LoadFits(f: Fetch)
    requires f.Ready()
    ensures T.DescsFit(f.ts, f.host, f.gpu)
  {
    forall i: nat, j: nat, p: nat | T.IsPiece(f.ts, i, j, p)
      ensures T.DescFits(T.DescAt(f.ts, i, j, p), f.host, f.gpu)
    {
      LayerFits(f, i, j);
      PieceOnGpu(f.ts[i].layout, f.targets[j].0, p, |f.gpu|);
    }
  }

  /** Pieces that meet on a device are the same piece of the same block of the same layer. */
  lemma PiecesMeet(w: Worker, n: string, block: nat, p: nat, n': string, block': nat, p': nat)
    requires DeviceLaidOut(w) && n in w.caches && n' in w.caches && L.Accepted(w.caches[n]) && L.Accepted(w.caches[n'])
    requires p < |L.PiecesOf(w.caches[n], block)| && p' < |L.PiecesOf(w.caches[n'], block')|
    requires L.Overlap(L.PiecesOf(w.caches[n], block)[p], L.PiecesOf(w.caches[n'], block')[p'])
    ensures n == n' && block == block' && p == p'
  {
    assert n != n' ==> BlocksApart(w.caches[n], block, w.caches[n'], block');
    if (block, p) != (block', p') {
      L.PiecesDisjoint(w.caches[n], block, p, block', p');
    }
  }

  /** The device range of a descriptor is a piece of its layer and block. */
  lemma DeviceRange(f: Fetch, i: nat, j: nat, p: nat)
    requires f.Ready() && T.IsPiece(f.ts, i, j, p)
    ensures i < |f.names| && j < |f.targets| && f.names[i] in f.w.caches && L.Accepted(f.w.caches[f.names[i]])
    ensures var d, pieces := T.DescAt(f.ts, i, j, p), L.PiecesOf(f.w.caches[f.names[i]], f.targets[j].0);
            p < |pieces| && pieces[p] == L.Range(d.device, d.size)
  {
    LayerFits(f, i, j);
    T.PieceSizesMatch(f.w.caches[f.names[i]], f.targets[j].0);
  }

  lemma DeviceApart(f: Fetch, i: nat, j: nat, p: nat, i': nat, j': nat, p': nat)
    requires f.Ready() && DeviceLaidOut(f.w) && DistinctIds(f.targets)
    requires T.IsPiece(f.ts, i, j, p) && T.IsPiece(f.ts, i', j', p')
    requires var d, d' := T.DescAt(f.ts, i, j, p), T.DescAt(f.ts, i', j', p');
             L.Overlap(L.Range(d.device, d.size), L.Range(d'.device, d'.size))
    ensures T.DescAt(f.ts, i, j, p) == T.DescAt(f.ts, i', j', p')
  {
    DeviceRange(f, i, j, p);
    DeviceRange(f, i', j', p');
    PiecesMeet(f.w, f.names[i], f.targets[j].0, p, f.names[i'], f.targets[j'].0, p');
    SameDesc(f, i, i', j, p);
  }

  /** A layer named twice is loaded by the same descriptors. */
  lemma SameDesc(f: Fetch, i: nat, i': nat, j: nat, p: nat)
    requires f.Ready() && f.targets != [] && i < |f.names| && i' < |f.names| && f.names[i] == f.names[i']
    requires T.IsPiece(f.ts, i, j, p) && T.IsPiece(f.ts, i', j, p)
    ensures T.DescAt(f.ts, i, j, p) == T.DescAt(f.ts, i', j, p)
  {
    LayerFits(f, i, j);
    LayerFits(f, i', j);
  }

  lemma LoadsAgree(f: Fetch)
    requires f.Ready() && DeviceLaidOut(f.w) && DistinctIds(f.targets) && T.DescsFit(f.ts, f.host, f.gpu)
    ensures T.LoadAgrees(f.ts, f.host, f.gpu)
  {
    forall i: nat, j: nat, p: nat, i': nat, j': nat, p': nat, a: nat
      | T.IsPiece(f.ts, i, j, p) && T.IsPiece(f.ts, i', j', p')
        && Covers(ToDevice(T.DescAt(f.ts, i, j, p)), a) && Covers(ToDevice(T.DescAt(f.ts, i', j', p')), a)
      ensures T.DescAt(f.ts, i, j, p) == T.DescAt(f.ts, i', j', p')
    {
      DeviceApart(f, i, j, p, i', j', p');
    }
  }

  /** What a load brings back for layer `i` and block `j`: exactly what the host keeps. */
  lemma LoadRestores(f: Fetch, i: nat, j: nat, image: Mem)
    requires f.Ready() && DeviceLaidOut(f.w) && DistinctIds(f.targets)
    requires f.targets != [] && i < |f.names| && j < |f.targets| && LayerLoadable(f.t, f.w, f.tpRank, f.names[i])
    requires var slot := LoadSlot(f.t, f.w, f.tpRank, f.names[i]);
             slot < |f.targets[j].1.slots| && f.t.nameToId[f.names[i]] < f.t.NumLayers()
             && LayerKept(f.t, f.shapes, f.host, f.targets[j].1.slots[slot], f.t.nameToId[f.names[i]], image)
    ensures AllFit(AllToDevice(T.AllDescs(f.ts)), f.gpu, f.host)
    ensures var gpu' := Applied(f.gpu, f.host, AllToDevice(T.AllDescs(f.ts)));
            var layout := f.w.caches[f.names[i]];
            T.RangesFit(gpu', L.PiecesOf(layout, f.targets[j].0)) && T.GpuImage(gpu', layout, f.targets[j].0) == image
  {
    LayerFits(f, i, j);
    LoadFits(f);
    LoadsAgree(f);
    T.LoadImages(f.ts, f.host, f.gpu, i, j);
  }

  /** A GPU byte outside every loaded block. */
  ghost predicate Outside(w: Worker, names: seq<string>, targets: seq<Target>, a: nat) {
    forall i, j :: 0 <= i < |names| && names[i] in w.caches && 0 <= j < |targets| ==>
      OutsideBlock(w.caches[names[i]], targets[j].0, a)
  }

  ghost predicate OutsideBlock(l: L.Layout, block: nat, a: nat) {
    forall p :: 0 <= p < |L.PiecesOf(l, block)| ==> !Contains(L.PiecesOf(l, block)[p], a)
  }

  lemma LoadKeepsOutside(f: Fetch, a: nat)
    requires f.Ready() && a < |f.gpu| && Outside(f.w, f.names, f.targets, a)
    ensures AllFit(AllToDevice(T.AllDescs(f.ts)), f.gpu, f.host)
    ensures Applied(f.gpu, f.host, AllToDevice(T.AllDescs(f.ts)))[a] == f.gpu[a]
  {
    LoadFits(f);
    forall i: nat, j: nat, p: nat | T.IsPiece(f.ts, i, j, p) ensures !Covers(ToDevice(T.DescAt(f.ts, i, j, p)), a) {
      LayerFits(f, i, j);
      T.PieceSizesMatch(f.w.caches[f.names[i]], f.targets[j].0);
      assert OutsideBlock(f.w.caches[f.names[i]], f.targets[j].0, a);
      assert !Contains(L.PiecesOf(f.w.caches[f.names[i]], f.targets[j].0)[p], a);
    }
    T.LoadFrame(f.ts, f.host, f.gpu, a);
  }
}
