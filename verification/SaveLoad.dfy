/**
 One save, from the request to the deliveries it makes (pegaflow-core/src/offload.rs):
 what is left to save, what the copy puts into host memory, and which GPU bytes
 every delivery carries.
 */
module SaveLoad {
  import opened Prelude
  import opened Blocks
  import opened InsertEntries
  import opened Memory
  import opened Topology
  import opened SavePlan
  import opened Placement
  import opened Pipeline
  import T = Transfer
  import L = Layout

  // ---------------------------------------------------------------------------
  // What the store is handed comes from the plan's layers
  // ---------------------------------------------------------------------------

  ghost predicate Built(entries: seq<Entry>, ns: string, layers: seq<SaveLayer>) {
    && Parallel(layers)
    && (SharesOrder(layers) ==> IsOrdered(entries, ns, layers))
    && (!SharesOrder(layers) ==> IsGrouped(entries, ns, Offers(layers)))
  }

  lemma BuiltTriples(entries: seq<Entry>, ns: string, layers: seq<SaveLayer>, o: Offer)
    requires Built(entries, ns, layers)
    ensures Occurrences(entries, o) == multiset(Offers(layers))[o]
  {
    if SharesOrder(layers) {
      OrderedTriples(entries, ns, layers, o);
    } else {
      GroupedTriples(entries, ns, Offers(layers), o);
    }
  }

  lemma {:induction false} ImageOccurs(entries: seq<Entry>, k: nat, j: nat)
    requires k < |entries| && j < |entries[k].images|
    ensures Occurrences(entries, Offer(entries[k].key.hash, entries[k].images[j])) > 0
  {
    var n := |entries| - 1;
    if k < n {
      ImageOccurs(entries[..n], k, j);
    } else {
      assert entries[k].images[j] in multiset(entries[k].images);
    }
  }

  lemma {:induction false} OccursInImage(entries: seq<Entry>, o: Offer) returns (k: nat, j: nat)
    requires Occurrences(entries, o) > 0
    ensures k < |entries| && j < |entries[k].images| && o == Offer(entries[k].key.hash, entries[k].images[j])
  {
    var n := |entries| - 1;
    if entries[n].key.hash == o.hash && o.image in entries[n].images {
      k := n;
      j :| 0 <= j < |entries[n].images| && entries[n].images[j] == o.image;
    } else {
      k, j := OccursInImage(entries[..n], o);
    }
  }

  function LayerOffer(s: SaveLayer, j: nat): Offer
    requires j < |s.blocks| && j < |s.hashes|
  {
    Offer(s.hashes[j], (s.slotId, s.blocks[j]))
  }

  lemma {:induction false} OfferOrigin(layers: seq<SaveLayer>, o: Offer) returns (k: nat, j: nat)
    requires Parallel(layers) && o in Offers(layers)
    ensures k < |layers| && j < |layers[k].blocks| && o == LayerOffer(layers[k], j)
  {
    var n := |layers| - 1;
    if o in LayerOffers(layers[n]) {
      k := n;
      j :| 0 <= j < |layers[n].blocks| && LayerOffers(layers[n])[j] == o;
    } else {
      k, j := OfferOrigin(layers[..n], o);
    }
  }

  lemma {:induction false} OfferListed(layers: seq<SaveLayer>, k: nat, j: nat)
    requires Parallel(layers) && k < |layers| && j < |layers[k].blocks|
    ensures LayerOffer(layers[k], j) in Offers(layers)
  {
    var n := |layers| - 1;
    if k < n {
      OfferListed(layers[..n], k, j);
    } else {
      assert LayerOffers(layers[n])[j] in LayerOffers(layers[n]);
    }
  }

  lemma {:induction false} DeliveryOfEntry(entries: seq<Entry>, numa: nat, i: nat) returns (k: nat, j: nat)
    requires i < |BatchOffers(entries, numa)|
    ensures k < |entries| && j < |entries[k].images|
    ensures BatchOffers(entries, numa)[i] == EntryOffers(entries[k], numa)[j]
  {
    var n := |entries| - 1;
    var before := BatchOffers(entries[..n], numa);
    if i < |before| {
      k, j := DeliveryOfEntry(entries[..n], numa, i);
    } else {
      k, j := n, i - |before|;
    }
  }

  lemma {:induction false} EntryDelivered(entries: seq<Entry>, numa: nat, k: nat, j: nat)
    requires k < |entries| && j < |entries[k].images|
    ensures EntryOffers(entries[k], numa)[j] in BatchOffers(entries, numa)
  {
    var n := |entries| - 1;
    if k < n {
      EntryDelivered(entries[..n], numa, k, j);
    } else {
      assert EntryOffers(entries[n], numa)[j] in EntryOffers(entries[n], numa);
    }
  }

  lemma EntryNamespace(entries: seq<Entry>, ns: string, layers: seq<SaveLayer>, k: nat)
    requires Built(entries, ns, layers) && k < |entries|
    ensures entries[k].key.namespace == ns
  {
    if !SharesOrder(layers) {
      assert Keyed(entries, ns);
    }
  }

  function LayerDelivery(ns: string, s: SaveLayer, j: nat, numa: nat): Delivery
    requires j < |s.blocks| && j < |s.hashes|
  {
    Delivery(BlockKey(ns, s.hashes[j]), SlotInsert(s.slotId, s.blocks[j], numa))
  }

  /** Every delivery is one block of one saved layer. */
  lemma DeliveryOrigin(entries: seq<Entry>, ns: string, layers: seq<SaveLayer>, numa: nat, i: nat)
    returns (k: nat, j: nat)
    requires Built(entries, ns, layers) && i < |BatchOffers(entries, numa)|
    ensures k < |layers| && j < |layers[k].blocks|
    ensures BatchOffers(entries, numa)[i] == LayerDelivery(ns, layers[k], j, numa)
  {
    var e, m := DeliveryOfEntry(entries, numa, i);
    var o := Offer(entries[e].key.hash, entries[e].images[m]);
    ImageOccurs(entries, e, m);
    BuiltTriples(entries, ns, layers, o);
    assert o in multiset(Offers(layers));
    EntryNamespace(entries, ns, layers, e);
    k, j := OfferOrigin(layers, o);
  }

  /** Every block of every saved layer is delivered. */
  lemma LayerDelivered(entries: seq<Entry>, ns: string, layers: seq<SaveLayer>, numa: nat, k: nat, j: nat)
    requires Built(entries, ns, layers) && k < |layers| && j < |layers[k].blocks|
    ensures LayerDelivery(ns, layers[k], j, numa) in BatchOffers(entries, numa)
  {
    var o := LayerOffer(layers[k], j);
    OfferListed(layers, k, j);
    BuiltTriples(entries, ns, layers, o);
    assert o in multiset(Offers(layers));
    var e, m := OccursInImage(entries, o);
    EntryNamespace(entries, ns, layers, e);
    EntryDelivered(entries, numa, e, m);
  }

  lemma EntriesBounded(entries: seq<Entry>, ns: string, layers: seq<SaveLayer>, total: nat)
    requires Built(entries, ns, layers) && forall s :: s in layers ==> s.slotId < total
    ensures EntriesInRange(entries, total)
  {
    forall e, m | 0 <= e < |entries| && 0 <= m < |entries[e].images|
      ensures entries[e].images[m].0 < total
    {
      var o := Offer(entries[e].key.hash, entries[e].images[m]);
      ImageOccurs(entries, e, m);
      BuiltTriples(entries, ns, layers, o);
      assert o in multiset(Offers(layers));
      var k, j := OfferOrigin(layers, o);
      assert layers[k] in layers;
    }
  }

  // ---------------------------------------------------------------------------
  // The first delivery for a key and slot
  // ---------------------------------------------------------------------------

  predicate DeliveredAt(history: seq<Delivery>, key: BlockKey, slot: nat, k: nat) {
    k < |history| && history[k].key == key && history[k].insert.slot == slot
  }

  /** The first position from `from` to `upTo` that delivers a key and slot. */
  function FirstDelivered(history: seq<Delivery>, from: nat, upTo: nat, key: BlockKey, slot: nat): (r: Option<nat>)
    requires upTo <= |history|
    ensures r.Some? ==> from <= r.value < upTo && DeliveredAt(history, key, slot, r.value)
  {
    if upTo <= from then None
    else
      var before := FirstDelivered(history, from, upTo - 1, key, slot);
      if before.Some? then before
      else if DeliveredAt(history, key, slot, upTo - 1) then Some(upTo - 1)
      else None
  }

  lemma {:induction false} FirstDeliveredIsFirst(history: seq<Delivery>, from: nat, upTo: nat, key: BlockKey,
                                                 slot: nat, k: nat)
    requires upTo <= |history| && from <= k < upTo && DeliveredAt(history, key, slot, k)
    ensures var r := FirstDelivered(history, from, upTo, key, slot); r.Some? && r.value <= k
  {
    if k < upTo - 1 {
      FirstDeliveredIsFirst(history, from, upTo - 1, key, slot, k);
    }
  }

  /** The same first delivery, found through the key's stream. */
  lemma FirstInStream(history: seq<Delivery>, from: nat, upTo: nat, key: BlockKey, slot: nat)
    requires upTo <= |history|
    ensures var s, first := IndicesIn(history, from, upTo, key), FirstDelivered(history, from, upTo, key, slot);
            && (Offered(InsertsAt(history, s), slot) <==> first.Some?)
            && (first.Some? ==> FirstAt(history, s, slot) == first.value)
  {
    var s, first := IndicesIn(history, from, upTo, key), FirstDelivered(history, from, upTo, key, slot);
    var inserts := InsertsAt(history, s);
    if first.Some? {
      IndicesComplete(history, from, upTo, key, first.value);
      var i :| 0 <= i < |s| && s[i] == first.value;
      assert inserts[i].slot == slot;
      IndicesOrdered(history, from, upTo, key);
      var f := FirstOffer(inserts, slot);
      assert f <= i;
      FirstDeliveredIsFirst(history, from, upTo, key, slot, s[f]);
    } else if Offered(inserts, slot) {
      FirstDeliveredIsFirst(history, from, upTo, key, slot, s[FirstOffer(inserts, slot)]);
    }
  }

  predicate Increasing(s: Stream) { forall i, j :: 0 <= i < j < |s| ==> s[i] < s[j] }

  lemma {:induction false} IndicesOrdered(history: seq<Delivery>, from: nat, upTo: nat, key: BlockKey)
    requires upTo <= |history|
    ensures Increasing(IndicesIn(history, from, upTo, key))
  {
    if from < upTo {
      IndicesOrdered(history, from, upTo - 1, key);
    }
  }

  // ---------------------------------------------------------------------------
  // The first delivery of a batch is what the batch stores first
  // ---------------------------------------------------------------------------

  lemma StreamSnoc(entries: seq<Entry>, e: Entry, h: Hash)
    ensures StreamOf(entries + [e], h) == StreamOf(entries, h) + (if e.key.hash == h then e.images else [])
  {
    if entries == [] {
      assert entries + [e] == [e];
      assert [e][1..] == [];
    } else {
      StreamSnoc(entries[1..], e, h);
      assert (entries + [e])[1..] == entries[1..] + [e];
    }
  }

  /** The block of a first delivery, if there is one. */
  function DeliveredBlock(history: seq<Delivery>, first: Option<nat>): Option<RawBlock>
    requires first.Some? ==> first.value < |history|
  {
    if first.Some? then Some(history[first.value].insert.block) else None
  }

  /** Within an entry, the first delivery for a slot is its first image for it. */
  lemma {:induction false} FirstInEntry(mid: seq<Delivery>, e: Entry, numa: nat, n: nat, key: BlockKey, slot: nat)
    requires n <= |e.images|
    ensures var after := mid + EntryOffers(e, numa);
            DeliveredBlock(after, FirstDelivered(after, |mid|, |mid| + n, key, slot)) ==
              if e.key == key then FirstFor(e.images[..n], slot) else None
  {
    if n > 0 {
      var after := mid + EntryOffers(e, numa);
      FirstInEntry(mid, e, numa, n - 1, key, slot);
      assert after[|mid| + n - 1] == EntryOffers(e, numa)[n - 1];
      assert e.images[..n] == e.images[..n - 1] + [e.images[n - 1]];
      FirstForConcat(e.images[..n - 1], [e.images[n - 1]], slot);
      assert FirstFor([e.images[n - 1]][1..], slot) == None;
    }
  }

  lemma {:induction false} FirstDeliveredSplit(history: seq<Delivery>, from: nat, mid: nat, upTo: nat, key: BlockKey,
                                               slot: nat)
    requires from <= mid <= upTo <= |history|
    ensures FirstDelivered(history, from, upTo, key, slot) ==
      var first := FirstDelivered(history, from, mid, key, slot);
      if first.Some? then first else FirstDelivered(history, mid, upTo, key, slot)
  {
    if mid < upTo {
      FirstDeliveredSplit(history, from, mid, upTo - 1, key, slot);
    }
  }

  lemma {:induction false} FirstDeliveredStable(history: seq<Delivery>, more: seq<Delivery>, from: nat, upTo: nat,
                                                key: BlockKey, slot: nat)
    requires upTo <= |history|
    ensures FirstDelivered(history + more, from, upTo, key, slot) == FirstDelivered(history, from, upTo, key, slot)
  {
    if from < upTo {
      FirstDeliveredStable(history, more, from, upTo - 1, key, slot);
    }
  }

  lemma {:induction false} OtherKey(history: seq<Delivery>, from: nat, upTo: nat, key: BlockKey, slot: nat)
    requires upTo <= |history| && forall k :: from <= k < upTo ==> history[k].key != key
    ensures FirstDelivered(history, from, upTo, key, slot).None?
  {
    if from < upTo {
      OtherKey(history, from, upTo - 1, key, slot);
    }
  }

  /** An entry adds a first delivery only where there was none. */
  lemma FirstAfterEntry(mid: seq<Delivery>, e: Entry, numa: nat, from: nat, key: BlockKey, slot: nat)
    requires from <= |mid|
    ensures var after, first := mid + EntryOffers(e, numa), FirstDelivered(mid, from, |mid|, key, slot);
            DeliveredBlock(after, FirstDelivered(after, from, |after|, key, slot)) ==
              if first.Some? then DeliveredBlock(mid, first)
              else if e.key == key then FirstFor(e.images, slot) else None
  {
    var after := mid + EntryOffers(e, numa);
    FirstDeliveredSplit(after, from, |mid|, |after|, key, slot);
    FirstDeliveredStable(mid, EntryOffers(e, numa), from, |mid|, key, slot);
    FirstInEntry(mid, e, numa, |e.images|, key, slot);
    assert e.images[..|e.images|] == e.images;
  }

  /** What a batch's first delivery for a key and slot brings. */
  function FirstBrought(history: seq<Delivery>, entries: seq<Entry>, numa: nat, key: BlockKey,
                        slot: nat): Option<RawBlock> {
    var after := history + BatchOffers(entries, numa);
    DeliveredBlock(after, FirstDelivered(after, |history|, |after|, key, slot))
  }

  lemma FirstBroughtSnoc(history: seq<Delivery>, entries: seq<Entry>, e: Entry, numa: nat, key: BlockKey, slot: nat)
    ensures FirstBrought(history, entries + [e], numa, key, slot) ==
      if FirstBrought(history, entries, numa, key, slot).Some? then FirstBrought(history, entries, numa, key, slot)
      else if e.key == key then FirstFor(e.images, slot) else None
  {
    var mid := history + BatchOffers(entries, numa);
    assert (entries + [e])[..|entries|] == entries;
    assert history + BatchOffers(entries + [e], numa) == mid + EntryOffers(e, numa);
    FirstAfterEntry(mid, e, numa, |history|, key, slot);
  }

  /** It is the first image of the hash's stream. */
  lemma {:induction false} FirstInBatch(history: seq<Delivery>, entries: seq<Entry>, numa: nat, ns: string, h: Hash,
                                        slot: nat)
    requires forall e :: e in entries ==> e.key.namespace == ns
    ensures FirstBrought(history, entries, numa, BlockKey(ns, h), slot) == FirstFor(StreamOf(entries, h), slot)
  {
    if entries != [] {
      var n := |entries| - 1;
      assert entries[n] in entries;
      FirstInBatch(history, entries[..n], numa, ns, h, slot);
      FirstBroughtSnoc(history, entries[..n], entries[n], numa, BlockKey(ns, h), slot);
      StreamFirstSnoc(entries[..n], entries[n], h, slot);
      assert entries == entries[..n] + [entries[n]];
    }
  }

  lemma StreamFirstSnoc(entries: seq<Entry>, e: Entry, h: Hash, slot: nat)
    ensures FirstFor(StreamOf(entries + [e], h), slot) ==
      if FirstFor(StreamOf(entries, h), slot).Some? then FirstFor(StreamOf(entries, h), slot)
      else if e.key.hash == h then FirstFor(e.images, slot) else None
  {
    StreamSnoc(entries, e, h);
    FirstForConcat(StreamOf(entries, h), if e.key.hash == h then e.images else [], slot);
  }

  lemma BuiltFirst(history: seq<Delivery>, entries: seq<Entry>, numa: nat, ns: string, layers: seq<SaveLayer>,
                   h: Hash, slot: nat)
    requires Built(entries, ns, layers)
    ensures FirstBrought(history, entries, numa, BlockKey(ns, h), slot) == BlockAt(layers, FirstStored(layers, slot, h))
  {
    forall e | e in entries ensures e.key.namespace == ns {
      var k :| 0 <= k < |entries| && entries[k] == e;
      EntryNamespace(entries, ns, layers, k);
    }
    FirstInBatch(history, entries, numa, ns, h, slot);
    if SharesOrder(layers) {
      FastFirst(entries, ns, layers, h, slot);
    } else {
      SlowFirst(entries, ns, layers, h, slot);
    }
  }

  lemma OnlyNamespace(history: seq<Delivery>, entries: seq<Entry>, numa: nat, ns: string, layers: seq<SaveLayer>,
                      key: BlockKey, slot: nat)
    requires Built(entries, ns, layers) && key.namespace != ns
    ensures FirstBrought(history, entries, numa, key, slot).None?
  {
    var after := history + BatchOffers(entries, numa);
    forall i | |history| <= i < |after| ensures after[i].key != key {
      var k, j := DeliveryOrigin(entries, ns, layers, numa, i - |history|);
    }
    OtherKey(after, |history|, |after|, key, slot);
  }

  // ---------------------------------------------------------------------------
  // A save under way
  // ---------------------------------------------------------------------------

  /** The whole request resolves. */
  predicate Resolves(t: Topology, w: Worker, tpRank: nat, saves: seq<LayerSave>)
    requires SlotKnown(t)
  {
    forall i :: 0 <= i < |saves| ==> Resolvable(t, w, tpRank, saves[i])
  }

  /** What is left to save once resident blocks are dropped. */
  function Pending(t: Topology, w: Worker, tpRank: nat, saves: seq<LayerSave>, ns: string,
                   resident: set<BlockKey>): seq<Ctx>
    requires SlotKnown(t) && Resolves(t, w, tpRank, saves)
  {
    ToSave(Contexts(t, w, tpRank, saves), ns, resident)
  }

  lemma PendingSound(t: Topology, shapes: seq<seq<nat>>, w: Worker, tpRank: nat, saves: seq<LayerSave>, ns: string,
                     resident: set<BlockKey>)
    requires Sound(t, shapes) && WorkerSound(t, shapes, w) && Resolves(t, w, tpRank, saves)
    ensures var ctxs := Pending(t, w, tpRank, saves, ns, resident);
            && AllSound(t, shapes, w, tpRank, ctxs) && AllRequested(saves, ctxs)
            && (t.page.Some? && ctxs != [] ==> ctxs[0].slot < |t.page.value.shardPageSizes|)
  {
    ContextsSound(t, shapes, w, tpRank, saves);
    ContextsRequested(t, w, tpRank, saves, |saves|);
    assert saves[..|saves|] == saves;
    ToSaveSound(t, shapes, w, tpRank, saves, Contexts(t, w, tpRank, saves), ns, resident);
    FirstSlotKnown(t, shapes, w, tpRank, Pending(t, w, tpRank, saves, ns, resident));
  }

  /** What is pending for a layer under a hash is what was asked for first, unless the block is resident. */
  lemma PendingFirst(t: Topology, w: Worker, tpRank: nat, saves: seq<LayerSave>, ns: string, resident: set<BlockKey>,
                     n: string, h: Hash)
    requires SlotKnown(t) && IdsSound(t) && Resolves(t, w, tpRank, saves) && n in t.nameToId
    ensures FirstCarried(Pending(t, w, tpRank, saves, ns, resident), t.nameToId[n], h) ==
      if BlockKey(ns, h) in resident then None else FirstAsked(saves, n, h)
  {
    ContextsCarryFirst(t, w, tpRank, saves, n, h);
    ToSaveCarriesFirst(Contexts(t, w, tpRank, saves), ns, resident, t.nameToId[n], h);
  }

  lemma PendingCarries(t: Topology, w: Worker, tpRank: nat, saves: seq<LayerSave>, ns: string, resident: set<BlockKey>,
                       slot: nat, h: Hash)
    requires SlotKnown(t) && Resolves(t, w, tpRank, saves)
    ensures Carries(Pending(t, w, tpRank, saves, ns, resident), slot, h)
       <==> BlockKey(ns, h) !in resident && Asks(t, w, tpRank, saves, slot, h)
  {
    ContextsCarry(t, w, tpRank, saves, slot, h);
    ToSaveCarries(Contexts(t, w, tpRank, saves), ns, resident, slot, h);
  }

  /**
   A save between its phases: the request, what was resident when it was
   planned, where it writes, and the GPU memory it copied once it has.
   */
  datatype Ticket = Ticket(w: Worker, tpRank: nat, saves: seq<LayerSave>, resident: set<BlockKey>, plan: Plan,
                           copied: Option<Mem>)

  /** The plan is for what is pending, writes only free memory and stores everything. */
  ghost predicate Planned(t: Topology, shapes: seq<seq<nat>>, ns: string, k: Ticket, hostLen: nat, live: set<nat>) {
    && Sound(t, shapes) && WorkerSound(t, shapes, k.w) && Resolves(t, k.w, k.tpRank, k.saves)
    && k.tpRank == k.w.tpRank
    && var ctxs := Pending(t, k.w, k.tpRank, k.saves, ns, k.resident);
       && ctxs != []
       && Good(k.plan, t, shapes, ctxs, hostLen, live)
       && StoresExactly(k.plan, ctxs) && StoresFirst(k.plan, t, ctxs)
  }

  // ---------------------------------------------------------------------------
  // The copy
  // ---------------------------------------------------------------------------

  /** A worker's registered regions lie in its device memory. */
  ghost predicate GpuHolds(w: Worker, gpuLen: nat) {
    forall n :: n in w.caches ==> w.caches[n].dataPtr + w.caches[n].sizeBytes <= gpuLen
  }

  ghost predicate IsTouched(ts: seq<T.LayerTransfer>, a: nat)
    requires T.Ready(ts)
  {
    exists t: nat, b: nat, p: nat :: T.IsPiece(ts, t, b, p) && Contains(HostRange(T.DescAt(ts, t, b, p)), a)
  }

  /** The host bytes a plan writes. */
  ghost function Touched(ts: seq<T.LayerTransfer>, hostLen: nat): set<nat> {
    if T.Ready(ts) then set a | 0 <= a < hostLen && IsTouched(ts, a) else {}
  }

  /** The device side of a save stays inside the registered regions. */
  lemma PieceOnGpu(l: L.Layout, block: nat, p: nat, gpuLen: nat)
    requires L.Accepted(l) && block < l.numBlocks && p < |T.PieceSizes(l)| && l.dataPtr + l.sizeBytes <= gpuLen
    ensures |L.PiecesOf(l, block)| == |T.PieceSizes(l)|
    ensures L.PiecesOf(l, block)[p].addr + T.PieceSizes(l)[p] <= gpuLen
  {
    T.PieceSizesMatch(l, block);
    L.PiecesInRegion(l, block, p);
  }

  /** A good plan writes none of the live bytes, and its goodness does not depend on which other bytes are live. */
  lemma GoodWritesFree(plan: Plan, t: Topology, shapes: seq<seq<nat>>, ctxs: seq<Ctx>, hostLen: nat, live: set<nat>)
    requires Good(plan, t, shapes, ctxs, hostLen, live)
    ensures Touched(plan.transfers, hostLen) !! live && Good(plan, t, shapes, ctxs, hostLen, {})
  {
    var ts := plan.transfers;
    forall c: nat, b: nat, p: nat | T.IsPiece(ts, c, b, p)
      ensures RangeFresh(HostRange(T.DescAt(ts, c, b, p)), hostLen, {})
    {
      assert RangeFresh(HostRange(T.DescAt(ts, c, b, p)), hostLen, live);
    }
    forall a | a in Touched(ts, hostLen) ensures a !in live {
      var c: nat, b: nat, p: nat :| T.IsPiece(ts, c, b, p) && Contains(HostRange(T.DescAt(ts, c, b, p)), a);
      assert RangeFresh(HostRange(T.DescAt(ts, c, b, p)), hostLen, live);
    }
  }

  /** A good plan can run. */
  lemma SaveFits(plan: Plan, t: Topology, shapes: seq<seq<nat>>, w: Worker, tpRank: nat, ctxs: seq<Ctx>, host: Mem,
                 gpu: Mem)
    requires AllSound(t, shapes, w, tpRank, ctxs) && Good(plan, t, shapes, ctxs, |host|, {}) && GpuHolds(w, |gpu|)
    ensures T.DescsFit(plan.transfers, host, gpu) && T.SaveAgrees(plan.transfers, host, gpu)
    ensures AllFit(AllToHost(T.AllDescs(plan.transfers)), host, gpu)
  {
    var ts := plan.transfers;
    forall c: nat, b: nat, p: nat | T.IsPiece(ts, c, b, p)
      ensures T.DescFits(T.DescAt(ts, c, b, p), host, gpu)
    {
      assert CtxSound(t, shapes, w, tpRank, ctxs[c]) && CopiesContext(ts[c], ctxs[c]);
      PieceOnGpu(ts[c].layout, ts[c].blocks[b].blockIdx, p, |gpu|);
      assert RangeFresh(HostRange(T.DescAt(ts, c, b, p)), |host|, {});
    }
    forall c: nat, b: nat, p: nat, c': nat, b': nat, p': nat, a: nat
      | T.IsPiece(ts, c, b, p) && T.IsPiece(ts, c', b', p')
        && Covers(ToHost(T.DescAt(ts, c, b, p)), a) && Covers(ToHost(T.DescAt(ts, c', b', p')), a)
      ensures T.DescAt(ts, c, b, p) == T.DescAt(ts, c', b', p')
    {
      assert L.Overlap(HostRange(T.DescAt(ts, c, b, p)), HostRange(T.DescAt(ts, c', b', p')));
    }
    T.FitBothWays(ts, host, gpu);
  }

  /** The host image of a transferred block equals its GPU image. */
  ghost predicate BlockCopied(tr: T.LayerTransfer, i: nat, host: Mem, gpu: Mem)
    requires i < |tr.blocks|
  {
    var blk, sizes := tr.blocks[i], T.PieceSizes(tr.layout);
    && blk.block.Owned? && blk.block.Valid()
    && T.RangesFit(gpu, L.PiecesOf(tr.layout, blk.blockIdx))
    && T.RangesFit(host, T.HostRanges(blk.block.owned, 0, sizes))
    && T.Gather(host, T.HostRanges(blk.block.owned, 0, sizes)) == T.GpuImage(gpu, tr.layout, blk.blockIdx)
  }

  ghost predicate AllCopied(ts: seq<T.LayerTransfer>, host: Mem, gpu: Mem) {
    forall c, i :: 0 <= c < |ts| && 0 <= i < |ts[c].blocks| ==> BlockCopied(ts[c], i, host, gpu)
  }

  lemma CopyDone(plan: Plan, t: Topology, shapes: seq<seq<nat>>, w: Worker, tpRank: nat, ctxs: seq<Ctx>, host: Mem,
                 gpu: Mem)
    requires AllSound(t, shapes, w, tpRank, ctxs) && Good(plan, t, shapes, ctxs, |host|, {}) && GpuHolds(w, |gpu|)
    ensures AllFit(AllToHost(T.AllDescs(plan.transfers)), host, gpu)
    ensures AllCopied(plan.transfers, Applied(host, gpu, AllToHost(T.AllDescs(plan.transfers))), gpu)
  {
    var ts := plan.transfers;
    SaveFits(plan, t, shapes, w, tpRank, ctxs, host, gpu);
    var after := Applied(host, gpu, AllToHost(T.AllDescs(ts)));
    forall c, i | 0 <= c < |ts| && 0 <= i < |ts[c].blocks| ensures BlockCopied(ts[c], i, after, gpu) {
      assert CopiesContext(ts[c], ctxs[c]);
      T.SaveImages(ts, host, gpu, c, i);
    }
  }

  /** The copy changes only what the plan writes. */
  lemma CopyKeeps(ts: seq<T.LayerTransfer>, host: Mem, gpu: Mem, a: nat)
    requires T.Ready(ts) && T.DescsFit(ts, host, gpu) && a < |host| && a !in Touched(ts, |host|)
    ensures AllFit(AllToHost(T.AllDescs(ts)), host, gpu) && Applied(host, gpu, AllToHost(T.AllDescs(ts)))[a] == host[a]
  {
    forall c: nat, b: nat, p: nat | T.IsPiece(ts, c, b, p) ensures !Covers(ToHost(T.DescAt(ts, c, b, p)), a) {
      assert !Contains(HostRange(T.DescAt(ts, c, b, p)), a);
    }
    T.SaveFrame(ts, host, gpu, a);
  }

  lemma TransferTouches(ts: seq<T.LayerTransfer>, c: nat, i: nat, p: nat, a: nat, hostLen: nat)
    requires T.Ready(ts) && c < |ts| && i < |ts[c].blocks| && p < |T.PieceSizes(ts[c].layout)| && a < hostLen
    requires ts[c].blocks[i].block.Owned?
    requires Contains(T.HostRanges(ts[c].blocks[i].block.owned, 0, T.PieceSizes(ts[c].layout))[p], a)
    ensures a in Touched(ts, hostLen)
  {
    assert T.IsPiece(ts, c, i, p) && Contains(HostRange(T.DescAt(ts, c, i, p)), a);
  }

  /** Writes elsewhere do not undo a copy. */
  lemma CopiedFrame(ts: seq<T.LayerTransfer>, host: Mem, host': Mem, gpu: Mem)
    requires T.Ready(ts) && AllCopied(ts, host, gpu) && |host| == |host'|
    requires forall a :: a in Touched(ts, |host|) ==> host'[a] == host[a]
    ensures AllCopied(ts, host', gpu)
  {
    forall c, i | 0 <= c < |ts| && 0 <= i < |ts[c].blocks| ensures BlockCopied(ts[c], i, host', gpu) {
      assert BlockCopied(ts[c], i, host, gpu);
      var ranges := T.HostRanges(ts[c].blocks[i].block.owned, 0, T.PieceSizes(ts[c].layout));
      forall p, a: nat | 0 <= p < |ranges| && ranges[p].addr <= a < ranges[p].addr + ranges[p].bytes
        ensures host[a] == host'[a]
      {
        assert Contains(ranges[p], a);
        TransferTouches(ts, c, i, p, a, |host|);
      }
      T.GatherFrame(host, host', ranges);
    }
  }

  // ---------------------------------------------------------------------------
  // What the host keeps
  // ---------------------------------------------------------------------------

  /** Host addresses of layer `l` of a stored slot. */
  function RangesOf(t: Topology, shapes: seq<seq<nat>>, raw: RawBlock, l: nat): seq<L.Range>
    requires |shapes| == t.NumLayers() && l < |shapes| && 1 <= |shapes[l]| <= 2 && raw.segments != []
    requires t.page.Some? ==> l < |t.page.value.layerOffsets|
  {
    T.HostRanges(raw, OffsetIn(t, l), shapes[l])
  }

  /** Host memory holds `image` as layer `l` of a stored slot. */
  ghost predicate LayerKept(t: Topology, shapes: seq<seq<nat>>, host: Mem, raw: RawBlock, l: nat, image: Mem)
    requires Sound(t, shapes) && l < t.NumLayers()
  {
    && raw.segments != []
    && T.RangesFit(host, RangesOf(t, shapes, raw, l)) && T.Gather(host, RangesOf(t, shapes, raw, l)) == image
  }

  /** Host memory holds the image of every layer of a delivered slot. */
  ghost predicate Keeps(t: Topology, shapes: seq<seq<nat>>, host: Mem, d: SlotInsert, image: map<nat, Mem>)
    requires Sound(t, shapes)
  {
    forall l: nat :: StoredIn(t, l, d.slot) ==> l in image && LayerKept(t, shapes, host, d.block, l, image[l])
  }

  /** A byte of host memory that a delivered slot occupies. */
  ghost predicate Occupies(t: Topology, shapes: seq<seq<nat>>, d: SlotInsert, a: nat)
    requires Sound(t, shapes)
  {
    exists l: nat :: StoredIn(t, l, d.slot) && LayerOccupies(t, shapes, d.block, l, a)
  }

  ghost predicate LayerOccupies(t: Topology, shapes: seq<seq<nat>>, raw: RawBlock, l: nat, a: nat)
    requires Sound(t, shapes) && l < t.NumLayers()
  {
    && raw.segments != []
    && exists p :: 0 <= p < |RangesOf(t, shapes, raw, l)| && Contains(RangesOf(t, shapes, raw, l)[p], a)
  }

  lemma LayerKeptFrame(t: Topology, shapes: seq<seq<nat>>, host: Mem, host': Mem, raw: RawBlock, l: nat, image: Mem)
    requires Sound(t, shapes) && l < t.NumLayers() && LayerKept(t, shapes, host, raw, l, image) && |host| == |host'|
    requires forall a: nat :: a < |host| && LayerOccupies(t, shapes, raw, l, a) ==> host'[a] == host[a]
    ensures LayerKept(t, shapes, host', raw, l, image)
  {
    var ranges := RangesOf(t, shapes, raw, l);
    forall p, a: nat | 0 <= p < |ranges| && ranges[p].addr <= a < ranges[p].addr + ranges[p].bytes
      ensures host[a] == host'[a]
    {
      assert Contains(ranges[p], a);
      assert LayerOccupies(t, shapes, raw, l, a);
    }
    T.GatherFrame(host, host', ranges);
  }

  /** Occupied bytes that are not written keep their image. */
  lemma KeepsFrame(t: Topology, shapes: seq<seq<nat>>, host: Mem, host': Mem, d: SlotInsert, image: map<nat, Mem>)
    requires Sound(t, shapes) && Keeps(t, shapes, host, d, image) && |host| == |host'|
    requires forall a: nat :: a < |host| && Occupies(t, shapes, d, a) ==> host'[a] == host[a]
    ensures Keeps(t, shapes, host', d, image)
  {
    forall l: nat | StoredIn(t, l, d.slot) ensures l in image && LayerKept(t, shapes, host', d.block, l, image[l]) {
      assert forall a: nat :: LayerOccupies(t, shapes, d.block, l, a) ==> Occupies(t, shapes, d, a);
      LayerKeptFrame(t, shapes, host, host', d.block, l, image[l]);
    }
  }

  /** What host memory holds for a delivered slot, layer by layer. */
  ghost function ImageOf(t: Topology, shapes: seq<seq<nat>>, host: Mem, d: SlotInsert): (image: map<nat, Mem>)
    requires Sound(t, shapes)
  {
    map l | 0 <= l < t.NumLayers() && StoredIn(t, l, d.slot) && d.block.segments != []
            && T.RangesFit(host, RangesOf(t, shapes, d.block, l))
      :: T.Gather(host, RangesOf(t, shapes, d.block, l))
  }

  // ---------------------------------------------------------------------------
  // What a delivery carries
  // ---------------------------------------------------------------------------

  /** `image` is what layer `l` held on the GPU for a block that was asked to be saved under `hash`. */
  ghost predicate LayerOrigin(saves: seq<LayerSave>, t: Topology, w: Worker, gpu: Mem, l: nat, hash: Hash, image: Mem) {
    exists n: string, b: nat :: SavedAs(saves, t, w, gpu, l, hash, image, n, b)
  }

  ghost predicate SavedAs(saves: seq<LayerSave>, t: Topology, w: Worker, gpu: Mem, l: nat, hash: Hash, image: Mem,
                          n: string, b: nat) {
    && n in t.nameToId && t.nameToId[n] == l && n in w.caches
    && AskedFor(saves, n, (b, hash))
    && T.RangesFit(gpu, L.PiecesOf(w.caches[n], b))
    && T.GpuImage(gpu, w.caches[n], b) == image
  }

  /** A delivery carries GPU bytes of this request for every layer of its slot. */
  ghost predicate Origin(saves: seq<LayerSave>, t: Topology, w: Worker, gpu: Mem, d: Delivery, image: map<nat, Mem>)
    requires SlotKnown(t)
  {
    forall l: nat :: StoredIn(t, l, d.insert.slot) ==>
      l in image && LayerOrigin(saves, t, w, gpu, l, d.key.hash, image[l])
  }

  /** For layer `n`: the GPU bytes of the block the request listed first under this hash. */
  ghost predicate FirstLayerOrigin(saves: seq<LayerSave>, t: Topology, w: Worker, gpu: Mem, n: string, hash: Hash,
                                   image: map<nat, Mem>)
    requires n in t.nameToId
  {
    var first := FirstAsked(saves, n, hash);
    && n in w.caches && first.Some? && t.nameToId[n] in image
    && T.RangesFit(gpu, L.PiecesOf(w.caches[n], first.value))
    && image[t.nameToId[n]] == T.GpuImage(gpu, w.caches[n], first.value)
  }

  /** A delivery carries, for every layer of its slot, the block listed first under its hash. */
  ghost predicate FirstOrigin(saves: seq<LayerSave>, t: Topology, w: Worker, gpu: Mem, slot: nat, hash: Hash,
                              image: map<nat, Mem>)
    requires SlotKnown(t)
  {
    forall n :: n in t.nameToId && StoredIn(t, t.nameToId[n], slot) ==>
      FirstLayerOrigin(saves, t, w, gpu, n, hash, image)
  }

  /** A backed layer of a stored block is kept with the GPU bytes of its context's block. */
  lemma BackedIsKept(plan: Plan, t: Topology, shapes: seq<seq<nat>>, w: Worker, tpRank: nat, ctxs: seq<Ctx>,
                     host: Mem, gpu: Mem, s: SaveLayer, j: nat, l: nat, c: nat, i: nat)
    requires AllSound(t, shapes, w, tpRank, ctxs) && Good(plan, t, shapes, ctxs, |host|, {})
    requires AllCopied(plan.transfers, host, gpu)
    requires l < t.NumLayers() && Backs(plan, t, ctxs, s, j, l, c, i)
    ensures T.RangesFit(gpu, L.PiecesOf(ctxs[c].layout, ctxs[c].blocks[i].0))
    ensures LayerKept(t, shapes, host, s.blocks[j], l, T.GpuImage(gpu, ctxs[c].layout, ctxs[c].blocks[i].0))
    ensures forall a: nat :: a < |host| && LayerOccupies(t, shapes, s.blocks[j], l, a) ==>
      a in Touched(plan.transfers, |host|)
  {
    var ts, ctx := plan.transfers, ctxs[c];
    assert CtxSound(t, shapes, w, tpRank, ctx) && CopiesContext(ts[c], ctx);
    assert BlockCopied(ts[c], i, host, gpu);
    var ranges := T.HostRanges(ts[c].blocks[i].block.owned, 0, T.PieceSizes(ctx.layout));
    assert RangesOf(t, shapes, s.blocks[j], l) == ranges;
    forall a: nat | a < |host| && LayerOccupies(t, shapes, s.blocks[j], l, a) ensures a in Touched(ts, |host|) {
      var p :| 0 <= p < |ranges| && Contains(ranges[p], a);
      TransferTouches(ts, c, i, p, a, |host|);
    }
  }

  /** A kept layer is what `ImageOf` reads. */
  lemma KeptIsImage(t: Topology, shapes: seq<seq<nat>>, host: Mem, d: SlotInsert, l: nat, image: Mem)
    requires Sound(t, shapes) && StoredIn(t, l, d.slot) && LayerKept(t, shapes, host, d.block, l, image)
    ensures l in ImageOf(t, shapes, host, d) && ImageOf(t, shapes, host, d)[l] == image
  {
  }

  /** A layer of a stored block is kept, comes from the request and occupies only bytes the plan wrote. */
  lemma StoredLayer(plan: Plan, t: Topology, shapes: seq<seq<nat>>, w: Worker, tpRank: nat, saves: seq<LayerSave>,
                    ctxs: seq<Ctx>, host: Mem, gpu: Mem, s: SaveLayer, j: nat, d: SlotInsert, l: nat)
    requires AllSound(t, shapes, w, tpRank, ctxs) && AllRequested(saves, ctxs)
    requires Good(plan, t, shapes, ctxs, |host|, {}) && AllCopied(plan.transfers, host, gpu)
    requires s in plan.layers && j < |s.blocks| && j < |s.hashes| && d.slot == s.slotId && d.block == s.blocks[j]
    requires StoredIn(t, l, d.slot)
    ensures var image := ImageOf(t, shapes, host, d);
            && l in image && LayerKept(t, shapes, host, d.block, l, image[l])
            && LayerOrigin(saves, t, w, gpu, l, s.hashes[j], image[l])
    ensures forall a: nat :: a < |host| && LayerOccupies(t, shapes, d.block, l, a) ==>
      a in Touched(plan.transfers, |host|)
  {
    assert HasBacking(plan, t, ctxs, s, j, l);
    var c: nat, i: nat :| Backs(plan, t, ctxs, s, j, l, c, i);
    BackedIsKept(plan, t, shapes, w, tpRank, ctxs, host, gpu, s, j, l, c, i);
    var image := T.GpuImage(gpu, ctxs[c].layout, ctxs[c].blocks[i].0);
    KeptIsImage(t, shapes, host, d, l, image);
    assert CtxSound(t, shapes, w, tpRank, ctxs[c]);
    assert Requested(saves, ctxs[c]) && AskedFor(saves, ctxs[c].name, ctxs[c].blocks[i]);
    assert ctxs[c].blocks[i] == (ctxs[c].blocks[i].0, s.hashes[j]);
    assert SavedAs(saves, t, w, gpu, l, s.hashes[j], image, ctxs[c].name, ctxs[c].blocks[i].0);
  }

  /** What a save's delivery finds in host memory. */
  ghost predicate DeliveryKept(t: Topology, shapes: seq<seq<nat>>, k: Ticket, host: Mem, d: Delivery)
    requires Sound(t, shapes) && k.copied.Some?
  {
    var image := ImageOf(t, shapes, host, d.insert);
    && Keeps(t, shapes, host, d.insert, image)
    && Origin(k.saves, t, k.w, k.copied.value, d, image)
    && forall a: nat :: a < |host| && Occupies(t, shapes, d.insert, a) ==> a in Touched(k.plan.transfers, |host|)
  }

  /** The copied state of a save, ready to be inserted. */
  ghost predicate Copied(t: Topology, shapes: seq<seq<nat>>, ns: string, k: Ticket, host: Mem) {
    Planned(t, shapes, ns, k, |host|, {}) && k.copied.Some? && AllCopied(k.plan.transfers, host, k.copied.value)
  }

  /** Every delivery of a copied save is kept, and carries GPU bytes of its request. */
  lemma DeliveriesKept(t: Topology, shapes: seq<seq<nat>>, ns: string, k: Ticket, host: Mem, entries: seq<Entry>,
                       numa: nat, i: nat)
    requires Sound(t, shapes) && Copied(t, shapes, ns, k, host) && Built(entries, ns, k.plan.layers)
    requires i < |BatchOffers(entries, numa)|
    ensures DeliveryKept(t, shapes, k, host, BatchOffers(entries, numa)[i])
  {
    var d, gpu := BatchOffers(entries, numa)[i], k.copied.value;
    var at, j := DeliveryOrigin(entries, ns, k.plan.layers, numa, i);
    var s, ctxs := k.plan.layers[at], Pending(t, k.w, k.tpRank, k.saves, ns, k.resident);
    PendingSound(t, shapes, k.w, k.tpRank, k.saves, ns, k.resident);
    forall l: nat | StoredIn(t, l, d.insert.slot)
      ensures l in ImageOf(t, shapes, host, d.insert)
      ensures LayerKept(t, shapes, host, d.insert.block, l, ImageOf(t, shapes, host, d.insert)[l])
      ensures LayerOrigin(k.saves, t, k.w, gpu, l, d.key.hash, ImageOf(t, shapes, host, d.insert)[l])
      ensures forall a: nat :: a < |host| && LayerOccupies(t, shapes, d.insert.block, l, a) ==>
        a in Touched(k.plan.transfers, |host|)
    {
      StoredLayer(k.plan, t, shapes, k.w, k.tpRank, k.saves, ctxs, host, gpu, s, j, d.insert, l);
    }
  }

  /** One layer of what a save stores first. */
  lemma FirstLayer(plan: Plan, t: Topology, shapes: seq<seq<nat>>, w: Worker, tpRank: nat, saves: seq<LayerSave>,
                   ns: string, resident: set<BlockKey>, host: Mem, gpu: Mem, slot: nat, h: Hash, d: SlotInsert,
                   n: string)
    requires Sound(t, shapes) && WorkerSound(t, shapes, w) && Resolves(t, w, tpRank, saves)
    requires var ctxs := Pending(t, w, tpRank, saves, ns, resident);
             Good(plan, t, shapes, ctxs, |host|, {}) && StoresFirst(plan, t, ctxs)
    requires AllCopied(plan.transfers, host, gpu) && FirstStored(plan.layers, slot, h).Some?
    requires d.slot == slot && BlockAt(plan.layers, FirstStored(plan.layers, slot, h)) == Some(d.block)
    requires n in t.nameToId && StoredIn(t, t.nameToId[n], slot)
    ensures FirstLayerOrigin(saves, t, w, gpu, n, h, ImageOf(t, shapes, host, d))
  {
    var ctxs, l := Pending(t, w, tpRank, saves, ns, resident), t.nameToId[n];
    PendingSound(t, shapes, w, tpRank, saves, ns, resident);
    var (k, j) := FirstStored(plan.layers, slot, h).value;
    assert HasFirst(plan, t, ctxs, k, j, l);
    var c: nat, i: nat :| BacksFirst(plan, t, ctxs, k, j, l, c, i);
    BackedIsKept(plan, t, shapes, w, tpRank, ctxs, host, gpu, plan.layers[k], j, l, c, i);
    KeptIsImage(t, shapes, host, d, l, T.GpuImage(gpu, ctxs[c].layout, ctxs[c].blocks[i].0));
    assert CtxSound(t, shapes, w, tpRank, ctxs[c]);
    assert ctxs[c].name == n;
    PendingFirst(t, w, tpRank, saves, ns, resident, n, h);
  }

  /** The images of the deliveries from `from` on are what host memory holds for them. */
  ghost predicate ReadFrom(t: Topology, shapes: seq<seq<nat>>, host: Mem, history: seq<Delivery>, from: nat,
                           images: seq<map<nat, Mem>>)
    requires Sound(t, shapes)
  {
    |images| == |history| && forall i :: from <= i < |history| ==>
      images[i] == ImageOf(t, shapes, host, history[i].insert)
  }

  /**
   What a save made of one key and slot. It delivered the slot exactly if the key
   was not resident when the save was planned and the request fills the slot under
   the key's hash; its first such delivery carries, layer by layer, the GPU bytes
   of the block the request lists first.
   */
  ghost predicate SlotSaved(t: Topology, ns: string, w: Worker, tpRank: nat, saves: seq<LayerSave>,
                            resident: set<BlockKey>, gpu: Mem, was: nat, history: seq<Delivery>,
                            images: seq<map<nat, Mem>>, key: BlockKey, slot: nat)
    requires SlotKnown(t) && Resolves(t, w, tpRank, saves) && |images| == |history|
  {
    var first := FirstDelivered(history, was, |history|, key, slot);
    && (first.Some? <==> key.namespace == ns && key !in resident && Asks(t, w, tpRank, saves, slot, key.hash))
    && (first.Some? ==> FirstOrigin(saves, t, w, gpu, slot, key.hash, images[first.value]))
  }

  /** What every save makes of every key and slot, given the images its deliveries find in host memory. */
  lemma FirstDeliveryOrigin(t: Topology, shapes: seq<seq<nat>>, ns: string, k: Ticket, host: Mem,
                            history: seq<Delivery>, entries: seq<Entry>, numa: nat, images: seq<map<nat, Mem>>,
                            key: BlockKey, slot: nat)
    requires Sound(t, shapes) && Copied(t, shapes, ns, k, host) && Built(entries, ns, k.plan.layers)
    requires ReadFrom(t, shapes, host, history + BatchOffers(entries, numa), |history|, images)
    ensures SlotSaved(t, ns, k.w, k.tpRank, k.saves, k.resident, k.copied.value, |history|,
                      history + BatchOffers(entries, numa),
                      images, key, slot)
  {
    var after := history + BatchOffers(entries, numa);
    var first := FirstDelivered(after, |history|, |after|, key, slot);
    if key.namespace != ns {
      OnlyNamespace(history, entries, numa, ns, k.plan.layers, key, slot);
    } else {
      BuiltFirst(history, entries, numa, ns, k.plan.layers, key.hash, slot);
      assert key == BlockKey(ns, key.hash);
      PendingCarries(t, k.w, k.tpRank, k.saves, ns, k.resident, slot, key.hash);
      if first.Some? {
        forall n | n in t.nameToId && StoredIn(t, t.nameToId[n], slot)
          ensures FirstLayerOrigin(k.saves, t, k.w, k.copied.value, n, key.hash, images[first.value])
        {
          FirstLayer(k.plan, t, shapes, k.w, k.tpRank, k.saves, ns, k.resident, host, k.copied.value, slot, key.hash,
                     after[first.value].insert, n);
        }
      }
    }
  }
}
