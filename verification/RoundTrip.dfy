/**
 Save on one device, look up, load on another: when that hits, and which bytes
 arrive (pegaflow-core/src/offload.rs, pegaflow-core/src/storage/read_cache.rs and
 the load path of pegaflow-core/src/lib.rs).
 */
module RoundTrip {
  import opened Prelude
  import opened Blocks
  import opened InsertEntries
  import opened Memory
  import opened Topology
  import opened SavePlan
  import opened Placement
  import opened Pipeline
  import opened SaveLoad
  import opened Ledger
  import opened Phases
  import opened LoadPath
  import opened Engine
  import T = Transfer
  import L = Layout

  /** Look up a prefix of the keys, stopping at the first miss. */
  method PrefixBlocks(cache: CacheMap, keys: seq<BlockKey>) returns (blocks: seq<SealedBlock>)
    ensures |blocks| <= |keys| && forall j :: 0 <= j < |blocks| ==> keys[j] in cache && blocks[j] == cache[keys[j]]
    ensures |blocks| < |keys| ==> keys[|blocks|] !in cache
  {
    blocks := [];
    for j := 0 to |keys|
      invariant |blocks| == j && forall k :: 0 <= k < j ==> keys[k] in cache && blocks[k] == cache[keys[k]]
    {
      if keys[j] !in cache {
        return;
      }
      blocks := blocks + [cache[keys[j]]];
    }
  }

  // ---------------------------------------------------------------------------
  // When a save makes a block resident
  // ---------------------------------------------------------------------------

  /** A stream brings an image for the slot. */
  ghost predicate Has(history: seq<Delivery>, s: Stream, slot: nat) {
    (forall i :: 0 <= i < |s| ==> s[i] < |history|) && Offered(InsertsAt(history, s), slot)
  }

  /** The block has its slot pending, or the request fills it. */
  ghost predicate SlotComing(t: Topology, ns: string, q: Request, was: Book, key: BlockKey, slot: nat)
    requires SlotKnown(t) && Resolves(t, q.w, q.tpRank, q.saves)
  {
    || Has(was.history, StreamOfKey(was.shelves.pending, key), slot)
    || (key.namespace == ns && Asks(t, q.w, q.tpRank, q.saves, slot, key.hash))
  }

  /** The block is resident, or every slot of it is. */
  ghost predicate Hittable(t: Topology, ns: string, q: Request, was: Book, key: BlockKey)
    requires SlotKnown(t) && Resolves(t, q.w, q.tpRank, q.saves)
  {
    key in was.shelves.cache || forall slot: nat :: slot < t.TotalSlots() ==> SlotComing(t, ns, q, was, key, slot)
  }

  lemma PendingBounded(b: Book, total: nat, key: BlockKey)
    requires Shelved(b, total)
    ensures forall i :: 0 <= i < |StreamOfKey(b.shelves.pending, key)| ==>
      StreamOfKey(b.shelves.pending, key)[i] < |b.history|
  {
    assert key in b.shelves.inflight ==> Filled(b.shelves.inflight[key], b.history, key, b.shelves.pending[key]);
  }

  /** What the key has been offered after the save: its pending deliveries, then the save's. */
  lemma OfferedAfter(was: seq<Delivery>, now: seq<Delivery>, s: Stream, key: BlockKey, slot: nat)
    requires was <= now && forall i :: 0 <= i < |s| ==> s[i] < |was|
    ensures var full, first := s + IndicesFor(now, |was|, key), FirstDelivered(now, |was|, |now|, key, slot);
            && (Has(now, full, slot) <==> Has(was, s, slot) || first.Some?)
            && (Has(was, s, slot) ==> Has(now, full, slot) && FirstAt(now, full, slot) == FirstAt(was, s, slot))
            && (!Has(was, s, slot) && first.Some? ==> Has(now, full, slot) && FirstAt(now, full, slot) == first.value)
  {
    var more := IndicesFor(now, |was|, key);
    assert now == was + now[|was|..];
    InsertsStable(was, now[|was|..], s);
    FirstInStream(now, |was|, |now|, key, slot);
    if Has(was, s, slot) {
      FirstAtPrefix(now, s, more, slot);
    } else {
      FirstAtSuffix(now, s, more, slot);
    }
  }

  lemma SlotArrives(t: Topology, ns: string, q: Request, was: Book, now: Book, key: BlockKey, slot: nat)
    requires SaveRecorded(t, ns, q, was, now) && Shelved(was, t.TotalSlots()) && key !in q.resident
    ensures Has(now.history, OfferedTo(was.shelves.pending, now.history, |was.history|, key), slot)
       <==> SlotComing(t, ns, q, was, key, slot)
  {
    var s := StreamOfKey(was.shelves.pending, key);
    PendingBounded(was, t.TotalSlots(), key);
    OfferedAfter(was.history, now.history, s, key, slot);
    assert SlotSaved(t, ns, q.w, q.tpRank, q.saves, q.resident, q.gpu, |was.history|, now.history, now.images, key,
                     slot);
  }

  lemma SlotBySlot(history: seq<Delivery>, s: Stream, total: nat)
    requires forall i :: 0 <= i < |s| ==> s[i] < |history|
    ensures OffersAll(history, s, total) <==> forall slot: nat :: slot < total ==> Has(history, s, slot)
  {
    if forall slot: nat :: slot < total ==> Has(history, s, slot) {
      forall slot: nat | slot < total ensures Offered(InsertsAt(history, s), slot) {
        assert Has(history, s, slot);
      }
    }
  }

  /**
   After a save every key of which is admitted, a block is resident exactly if it was before or
   all its slots were coming.
   */
  lemma HitExactly(t: Topology, ns: string, q: Request, was: Book, now: Book, sealed: Seals, key: BlockKey)
    requires SaveSettled(t, ns, q, was, now, sealed, {}) && Shelved(was, t.TotalSlots())
    requires q.resident == was.shelves.cache.Keys
    ensures key in now.shelves.cache <==> Hittable(t, ns, q, was, key)
  {
    var total, full := t.TotalSlots(), OfferedTo(was.shelves.pending, now.history, |was.history|, key);
    assert KeyOutcome(was.shelves, now.shelves, |was.history|, now.history, total, sealed, {}, key);
    if key !in was.shelves.cache {
      PendingBounded(was, total, key);
      forall slot: nat | slot < total ensures Has(now.history, full, slot) <==> SlotComing(t, ns, q, was, key, slot) {
        SlotArrives(t, ns, q, was, now, key, slot);
      }
      SlotBySlot(now.history, full, total);
    }
  }

  // ---------------------------------------------------------------------------
  // Which bytes arrive
  // ---------------------------------------------------------------------------

  /** `image` is what the first delivery of a stream carried for layer `l` of the slot. */
  ghost predicate Carried(b: Book, s: Stream, slot: nat, l: nat, image: Mem) {
    && Has(b.history, s, slot)
    && var k := FirstAt(b.history, s, slot);
       k < |b.images| && l in b.images[k] && b.images[k][l] == image
  }

  /**
   The bytes a block has for layer `n` after a save: a resident block, or one
   with the slot pending, keeps what it had; otherwise they are the source GPU's
   bytes of the block the request lists first under the key's hash.
   */
  ghost predicate Arrives(t: Topology, q: Request, was: Book, key: BlockKey, n: string, slot: nat, image: Mem)
    requires n in t.nameToId
  {
    var pending, first := StreamOfKey(was.shelves.pending, key), FirstAsked(q.saves, n, key.hash);
    if key in was.shelves.origins then Carried(was, was.shelves.origins[key], slot, t.nameToId[n], image)
    else if Has(was.history, pending, slot) then Carried(was, pending, slot, t.nameToId[n], image)
    else
      && n in q.w.caches && first.Some?
      && T.RangesFit(q.gpu, L.PiecesOf(q.w.caches[n], first.value))
      && image == T.GpuImage(q.gpu, q.w.caches[n], first.value)
  }

  /** Later deliveries do not change what a stream carried first. */
  lemma CarriedBefore(was: Book, now: Book, s: Stream, slot: nat, l: nat, image: Mem)
    requires was.history <= now.history && was.images <= now.images && |was.images| == |was.history|
    requires Has(was.history, s, slot) && Carried(now, s, slot, l, image)
    ensures Carried(was, s, slot, l, image)
  {
    assert now.history == was.history + now.history[|was.history|..];
    InsertsStable(was.history, now.history[|was.history|..], s);
    assert FirstAt(now.history, s, slot) == FirstAt(was.history, s, slot);
  }

  /** The stream of a newly resident block is the beginning of everything the key was offered. */
  lemma FirstOfFull(history: seq<Delivery>, s: Stream, full: Stream, slot: nat)
    requires s <= full && Has(history, s, slot) && forall i :: 0 <= i < |full| ==> full[i] < |history|
    ensures Has(history, full, slot) && FirstAt(history, full, slot) == FirstAt(history, s, slot)
  {
    assert full == s + full[|s|..];
    FirstAtPrefix(history, s, full[|s|..], slot);
  }

  lemma NewBlockArrives(t: Topology, ns: string, q: Request, was: Book, now: Book, key: BlockKey, s: Stream,
                        n: string, slot: nat, image: Mem)
    requires SaveRecorded(t, ns, q, was, now) && Shelved(was, t.TotalSlots()) && |was.images| == |was.history|
    requires key !in q.resident && key !in was.shelves.origins && n in t.nameToId && StoredIn(t, t.nameToId[n], slot)
    requires s <= OfferedTo(was.shelves.pending, now.history, |was.history|, key)
    requires Carried(now, s, slot, t.nameToId[n], image)
    ensures Arrives(t, q, was, key, n, slot, image)
  {
    var pending := StreamOfKey(was.shelves.pending, key);
    var full := OfferedTo(was.shelves.pending, now.history, |was.history|, key);
    PendingBounded(was, t.TotalSlots(), key);
    FirstOfFull(now.history, s, full, slot);
    OfferedAfter(was.history, now.history, pending, key, slot);
    if !Has(was.history, pending, slot) {
      assert SlotSaved(t, ns, q.w, q.tpRank, q.saves, q.resident, q.gpu, |was.history|, now.history, now.images, key,
                       slot);
    }
  }

  lemma OldBlockArrives(t: Topology, q: Request, was: Book, now: Book, key: BlockKey, n: string, slot: nat, image: Mem)
    requires was.history <= now.history && was.images <= now.images && |was.images| == |was.history|
    requires Shelved(was, t.TotalSlots()) && key in was.shelves.cache && key in was.shelves.origins && n in t.nameToId
    requires slot < t.TotalSlots() && Carried(now, was.shelves.origins[key], slot, t.nameToId[n], image)
    ensures Arrives(t, q, was, key, n, slot, image)
  {
    var s := was.shelves.origins[key];
    assert Sealed(was.shelves.cache[key], was.history, key, s);
    SealedIsFirst(was.shelves.cache[key], was.history, key, s, slot);
    CarriedBefore(was, now, s, slot, t.nameToId[n], image);
  }

  /** What a load finds for a resident key after a save. */
  lemma ResidentArrives(t: Topology, ns: string, q: Request, was: Book, now: Book, sealed: Seals, key: BlockKey,
                        n: string, slot: nat, image: Mem)
    requires SaveSettled(t, ns, q, was, now, sealed, {}) && Shelved(was, t.TotalSlots())
    requires |was.images| == |was.history|
    requires q.resident == was.shelves.cache.Keys && key in now.shelves.cache && key in now.shelves.origins
    requires n in t.nameToId && StoredIn(t, t.nameToId[n], slot) && slot < t.TotalSlots()
    requires Carried(now, now.shelves.origins[key], slot, t.nameToId[n], image)
    ensures Arrives(t, q, was, key, n, slot, image)
  {
    assert KeyOutcome(was.shelves, now.shelves, |was.history|, now.history, t.TotalSlots(), sealed, {}, key);
    if key in was.shelves.cache {
      OldBlockArrives(t, q, was, now, key, n, slot, image);
    } else {
      NewBlockArrives(t, ns, q, was, now, key, now.shelves.origins[key], n, slot, image);
    }
  }

  lemma SingleLoad(load: Load, total: nat)
    requires Fitting(load, total)
    ensures AllTargets([load], total) == TargetsOf(load)
  {
    assert [load][..0] == [];
  }

  /** When the whole trip goes through, in terms of the state before it. */
  ghost predicate Trips(t: Topology, shapes: seq<seq<nat>>, ns: string, q: Request, ppRank: nat, blockwise: bool,
                        pool: Pool, was: Book, w': Worker, names: seq<string>, keys: seq<BlockKey>, ids: seq<nat>)
    requires Sound(t, shapes) && WorkerSound(t, shapes, q.w)
  {
    && Saveable(t, shapes, q.w, q.tpRank, ppRank, q.saves, ns, q.resident, blockwise, pool)
    && (forall j :: 0 <= j < |keys| ==> Hittable(t, ns, q, was, keys[j]))
    && (forall i :: 0 <= i < |names| ==> LayerLoadable(t, w', w'.tpRank, names[i]))
    && IdsInRange(w', names, ids)
  }

  /** A byte of the destination that belongs to no loaded block. */
  ghost predicate Untouched(w: Worker, names: seq<string>, ids: seq<nat>, a: nat) {
    forall i, j :: 0 <= i < |names| && names[i] in w.caches && 0 <= j < |ids| ==>
      OutsideBlock(w.caches[names[i]], ids[j], a)
  }

  /** Block `id` of layer `n` holds the bytes the trip should bring for a key. */
  ghost predicate Brought(t: Topology, q: Request, was: Book, w': Worker, n: string, key: BlockKey, id: nat, gpu: Mem)
    requires SlotKnown(t)
  {
    && LayerLoadable(t, w', w'.tpRank, n)
    && T.RangesFit(gpu, L.PiecesOf(w'.caches[n], id))
    && Arrives(t, q, was, key, n, LoadSlot(t, w', w'.tpRank, n), T.GpuImage(gpu, w'.caches[n], id))
  }

  lemma RestoredBrought(t: Topology, shapes: seq<seq<nat>>, ns: string, q: Request, was: Book, now: Book,
                        sealed: Seals, w': Worker, n: string, key: BlockKey, id: nat, gpu: Mem)
    requires Sound(t, shapes) && SaveSettled(t, ns, q, was, now, sealed, {}) && Shelved(was, t.TotalSlots())
    requires |was.images| == |was.history| && q.resident == was.shelves.cache.Keys
    requires key in now.shelves.cache && key in now.shelves.origins && LayerLoadable(t, w', w'.tpRank, n)
    requires BlockRestored(t, w', w'.tpRank, n, (id, now.shelves.cache[key]), now, now.shelves.origins[key], gpu)
    ensures Brought(t, q, was, w', n, key, id, gpu)
  {
    var slot, l := LoadSlot(t, w', w'.tpRank, n), t.nameToId[n];
    SlotBelowTotal(t, shapes, l, w'.tpRank, slot);
    SlotStores(t, l, w'.tpRank, slot);
    ResidentArrives(t, ns, q, was, now, sealed, key, n, slot, T.GpuImage(gpu, w'.caches[n], id));
  }

  // ---------------------------------------------------------------------------
  // The trip
  // ---------------------------------------------------------------------------

  ghost predicate KeysRestored(t: Topology, w: Worker, names: seq<string>, keys: seq<BlockKey>, ids: seq<nat>,
                               b: Book, gpu: Mem)
    requires SlotKnown(t) && |ids| == |keys|
  {
    forall i, j :: 0 <= i < |names| && 0 <= j < |keys| ==>
      && LayerLoadable(t, w, w.tpRank, names[i])
      && keys[j] in b.shelves.cache && keys[j] in b.shelves.origins
      && BlockRestored(t, w, w.tpRank, names[i], (ids[j], b.shelves.cache[keys[j]]), b, b.shelves.origins[keys[j]], gpu)
  }

  /** What a load of resident blocks restores, key by key. */
  lemma TargetsRestoreKeys(t: Topology, w: Worker, names: seq<string>, keys: seq<BlockKey>, ids: seq<nat>,
                           targets: seq<Target>, b: Book, gpu: Mem)
    requires SlotKnown(t) && Shelved(b, t.TotalSlots()) && |ids| == |keys| == |targets|
    requires forall i :: 0 <= i < |names| ==> LayerLoadable(t, w, w.tpRank, names[i])
    requires forall j :: 0 <= j < |keys| ==>
      keys[j] in b.shelves.cache && targets[j] == (ids[j], b.shelves.cache[keys[j]])
    requires AllRestored(t, w, w.tpRank, names, targets, b, gpu)
    ensures KeysRestored(t, w, names, keys, ids, b, gpu)
  {
    forall i, j | 0 <= i < |names| && 0 <= j < |keys|
      ensures keys[j] in b.shelves.origins
      ensures BlockRestored(t, w, w.tpRank, names[i], targets[j], b, b.shelves.origins[keys[j]], gpu)
    {
      assert HeldAs(b, targets[j].1, keys[j], b.shelves.origins[keys[j]]);
    }
  }

  predicate IdsInRange(w: Worker, names: seq<string>, ids: seq<nat>) {
    forall i, j :: 0 <= i < |names| && 0 <= j < |ids| && names[i] in w.caches ==> ids[j] < w.caches[names[i]].numBlocks
  }

  /** Look the keys up and load their blocks; a miss loads nothing. */
  method LoadKeys(store: Store, gpu: array<byte>, w: Worker, names: seq<string>, keys: seq<BlockKey>, ids: seq<nat>)
    returns (hit: bool)
    requires store.Valid() && gpu != store.host && |keys| == |ids| && NoRepeats(ids)
    requires WorkerSound(store.topology, store.shapes, w) && GpuHolds(w, gpu.Length) && DeviceLaidOut(w)
    modifies gpu
    ensures hit <==>
      && (forall j :: 0 <= j < |keys| ==> keys[j] in store.cache)
      && (forall i :: 0 <= i < |names| ==> LayerLoadable(store.topology, w, w.tpRank, names[i]))
      && IdsInRange(w, names, ids)
    ensures hit ==> KeysRestored(store.topology, w, names, keys, ids, store.book, gpu[..])
    ensures hit ==> forall a :: 0 <= a < gpu.Length && Untouched(w, names, ids, a) ==> gpu[a] == old(gpu[a])
    ensures !hit ==> gpu[..] == old(gpu[..])
  {
    var blocks := PrefixBlocks(store.cache, keys);
    if |blocks| < |keys| {
      return false;
    }
    var load := Load(blocks, ids);
    ghost var total := store.topology.TotalSlots();
    BlocksFit(store.book, total, keys, load);
    SingleLoad(load, total);
    var loaded := store.LoadBlocks(gpu, w, w.tpRank, names, [load]);
    hit := loaded.Ok?;
    if hit {
      TargetsRestoreKeys(store.topology, w, names, keys, ids, TargetsOf(load), store.book, gpu[..]);
      UntouchedOutside(w, names, load);
    }
  }

  lemma UntouchedOutside(w: Worker, names: seq<string>, load: Load)
    requires |load.blocks| == |load.ids|
    ensures forall a: nat :: Untouched(w, names, load.ids, a) ==> Outside(w, names, TargetsOf(load), a)
  {
  }

  lemma BlocksFit(b: Book, total: nat, keys: seq<BlockKey>, load: Load)
    requires Shelved(b, total) && |load.blocks| == |keys| == |load.ids|
    requires forall j :: 0 <= j < |keys| ==> keys[j] in b.shelves.cache && load.blocks[j] == b.shelves.cache[keys[j]]
    ensures Fitting(load, total) && LoadsHeld([load], b, total)
  {
    forall j | 0 <= j < |keys| ensures IsHeld(b, load.blocks[j]) && |load.blocks[j].slots| == total {
      assert HeldAs(b, load.blocks[j], keys[j], b.shelves.origins[keys[j]]);
    }
  }

  ghost predicate AllBrought(t: Topology, q: Request, was: Book, w': Worker, names: seq<string>, keys: seq<BlockKey>,
                             ids: seq<nat>, gpu: Mem)
    requires SlotKnown(t) && |ids| == |keys|
  {
    forall i, j :: 0 <= i < |names| && 0 <= j < |keys| ==> Brought(t, q, was, w', names[i], keys[j], ids[j], gpu)
  }

  lemma KeysBrought(t: Topology, shapes: seq<seq<nat>>, ns: string, q: Request, was: Book, now: Book, sealed: Seals,
                    w': Worker, names: seq<string>, keys: seq<BlockKey>, ids: seq<nat>, gpu: Mem)
    requires Sound(t, shapes) && SaveSettled(t, ns, q, was, now, sealed, {}) && Shelved(was, t.TotalSlots())
    requires |was.images| == |was.history| && q.resident == was.shelves.cache.Keys && |ids| == |keys|
    requires KeysRestored(t, w', names, keys, ids, now, gpu)
    ensures AllBrought(t, q, was, w', names, keys, ids, gpu)
  {
    forall i, j | 0 <= i < |names| && 0 <= j < |keys| ensures Brought(t, q, was, w', names[i], keys[j], ids[j], gpu) {
      RestoredBrought(t, shapes, ns, q, was, now, sealed, w', names[i], keys[j], ids[j], gpu);
    }
  }

  /**
   Save from one device, look up, load on another. The trip goes through exactly
   if the save is accepted, every key is resident or has all its slots pending or
   asked for, and the destination has the layers and blocks. Then every loaded
   block holds, layer by layer, the bytes of the first delivery for its slot: what
   the store already held, or else the source GPU's bytes of the block the request
   lists first under that hash. The rest of the destination is untouched.
   */
  method SaveThenLoad(store: Store, source: array<byte>, w: Worker, saves: seq<LayerSave>, blockwise: bool,
                      pool: Pool, numa: nat, destination: array<byte>, w': Worker, names: seq<string>,
                      keys: seq<BlockKey>, ids: seq<nat>)
    returns (hit: bool)
    requires store.Valid() && source != store.host && destination != store.host
    requires |keys| == |ids| && NoRepeats(ids)
    requires WorkerSound(store.topology, store.shapes, w) && GpuHolds(w, source.Length)
    requires WorkerSound(store.topology, store.shapes, w') && GpuHolds(w', destination.Length) && DeviceLaidOut(w')
    requires AllocatorSound(store.topology, store.shapes, w, w.tpRank, saves, store.namespace, store.cache.Keys,
                            blockwise, pool,
                            store.host.Length, Occupied(store.topology, store.shapes, store.host.Length, store.book))
    modifies store, store.host, destination
    ensures store.Valid()
    ensures var q := Request(w, w.tpRank, saves, old(store.cache.Keys), old(source[..]));
            && (hit <==> Trips(store.topology, store.shapes, store.namespace, q, w.ppRank, blockwise, pool,
                               old(store.book),
                               w', names, keys, ids))
            && (hit ==> AllBrought(store.topology, q, old(store.book), w', names, keys, ids, destination[..]))
    ensures hit ==> forall a :: 0 <= a < destination.Length && Untouched(w', names, ids, a) ==>
      destination[a] == old(destination[a])
    ensures !hit ==> destination[..] == old(destination[..])
  {
    ghost var was, q := store.book, Request(w, w.tpRank, saves, store.cache.Keys, source[..]);
    var saved := store.Save(source, w, w.tpRank, w.ppRank, saves, blockwise, pool, numa, {});
    if saved.Err? {
      return false;
    }
    forall j | 0 <= j < |keys|
      ensures keys[j] in store.cache <==> Hittable(store.topology, store.namespace, q, was, keys[j])
    {
      HitExactly(store.topology, store.namespace, q, was, store.book, saved.value, keys[j]);
    }
    hit := LoadKeys(store, destination, w', names, keys, ids);
    if hit {
      KeysBrought(store.topology, store.shapes, store.namespace, q, was, store.book, saved.value, w', names, keys, ids,
                  destination[..]);
    }
  }
}
