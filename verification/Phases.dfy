/**
 The phases of a save (pegaflow-core/src/offload.rs): resolve, filter and place;
 copy; group and insert. Each phase is a step of its own, so that other saves and
 evictions may run between them.
 */
module Phases {
  import opened Prelude
  import opened InsertEntries
  import opened Memory
  import opened Topology
  import opened SavePlan
  import opened Placement
  import opened Pipeline
  import opened SaveLoad
  import opened Ledger
  import T = Transfer

  /** Run a save batch: describe, coalesce, copy. */
  method CopyToHost(host: array<byte>, gpu: array<byte>, ts: seq<T.LayerTransfer>)
    requires T.Ready(ts) && host != gpu && AllFit(AllToHost(T.AllDescs(ts)), host[..], gpu[..])
    modifies host
    ensures host[..] == Applied(old(host[..]), gpu[..], AllToHost(T.AllDescs(ts)))
  {
    var descs := T.BuildCopyDescs(ts);
    var merged := Merge(descs.value.0);
    assert SameOn(AllToHost(descs.value.0), AllToHost(merged), host[..], gpu[..]);
    RunBatch(host, gpu, AllToHost(merged));
  }

  // ---------------------------------------------------------------------------
  // Phases of a save
  // ---------------------------------------------------------------------------

  /** When a save is accepted. */
  ghost predicate Saveable(t: Topology, shapes: seq<seq<nat>>, w: Worker, tpRank: nat, ppRank: nat,
                           saves: seq<LayerSave>, ns: string, resident: set<BlockKey>, blockwise: bool, pool: Pool)
    requires Sound(t, shapes) && WorkerSound(t, shapes, w)
  {
    && w.tpRank == tpRank && w.ppRank == ppRank
    && Resolves(t, w, tpRank, saves)
    && var ctxs := Pending(t, w, tpRank, saves, ns, resident);
       PendingSound(t, shapes, w, tpRank, saves, ns, resident);
       (ctxs != [] ==> Placeable(t, ctxs, blockwise, pool))
  }

  /** A layer known and registered on the device, with one hash per block and the blocks in range. */
  predicate LayerNamed(t: Topology, w: Worker, tpRank: nat, s: LayerSave) {
    && |s.blockIds| == |s.hashes| && s.name in t.nameToId && s.name in w.caches && tpRank < t.tpSize
    && forall j :: 0 <= j < |s.blockIds| ==> s.blockIds[j] < w.caches[s.name].numBlocks
  }

  lemma ResolvableExactly(t: Topology, w: Worker, tpRank: nat, s: LayerSave)
    requires SlotKnown(t) && IdsSound(t)
    ensures Resolvable(t, w, tpRank, s) <==> LayerNamed(t, w, tpRank, s)
  {
    if s.name in t.nameToId { assert t.nameToId[s.name] < t.NumLayers(); }
  }

  /**
   Acceptance in full: the worker's own rank and stage; every layer known, registered on the device and
   within its blocks; and memory for whatever is not resident.
   */
  lemma SaveableExactly(t: Topology, shapes: seq<seq<nat>>, w: Worker, tpRank: nat, ppRank: nat,
                        saves: seq<LayerSave>, ns: string, resident: set<BlockKey>, blockwise: bool, pool: Pool)
    requires Sound(t, shapes) && WorkerSound(t, shapes, w)
    ensures Saveable(t, shapes, w, tpRank, ppRank, saves, ns, resident, blockwise, pool) <==>
      && w.tpRank == tpRank && w.ppRank == ppRank
      && (forall i :: 0 <= i < |saves| ==> LayerNamed(t, w, tpRank, saves[i]))
      && (Resolves(t, w, tpRank, saves) ==>
            var ctxs := Pending(t, w, tpRank, saves, ns, resident);
            PendingSound(t, shapes, w, tpRank, saves, ns, resident);
            ctxs == [] ||
            if t.page.None? then forall c :: 0 <= c < |ctxs| ==> CtxGranted(ctxs[c], blockwise, pool, c)
            else PageAcceptable(t, ctxs) && PagesGranted(pool, |ctxs[0].blocks|))
  {
    forall i | 0 <= i < |saves|
      ensures Resolvable(t, w, tpRank, saves[i]) <==> LayerNamed(t, w, tpRank, saves[i])
    {
      ResolvableExactly(t, w, tpRank, saves[i]);
    }
  }

  /** The allocator's promise for the blocks this request still needs. */
  ghost predicate AllocatorSound(t: Topology, shapes: seq<seq<nat>>, w: Worker, tpRank: nat, saves: seq<LayerSave>,
                                 ns: string, resident: set<BlockKey>, blockwise: bool, pool: Pool, hostLen: nat,
                                 live: set<nat>)
    requires Sound(t, shapes) && WorkerSound(t, shapes, w)
  {
    Resolves(t, w, tpRank, saves) ==>
      var ctxs := Pending(t, w, tpRank, saves, ns, resident);
      PendingSound(t, shapes, w, tpRank, saves, ns, resident);
      (ctxs != [] ==> PoolFresh(t, ctxs, blockwise, pool, hostLen, live))
  }

  /** Phases 0 to 2: everything that can refuse a save; nothing is changed yet. */
  method Prepare(t: Topology, w: Worker, tpRank: nat, ppRank: nat, saves: seq<LayerSave>, ns: string,
                 resident: set<BlockKey>, blockwise: bool, pool: Pool, ghost shapes: seq<seq<nat>>,
                 ghost hostLen: nat, ghost live: set<nat>)
    returns (r: Result<Option<Plan>, SaveError>)
    requires Sound(t, shapes) && WorkerSound(t, shapes, w)
    requires AllocatorSound(t, shapes, w, tpRank, saves, ns, resident, blockwise, pool, hostLen, live)
    ensures r.Ok? <==> Saveable(t, shapes, w, tpRank, ppRank, saves, ns, resident, blockwise, pool)
    ensures w.tpRank != tpRank || w.ppRank != ppRank ==> r == Err(WrongGroup)
    ensures r.Ok? && r.value.None? ==> Resolves(t, w, tpRank, saves) && Pending(t, w, tpRank, saves, ns, resident) == []
    ensures r.Ok? && r.value.Some? ==>
      Planned(t, shapes, ns, Ticket(w, tpRank, saves, resident, r.value.value, None), hostLen, live)
  {
    if w.tpRank != tpRank || w.ppRank != ppRank {
      return Err(WrongGroup);
    }
    var resolved := ResolveContexts(t, w, tpRank, saves);
    if resolved.Err? {
      return Err(resolved.error);
    }
    var ctxs := FilterContexts(resolved.value, ns, resident);
    PendingSound(t, shapes, w, tpRank, saves, ns, resident);
    if ctxs == [] {
      return Ok(None);
    }
    var plan := PlaceBatch(t, ctxs, blockwise, pool, shapes, w, tpRank, hostLen, live);
    if plan.Err? {
      return Err(plan.error);
    }
    r := Ok(Some(plan.value));
  }

  /** A prepared save is a sound ticket that claims only free memory. */
  method PrepareTicket(t: Topology, w: Worker, tpRank: nat, ppRank: nat, saves: seq<LayerSave>, ns: string,
                       resident: set<BlockKey>, blockwise: bool, pool: Pool, ghost shapes: seq<seq<nat>>,
                       ghost host: Mem, ghost busy: set<nat>)
    returns (r: Result<Option<Plan>, SaveError>)
    requires Sound(t, shapes) && WorkerSound(t, shapes, w)
    requires AllocatorSound(t, shapes, w, tpRank, saves, ns, resident, blockwise, pool, |host|, busy)
    ensures r.Ok? <==> Saveable(t, shapes, w, tpRank, ppRank, saves, ns, resident, blockwise, pool)
    ensures w.tpRank != tpRank || w.ppRank != ppRank ==> r == Err(WrongGroup)
    ensures r.Ok? && r.value.None? ==> Resolves(t, w, tpRank, saves) && Pending(t, w, tpRank, saves, ns, resident) == []
    ensures r.Ok? && r.value.Some? ==>
      var k := Ticket(w, tpRank, saves, resident, r.value.value, None);
      TicketSound(t, shapes, ns, host, k) && Claimed(k, |host|) !! busy
  {
    r := Prepare(t, w, tpRank, ppRank, saves, ns, resident, blockwise, pool, shapes, |host|, busy);
    if r.Ok? && r.value.Some? {
      PlanIsFree(t, shapes, ns, Ticket(w, tpRank, saves, resident, r.value.value, None), |host|, busy);
    }
  }

  /** Phases 0 to 2 on the book: an accepted save is entered, a refused one changes nothing. */
  method BeginSave(t: Topology, w: Worker, tpRank: nat, ppRank: nat, saves: seq<LayerSave>, ns: string, cache: CacheMap,
                   blockwise: bool, pool: Pool, ghost shapes: seq<seq<nat>>, ghost host: Mem, ghost b: Book)
    returns (r: Result<Option<Plan>, SaveError>, ghost id: nat, ghost b': Book)
    requires Sane(t, shapes, ns, host, b) && WorkerSound(t, shapes, w)
    requires AllocatorSound(t, shapes, w, tpRank, saves, ns, cache.Keys, blockwise, pool, |host|,
                            Occupied(t, shapes, |host|, b))
    ensures Sane(t, shapes, ns, host, b')
    ensures r.Ok? <==> Saveable(t, shapes, w, tpRank, ppRank, saves, ns, cache.Keys, blockwise, pool)
    ensures w.tpRank != tpRank || w.ppRank != ppRank ==> r == Err(WrongGroup)
    ensures r.Err? || r.value.None? ==> b' == b
    ensures r.Ok? && r.value.None? ==>
      Resolves(t, w, tpRank, saves) && Pending(t, w, tpRank, saves, ns, cache.Keys) == []
    ensures id !in b.tickets
    ensures r.Ok? && r.value.Some? ==>
      b' == b.(tickets := b.tickets[id := Ticket(w, tpRank, saves, cache.Keys, r.value.value, None)])
  {
    id := FreshNumber(b.tickets.Keys);
    b' := b;
    r := PrepareTicket(t, w, tpRank, ppRank, saves, ns, cache.Keys, blockwise, pool, shapes, host,
                       Occupied(t, shapes, |host|, b));
    if r.Ok? && r.value.Some? {
      ghost var k := Ticket(w, tpRank, saves, cache.Keys, r.value.value, None);
      ReserveKeeps(t, shapes, ns, host, b, id, k);
      b' := b.(tickets := b.tickets[id := k]);
    }
  }

  lemma PlannedRuns(t: Topology, shapes: seq<seq<nat>>, ns: string, k: Ticket, host: Mem, gpu: Mem)
    requires Planned(t, shapes, ns, k, |host|, {}) && GpuHolds(k.w, |gpu|)
    ensures T.Ready(k.plan.transfers) && T.DescsFit(k.plan.transfers, host, gpu)
    ensures AllFit(AllToHost(T.AllDescs(k.plan.transfers)), host, gpu)
    ensures AllCopied(k.plan.transfers, Applied(host, gpu, AllToHost(T.AllDescs(k.plan.transfers))), gpu)
  {
    var ctxs := Pending(t, k.w, k.tpRank, k.saves, ns, k.resident);
    PendingSound(t, shapes, k.w, k.tpRank, k.saves, ns, k.resident);
    SaveFits(k.plan, t, shapes, k.w, k.tpRank, ctxs, host, gpu);
    CopyDone(k.plan, t, shapes, k.w, k.tpRank, ctxs, host, gpu);
  }

  /** Phase 3: copy the blocks into the planned memory, and write nothing else. */
  method CopyPlan(host: array<byte>, gpu: array<byte>, plan: Plan, ghost t: Topology, ghost shapes: seq<seq<nat>>,
                  ghost ns: string, ghost k: Ticket)
    requires host != gpu && Planned(t, shapes, ns, k, host.Length, {}) && k.plan == plan && GpuHolds(k.w, gpu.Length)
    modifies host
    ensures AllCopied(plan.transfers, host[..], gpu[..])
    ensures forall a :: 0 <= a < host.Length && a !in Claimed(k, host.Length) ==> host[..][a] == old(host[..])[a]
  {
    ghost var before := host[..];
    PlannedRuns(t, shapes, ns, k, before, gpu[..]);
    CopyToHost(host, gpu, plan.transfers);
    forall a | 0 <= a < host.Length && a !in Claimed(k, host.Length) ensures host[..][a] == before[a] {
      CopyKeeps(plan.transfers, before, gpu[..], a);
    }
  }

  lemma PlannedDelivers(t: Topology, shapes: seq<seq<nat>>, ns: string, k: Ticket, hostLen: nat)
    requires Planned(t, shapes, ns, k, hostLen, {})
    ensures Parallel(k.plan.layers) && t.TotalSlots() > 0
    ensures forall s :: s in k.plan.layers ==> s.slotId < t.TotalSlots()
  {
    var ctxs := Pending(t, k.w, k.tpRank, k.saves, ns, k.resident);
    PendingSound(t, shapes, k.w, k.tpRank, k.saves, ns, k.resident);
    assert CtxSound(t, shapes, k.w, k.tpRank, ctxs[0]);
    SlotBelowTotal(t, shapes, ctxs[0].id, k.tpRank, ctxs[0].slot);
  }

  /** Every delivery from position `was` on carries GPU bytes of the request. */
  ghost predicate AllOrigin(t: Topology, w: Worker, saves: seq<LayerSave>, gpu: Mem, was: nat, history: seq<Delivery>,
                            images: seq<map<nat, Mem>>)
    requires SlotKnown(t) && |images| == |history|
  {
    forall k :: was <= k < |history| ==> Origin(saves, t, w, gpu, history[k], images[k])
  }

  /** A save's request, what was resident when it was planned, and the GPU memory it copied. */
  datatype Request = Request(w: Worker, tpRank: nat, saves: seq<LayerSave>, resident: set<BlockKey>, gpu: Mem)

  function RequestOf(k: Ticket): Request
    requires k.copied.Some?
  {
    Request(k.w, k.tpRank, k.saves, k.resident, k.copied.value)
  }

  /** What a save delivered. */
  ghost predicate SaveRecorded(t: Topology, ns: string, q: Request, was: Book, now: Book) {
    && SlotKnown(t) && Resolves(t, q.w, q.tpRank, q.saves)
    && was.history <= now.history && was.images <= now.images && |now.images| == |now.history|
    && AllOrigin(t, q.w, q.saves, q.gpu, |was.history|, now.history, now.images)
    && OwnRank(t, q.w, |was.history|, now.history)
    && forall key, slot: nat ::
         SlotSaved(t, ns, q.w, q.tpRank, q.saves, q.resident, q.gpu, |was.history|, now.history, now.images, key, slot)
  }

  /** Layer-first, every delivery from position `was` on fills a slot of the worker's own tensor-parallel rank. */
  ghost predicate OwnRank(t: Topology, w: Worker, was: nat, history: seq<Delivery>) {
    t.page.None? ==> t.tpSize > 0 && forall i :: was <= i < |history| ==> history[i].insert.slot % t.tpSize == w.tpRank
  }

  lemma RankRecorded(t: Topology, shapes: seq<seq<nat>>, ns: string, w: Worker, saves: seq<LayerSave>,
                     resident: set<BlockKey>, gpu: Mem, was: nat, history: seq<Delivery>, images: seq<map<nat, Mem>>)
    requires Sound(t, shapes) && Resolves(t, w, w.tpRank, saves) && |images| == |history|
    requires forall key, slot: nat ::
      SlotSaved(t, ns, w, w.tpRank, saves, resident, gpu, was, history, images, key, slot)
    ensures OwnRank(t, w, was, history)
  {
    forall i | was <= i < |history| && t.page.None? ensures history[i].insert.slot % t.tpSize == w.tpRank {
      var key, slot := history[i].key, history[i].insert.slot;
      FirstDeliveredIsFirst(history, was, |history|, key, slot, i);
      assert SlotSaved(t, ns, w, w.tpRank, saves, resident, gpu, was, history, images, key, slot);
      AskedSlotRank(t, w, w.tpRank, saves, slot, key.hash);
    }
  }

  /** What a save left in the book: its deliveries, and what they made of every key. */
  ghost predicate SaveSettled(t: Topology, ns: string, q: Request, was: Book, now: Book, sealed: Seals,
                              refused: set<nat>) {
    && SaveRecorded(t, ns, q, was, now)
    && now.loans == was.loans
    && forall key :: KeyOutcome(was.shelves, now.shelves, |was.history|, now.history, t.TotalSlots(), sealed, refused,
                                key)
  }

  /** Saves under way do not matter to what a save records. */
  lemma SameStart(t: Topology, ns: string, q: Request, was: Book, other: Book, now: Book, sealed: Seals,
                  refused: set<nat>)
    requires SaveSettled(t, ns, q, was, now, sealed, refused) && other == was.(tickets := other.tickets)
    ensures SaveSettled(t, ns, q, other, now, sealed, refused)
  {
  }

  /** What the new deliveries carry, read from memory. */
  ghost predicate OffersOrigin(t: Topology, k: Ticket, offers: seq<Delivery>, images: seq<map<nat, Mem>>)
    requires SlotKnown(t) && k.copied.Some?
  {
    |images| == |offers| && forall i :: 0 <= i < |offers| ==>
      Origin(k.saves, t, k.w, k.copied.value, offers[i], images[i])
  }

  lemma NewOrigins(t: Topology, shapes: seq<seq<nat>>, k: Ticket, host: Mem, offers: seq<Delivery>)
    requires Sound(t, shapes) && k.copied.Some? && OffersKept(t, shapes, k, host, offers)
    ensures OffersOrigin(t, k, offers, NewImages(t, shapes, host, offers))
  {
    forall i | 0 <= i < |offers|
      ensures Origin(k.saves, t, k.w, k.copied.value, offers[i], ImageOf(t, shapes, host, offers[i].insert))
    {
      assert DeliveryKept(t, shapes, k, host, offers[i]);
    }
  }

  lemma OriginsAppend(t: Topology, k: Ticket, history: seq<Delivery>, images: seq<map<nat, Mem>>, offers: seq<Delivery>,
                      more: seq<map<nat, Mem>>)
    requires SlotKnown(t) && k.copied.Some? && OffersOrigin(t, k, offers, more) && |images| == |history|
    ensures AllOrigin(t, k.w, k.saves, k.copied.value, |history|, history + offers, images + more)
  {
    var ds, ms := history + offers, images + more;
    forall i | |history| <= i < |ds| ensures Origin(k.saves, t, k.w, k.copied.value, ds[i], ms[i]) {
      assert ds[i] == offers[i - |history|] && ms[i] == more[i - |history|];
    }
  }

  lemma SlotsRecorded(t: Topology, shapes: seq<seq<nat>>, ns: string, k: Ticket, host: Mem, history: seq<Delivery>,
                      entries: seq<Entry>, numa: nat, after: seq<Delivery>, images: seq<map<nat, Mem>>)
    requires Sound(t, shapes) && Copied(t, shapes, ns, k, host) && Built(entries, ns, k.plan.layers)
    requires after == history + BatchOffers(entries, numa) && ReadFrom(t, shapes, host, after, |history|, images)
    ensures forall key, slot: nat ::
      SlotSaved(t, ns, k.w, k.tpRank, k.saves, k.resident, k.copied.value, |history|, after, images, key, slot)
  {
    forall key, slot: nat
      ensures SlotSaved(t, ns, k.w, k.tpRank, k.saves, k.resident, k.copied.value, |history|, after, images, key, slot)
    {
      FirstDeliveryOrigin(t, shapes, ns, k, host, history, entries, numa, images, key, slot);
    }
  }

  /** What inserting a copied save records. */
  lemma InsertRecords(t: Topology, shapes: seq<seq<nat>>, ns: string, host: Mem, was: Book, id: nat, shelves: Shelves,
                      entries: seq<Entry>, numa: nat)
    requires Sound(t, shapes) && id in was.tickets && Copied(t, shapes, ns, was.tickets[id], host)
    requires |was.images| == |was.history|
    requires Built(entries, ns, was.tickets[id].plan.layers)
    requires OffersKept(t, shapes, was.tickets[id], host, BatchOffers(entries, numa))
    ensures SaveRecorded(t, ns, RequestOf(was.tickets[id]), was,
                         InsertedBook(t, shapes, host, was, id, shelves, BatchOffers(entries, numa)))
  {
    var k, offers := was.tickets[id], BatchOffers(entries, numa);
    NewOrigins(t, shapes, k, host, offers);
    OriginsAppend(t, k, was.history, was.images, offers, NewImages(t, shapes, host, offers));
    NewImagesRead(t, shapes, host, was.history, was.images, offers);
    SlotsRecorded(t, shapes, ns, k, host, was.history, entries, numa, was.history + offers,
                  was.images + NewImages(t, shapes, host, offers));
    RankRecorded(t, shapes, ns, k.w, k.saves, k.resident, k.copied.value, |was.history|, was.history + offers,
                 was.images + NewImages(t, shapes, host, offers));
  }

  lemma OriginsStay(was: Shelves, now: Shelves, from: nat, history: seq<Delivery>, total: nat, sealed: Seals,
                    refused: set<nat>)
    requires was.origins.Keys == was.cache.Keys
    requires forall key :: KeyOutcome(was, now, from, history, total, sealed, refused, key)
    ensures forall key :: key in now.origins && key in was.origins ==> now.origins[key] == was.origins[key]
  {
    forall key | key in now.origins && key in was.origins ensures now.origins[key] == was.origins[key] {
      assert KeyOutcome(was, now, from, history, total, sealed, refused, key);
    }
  }

  /** Phase 4, first half: group the copied blocks by hash. */
  method GroupPlan(plan: Plan, ns: string, ghost t: Topology, ghost shapes: seq<seq<nat>>, ghost host: Mem,
                   ghost k: Ticket, ghost numa: nat)
    returns (entries: seq<Entry>)
    requires Sound(t, shapes) && Copied(t, shapes, ns, k, host) && k.plan == plan
    ensures Built(entries, ns, plan.layers) && t.TotalSlots() > 0 && EntriesInRange(entries, t.TotalSlots())
    ensures OffersKept(t, shapes, k, host, BatchOffers(entries, numa))
  {
    PlannedDelivers(t, shapes, ns, k, |host|);
    var blocks, bytes;
    entries, blocks, bytes := BuildInsertEntries(ns, plan.layers);
    EntriesBounded(entries, ns, plan.layers, t.TotalSlots());
    BatchKept(t, shapes, ns, k, host, entries, numa);
  }

  /** Phase 4, second half: insert and publish. */
  method InsertPlan(inflight: InflightMap, cache: CacheMap, plan: Plan, t: Topology, ns: string, numa: nat,
                    refused: set<nat>, ghost shapes: seq<seq<nat>>, ghost host: Mem, ghost was: Book, ghost id: nat)
    returns (inflight': InflightMap, cache': CacheMap, sealed: Seals, ghost now: Book)
    requires Sane(t, shapes, ns, host, was) && was.shelves.inflight == inflight && was.shelves.cache == cache
    requires id in was.tickets && was.tickets[id].plan == plan && was.tickets[id].copied.Some?
    ensures Sane(t, shapes, ns, host, now) && now.shelves.inflight == inflight' && now.shelves.cache == cache'
    ensures now.tickets == was.tickets - {id}
    ensures SaveSettled(t, ns, RequestOf(was.tickets[id]), was, now, sealed, refused)
  {
    assert TicketSound(t, shapes, ns, host, was.tickets[id]);
    var entries := GroupPlan(plan, ns, t, shapes, host, was.tickets[id], numa);
    ghost var pending', origins';
    inflight', cache', sealed, pending', origins' :=
      ProcessInsertBatch(inflight, cache, entries, t.TotalSlots(), numa, refused, was.history, was.shelves.pending,
                         was.shelves.origins);
    ghost var shelves := Shelves(inflight', cache', pending', origins');
    now := InsertedBook(t, shapes, host, was, id, shelves, BatchOffers(entries, numa));
    OriginsStay(was.shelves, shelves, |was.history|, now.history, t.TotalSlots(), sealed, refused);
    InsertKeeps(t, shapes, ns, host, was, id, shelves, BatchOffers(entries, numa));
    InsertRecords(t, shapes, ns, host, was, id, shelves, entries, numa);
  }

  /** Phase 3 on the book: held blocks and other saves keep their bytes. */
  method CopySave(host: array<byte>, gpu: array<byte>, plan: Plan, ghost t: Topology, ghost shapes: seq<seq<nat>>,
                  ghost ns: string, ghost b: Book, ghost id: nat)
    returns (ghost b': Book)
    requires Sane(t, shapes, ns, host[..], b) && id in b.tickets && b.tickets[id].plan == plan
    requires gpu != host && GpuHolds(b.tickets[id].w, gpu.Length)
    modifies host
    ensures Sane(t, shapes, ns, host[..], b') && b' == b.(tickets := b.tickets[id := Done(b.tickets[id], gpu[..])])
  {
    ghost var before, k := host[..], b.tickets[id];
    assert TicketSound(t, shapes, ns, before, k);
    CopyPlan(host, gpu, plan, t, shapes, ns, k);
    CopyFrame(t, shapes, ns, before, host[..], b.history, b.images, Streams(b), b.tickets, id, gpu[..]);
    b' := b.(tickets := b.tickets[id := Done(k, gpu[..])]);
  }

  // ---------------------------------------------------------------------------
  // A whole save
  // ---------------------------------------------------------------------------

  lemma TotalPositive(t: Topology, shapes: seq<seq<nat>>)
    requires Sound(t, shapes)
    ensures t.TotalSlots() > 0
  {
    if t.page.None? {
      GridIndex(0, 0, t.NumLayers(), t.tpSize);
    } else {
      assert t.page.value.layerShard[0] < |t.page.value.shardPageSizes|;
    }
  }

  /** A save whose blocks are all resident changes nothing, and says so. */
  lemma IdleSave(t: Topology, shapes: seq<seq<nat>>, ns: string, w: Worker, tpRank: nat, saves: seq<LayerSave>,
                 gpu: Mem, host: Mem, b: Book, refused: set<nat>)
    requires Sane(t, shapes, ns, host, b) && Resolves(t, w, tpRank, saves)
    requires Pending(t, w, tpRank, saves, ns, b.shelves.cache.Keys) == []
    ensures SaveSettled(t, ns, Request(w, tpRank, saves, b.shelves.cache.Keys, gpu), b, b, [], refused)
  {
    TotalPositive(t, shapes);
    forall key, slot: nat
      ensures SlotSaved(t, ns, w, tpRank, saves, b.shelves.cache.Keys, gpu, |b.history|, b.history, b.images, key, slot)
    {
      PendingCarries(t, w, tpRank, saves, ns, b.shelves.cache.Keys, slot, key.hash);
      assert key.namespace == ns ==> key == BlockKey(ns, key.hash);
    }
    forall key ensures KeyOutcome(b.shelves, b.shelves, |b.history|, b.history, t.TotalSlots(), [], refused, key) {
      IdleOutcome(b.shelves, b.history, t.TotalSlots(), refused, key);
    }
  }

  lemma DropUpdated(tickets: map<nat, Ticket>, id: nat, k: Ticket)
    ensures tickets[id := k] - {id} == tickets - {id}
    ensures id !in tickets ==> tickets - {id} == tickets
  {
  }

  /** Phases 3 and 4 of a planned save, with nothing in between. */
  method FinishSave(inflight: InflightMap, cache: CacheMap, host: array<byte>, gpu: array<byte>, plan: Plan,
                    t: Topology, ns: string, numa: nat, refused: set<nat>, ghost shapes: seq<seq<nat>>,
                    ghost start: Book, ghost b: Book, ghost id: nat)
    returns (inflight': InflightMap, cache': CacheMap, sealed: Seals, ghost b': Book)
    requires Sane(t, shapes, ns, host[..], b) && b.shelves.inflight == inflight && b.shelves.cache == cache
    requires b == start.(tickets := b.tickets)
    requires id in b.tickets && b.tickets[id].plan == plan && gpu != host && GpuHolds(b.tickets[id].w, gpu.Length)
    modifies host
    ensures Sane(t, shapes, ns, host[..], b') && b'.shelves.inflight == inflight' && b'.shelves.cache == cache'
    ensures b'.tickets == b.tickets - {id}
    ensures SaveSettled(t, ns, RequestOf(Done(b.tickets[id], gpu[..])), start, b', sealed, refused)
  {
    ghost var mid := CopySave(host, gpu, plan, t, shapes, ns, b, id);
    ghost var memory := host[..];
    inflight', cache', sealed, b' := InsertPlan(inflight, cache, plan, t, ns, numa, refused, shapes, memory, mid, id);
    SameStart(t, ns, RequestOf(mid.tickets[id]), mid, start, b', sealed, refused);
    DropUpdated(b.tickets, id, Done(b.tickets[id], gpu[..]));
  }

  /** An accepted save: nothing to do, or copy and insert. */
  method SettleSave(inflight: InflightMap, cache: CacheMap, host: array<byte>, gpu: array<byte>, plan: Option<Plan>,
                    t: Topology, ghost w: Worker, ghost tpRank: nat, ghost saves: seq<LayerSave>, ns: string,
                    numa: nat, refused: set<nat>, ghost shapes: seq<seq<nat>>, ghost b: Book, ghost begun: Book,
                    ghost id: nat)
    returns (sealed: Seals, inflight': InflightMap, cache': CacheMap, ghost b': Book)
    requires Sane(t, shapes, ns, host[..], begun) && b.shelves.inflight == inflight && b.shelves.cache == cache
    requires gpu != host && GpuHolds(w, gpu.Length) && id !in b.tickets
    requires plan.None? ==>
      begun == b && Resolves(t, w, tpRank, saves) && Pending(t, w, tpRank, saves, ns, cache.Keys) == []
    requires plan.Some? ==>
      begun == b.(tickets := b.tickets[id := Ticket(w, tpRank, saves, cache.Keys, plan.value, None)])
    modifies host
    ensures Sane(t, shapes, ns, host[..], b') && b'.shelves.inflight == inflight' && b'.shelves.cache == cache'
    ensures b'.tickets == b.tickets
    ensures SaveSettled(t, ns, Request(w, tpRank, saves, cache.Keys, gpu[..]), b, b', sealed, refused)
  {
    if plan.None? {
      IdleSave(t, shapes, ns, w, tpRank, saves, gpu[..], host[..], b, refused);
      return [], inflight, cache, b;
    }
    inflight', cache', sealed, b' := FinishSave(inflight, cache, host, gpu, plan.value, t, ns, numa, refused, shapes, b,
                                                begun, id);
    DropUpdated(b.tickets, id, begun.tickets[id]);
  }

  /** All phases with nothing in between: refused without a trace, or recorded. */
  method RunSave(inflight: InflightMap, cache: CacheMap, host: array<byte>, gpu: array<byte>, t: Topology, w: Worker,
                 tpRank: nat, ppRank: nat, saves: seq<LayerSave>, ns: string, blockwise: bool, pool: Pool, numa: nat,
                 refused: set<nat>, ghost shapes: seq<seq<nat>>, ghost b: Book)
    returns (r: Result<Seals, SaveError>, inflight': InflightMap, cache': CacheMap, ghost b': Book)
    requires Sane(t, shapes, ns, host[..], b) && b.shelves.inflight == inflight && b.shelves.cache == cache
    requires WorkerSound(t, shapes, w) && gpu != host && GpuHolds(w, gpu.Length)
    requires AllocatorSound(t, shapes, w, tpRank, saves, ns, cache.Keys, blockwise, pool, host.Length,
                            Occupied(t, shapes, host.Length, b))
    modifies host
    ensures Sane(t, shapes, ns, host[..], b') && b'.shelves.inflight == inflight' && b'.shelves.cache == cache'
    ensures r.Ok? <==> Saveable(t, shapes, w, tpRank, ppRank, saves, ns, cache.Keys, blockwise, pool)
    ensures w.tpRank != tpRank || w.ppRank != ppRank ==> r == Err(WrongGroup)
    ensures r.Err? ==> b' == b && host[..] == old(host[..])
    ensures r.Ok? ==>
      b'.tickets == b.tickets && SaveSettled(t, ns, Request(w, tpRank, saves, cache.Keys, gpu[..]), b, b', r.value,
                                             refused)
  {
    var plan;
    ghost var id, begun;
    ghost var memory := host[..];
    plan, id, begun := BeginSave(t, w, tpRank, ppRank, saves, ns, cache, blockwise, pool, shapes, memory, b);
    if plan.Err? {
      return Err(plan.error), inflight, cache, b;
    }
    var sealed;
    sealed, inflight', cache', b' := SettleSave(inflight, cache, host, gpu, plan.value, t, w, tpRank, saves, ns, numa,
                                                refused, shapes, b, begun, id);
    r := Ok(sealed);
  }
}
