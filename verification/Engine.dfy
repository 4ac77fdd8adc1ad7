/**
 The engine as callers see it: saves and loads over one pinned host memory
 (pegaflow-core/src/offload.rs, the load path of pegaflow-core/src/lib.rs and
 pegaflow-core/src/storage). The phases of a save interleave freely with those of
 other saves, with evictions and with loads.
 */
module Engine {
  import opened Prelude
  import opened Blocks
  import opened InsertEntries
  import opened Memory
  import opened Topology
  import opened SavePlan
  import opened Placement
  import opened Pipeline
  import opened SaveLoad
  import opened LoadPath
  import opened Ledger
  import opened Phases
  import T = Transfer
  import L = Layout
  import R = Registration

  lemma AnyMember<X>(s: set<X>) returns (x: X)
    requires |s| > 0
    ensures x in s
  {
    x :| x in s;
  }

  /**
   Whatever order the workers registered in, once the instance has sealed, its
   topology is one the engine can serve, for every registered worker.
   */
  lemma SealedInstanceServes(c: R.Config, states: seq<R.State>, requests: seq<R.Request>, i: nat, alignment: nat)
    returns (shapes: seq<seq<nat>>)
    requires R.Run(c, states, requests) && c.worldSize > 0 && c.tpSize > 0 && i < |states| && states[i].topology.Some?
    requires UniformPadding(R.Present(states[i].gpus), alignment) && AllAccepted(R.Present(states[i].gpus))
    ensures Sound(states[i].topology.value, shapes)
    ensures forall w :: w in R.Present(states[i].gpus) ==> WorkerSound(states[i].topology.value, shapes, w)
  {
    R.RunKeeps(c, states, requests, i);
    var s := states[i];
    var ws := R.Present(s.gpus);
    var list :| SealedFrom(s.topology.value, ws, c.tpSize, c.pageFirst, list);
    var d := AnyMember(s.gpus.Keys);
    var n :| n in s.gpus[d].caches;
    NameListed(ws, list, s.gpus[d], n);
    shapes := SealedIsSound(s.topology.value, ws, c.tpSize, c.pageFirst, list, alignment);
  }

  // ---------------------------------------------------------------------------
  // Loads
  // ---------------------------------------------------------------------------

  /** Run a load batch; a block index out of range stops it before any copy. */
  method CopyToDevice(gpu: array<byte>, host: array<byte>, ts: seq<T.LayerTransfer>) returns (ok: bool)
    requires host != gpu && (forall i :: 0 <= i < |ts| ==> T.HostsValid(ts[i]))
    requires T.Ready(ts) ==> AllFit(AllToDevice(T.AllDescs(ts)), gpu[..], host[..])
    modifies gpu
    ensures ok <==> T.Ready(ts)
    ensures gpu[..] == if ok then Applied(old(gpu[..]), host[..], AllToDevice(T.AllDescs(ts))) else old(gpu[..])
  {
    var descs := T.BuildCopyDescs(ts);
    if descs.Err? {
      return false;
    }
    var merged := Merge(descs.value.0);
    assert SameOn(AllToDevice(descs.value.0), AllToDevice(merged), gpu[..], host[..]);
    RunBatch(gpu, host, AllToDevice(merged));
    return true;
  }

  /** When a load goes through. */
  ghost predicate Loadable(t: Topology, w: Worker, tpRank: nat, names: seq<string>, loads: seq<Load>)
    requires SlotKnown(t)
  {
    && (forall i :: 0 <= i < |loads| ==> Fitting(loads[i], t.TotalSlots()))
    && (forall i :: 0 <= i < |names| ==> LayerLoadable(t, w, tpRank, names[i]))
    && TargetsInRange(w, names, AllTargets(loads, t.TotalSlots()))
  }

  /** Some load names the device block. */
  predicate NamesBlock(loads: seq<Load>, id: nat) { exists i :: 0 <= i < |loads| && id in loads[i].ids }

  predicate Targeted(targets: seq<Target>, id: nat) { exists k :: 0 <= k < |targets| && targets[k].0 == id }

  lemma TargetedConcat(a: seq<Target>, b: seq<Target>, id: nat)
    ensures Targeted(a + b, id) <==> Targeted(a, id) || Targeted(b, id)
  {
    if k :| 0 <= k < |a| && a[k].0 == id { assert (a + b)[k].0 == id; }
    if k :| 0 <= k < |b| && b[k].0 == id { assert (a + b)[|a| + k].0 == id; }
    if k :| 0 <= k < |a + b| && (a + b)[k].0 == id {
      if k < |a| { assert a[k].0 == id; } else { assert b[k - |a|].0 == id; }
    }
  }

  lemma {:induction false} TargetsNamed(loads: seq<Load>, total: nat, id: nat)
    requires forall i :: 0 <= i < |loads| ==> Fitting(loads[i], total)
    ensures Targeted(AllTargets(loads, total), id) <==> NamesBlock(loads, id)
  {
    if loads != [] {
      var n := |loads| - 1;
      TargetsNamed(loads[..n], total, id);
      assert Fitting(loads[n], total);
      TargetedConcat(AllTargets(loads[..n], total), TargetsOf(loads[n]), id);
      assert Targeted(TargetsOf(loads[n]), id) <==> id in loads[n].ids by {
        if j :| 0 <= j < |loads[n].ids| && loads[n].ids[j] == id { assert TargetsOf(loads[n])[j].0 == id; }
      }
    }
  }

  /** Every load brings one block per device block, each with the instance's number of slots. */
  predicate LoadsMatch(loads: seq<Load>, total: nat) {
    forall i :: 0 <= i < |loads| ==>
      && |loads[i].blocks| == |loads[i].ids|
      && forall j :: 0 <= j < |loads[i].blocks| ==> |loads[i].blocks[j].slots| == total
  }

  /** The layer is known and registered on the device, and the rank exists. */
  predicate LayerKnown(t: Topology, w: Worker, tpRank: nat, n: string) {
    n in t.nameToId && n in w.caches && tpRank < t.tpSize
  }

  /** Every layer has every device block that is named. */
  ghost predicate BlocksExist(w: Worker, names: seq<string>, loads: seq<Load>) {
    forall id: nat, n :: NamesBlock(loads, id) && 0 <= n < |names| && names[n] in w.caches ==>
      id < w.caches[names[n]].numBlocks
  }

  lemma BlocksExistExactly(w: Worker, names: seq<string>, loads: seq<Load>, total: nat)
    requires forall i :: 0 <= i < |loads| ==> Fitting(loads[i], total)
    ensures TargetsInRange(w, names, AllTargets(loads, total)) <==> BlocksExist(w, names, loads)
  {
    var targets := AllTargets(loads, total);
    forall id: nat ensures Targeted(targets, id) <==> NamesBlock(loads, id) { TargetsNamed(loads, total, id); }
    if TargetsInRange(w, names, targets) {
      forall id: nat, n | NamesBlock(loads, id) && 0 <= n < |names| && names[n] in w.caches
        ensures id < w.caches[names[n]].numBlocks
      {
        var k :| 0 <= k < |targets| && targets[k].0 == id;
      }
    } else {
      var i, j :| 0 <= i < |names| && 0 <= j < |targets| && names[i] in w.caches
                  && targets[j].0 >= w.caches[names[i]].numBlocks;
      assert Targeted(targets, targets[j].0);
    }
  }

  lemma LayerKnownExactly(t: Topology, w: Worker, tpRank: nat, n: string)
    requires SlotKnown(t) && IdsSound(t)
    ensures LayerLoadable(t, w, tpRank, n) <==> LayerKnown(t, w, tpRank, n)
  {
    if n in t.nameToId { assert t.nameToId[n] < t.NumLayers(); }
  }

  lemma LoadsMatchExactly(loads: seq<Load>, total: nat)
    ensures (forall i :: 0 <= i < |loads| ==> Fitting(loads[i], total)) <==> LoadsMatch(loads, total)
  {
  }

  /** When a load goes through, in terms of the request alone. */
  lemma LoadableExactly(t: Topology, w: Worker, tpRank: nat, names: seq<string>, loads: seq<Load>)
    requires SlotKnown(t) && IdsSound(t)
    ensures Loadable(t, w, tpRank, names, loads) <==>
            && LoadsMatch(loads, t.TotalSlots()) && BlocksExist(w, names, loads)
            && forall i :: 0 <= i < |names| ==> LayerKnown(t, w, tpRank, names[i])
  {
    LoadsMatchExactly(loads, t.TotalSlots());
    forall i | 0 <= i < |names|
      ensures LayerLoadable(t, w, tpRank, names[i]) <==> LayerKnown(t, w, tpRank, names[i])
    {
      LayerKnownExactly(t, w, tpRank, names[i]);
    }
    if LoadsMatch(loads, t.TotalSlots()) {
      BlocksExistExactly(w, names, loads, t.TotalSlots());
    }
  }

  predicate TargetsInRange(w: Worker, names: seq<string>, targets: seq<Target>) {
    forall i, j :: 0 <= i < |names| && 0 <= j < |targets| && names[i] in w.caches ==>
      targets[j].0 < w.caches[names[i]].numBlocks
  }

  /** The block is resident or on loan. */
  ghost predicate IsHeld(b: Book, block: SealedBlock) {
    exists key, s :: HeldAs(b, block, key, s)
  }

  /** Blocks of this layout that a load may name: the held ones. */
  ghost predicate LoadsHeld(loads: seq<Load>, b: Book, total: nat) {
    forall i, j :: 0 <= i < |loads| && 0 <= j < |loads[i].blocks| && |loads[i].blocks[j].slots| == total ==>
      IsHeld(b, loads[i].blocks[j])
  }

  ghost predicate TargetsHeld(b: Book, targets: seq<Target>, total: nat) {
    forall j :: 0 <= j < |targets| ==> IsHeld(b, targets[j].1) && |targets[j].1.slots| == total
  }

  lemma {:induction false} LoadsGiveHeld(loads: seq<Load>, b: Book, total: nat)
    requires LoadsHeld(loads, b, total) && forall i :: 0 <= i < |loads| ==> Fitting(loads[i], total)
    ensures TargetsHeld(b, AllTargets(loads, total), total)
  {
    if loads != [] {
      var n := |loads| - 1;
      LoadsGiveHeld(loads[..n], b, total);
      assert Fitting(loads[n], total);
    }
  }

  /**
   A loaded block, seen through layer `n`: the GPU holds exactly the bytes of the
   first delivery for the layer's slot that the block was built from.
   */
  ghost predicate BlockRestored(t: Topology, w: Worker, tpRank: nat, n: string, target: Target, b: Book, s: Stream,
                                gpu: Mem)
    requires SlotKnown(t) && LayerLoadable(t, w, tpRank, n)
  {
    var slot, l := LoadSlot(t, w, tpRank, n), t.nameToId[n];
    && (forall i :: 0 <= i < |s| ==> s[i] < |b.history|) && Offered(InsertsAt(b.history, s), slot)
    && var k := FirstAt(b.history, s, slot);
       && k < |b.images| && l in b.images[k]
       && T.RangesFit(gpu, L.PiecesOf(w.caches[n], target.0))
       && T.GpuImage(gpu, w.caches[n], target.0) == b.images[k][l]
  }

  ghost predicate AllRestored(t: Topology, w: Worker, tpRank: nat, names: seq<string>, targets: seq<Target>, b: Book,
                              gpu: Mem)
    requires SlotKnown(t)
  {
    forall i, j, key, s :: 0 <= i < |names| && 0 <= j < |targets| && HeldAs(b, targets[j].1, key, s) ==>
      LayerLoadable(t, w, tpRank, names[i]) ==> BlockRestored(t, w, tpRank, names[i], targets[j], b, s, gpu)
  }

  lemma HeldReadable(t: Topology, shapes: seq<seq<nat>>, ns: string, host: Mem, b: Book, block: SealedBlock)
    requires Sane(t, shapes, ns, host, b) && IsHeld(b, block)
    ensures Readable(t, shapes, host, block)
  {
    var key, s :| HeldAs(b, block, key, s);
    HeldSealed(b, t.TotalSlots(), block, key, s);
    forall slot: nat, l: nat | slot < t.TotalSlots() && StoredIn(t, l, slot)
      ensures LayerReadable(t, shapes, host, block, slot, l)
    {
      HeldKept(t, shapes, ns, host, b, block, key, s, slot, l);
    }
  }

  lemma TargetsReadable(t: Topology, shapes: seq<seq<nat>>, ns: string, host: Mem, b: Book, targets: seq<Target>)
    requires Sane(t, shapes, ns, host, b) && TargetsHeld(b, targets, t.TotalSlots())
    ensures forall j :: 0 <= j < |targets| ==> Readable(t, shapes, host, targets[j].1)
  {
    forall j | 0 <= j < |targets| ensures Readable(t, shapes, host, targets[j].1) {
      HeldReadable(t, shapes, ns, host, b, targets[j].1);
    }
  }

  lemma RestoresOne(f: Fetch, ns: string, b: Book, i: nat, j: nat, key: BlockKey, s: Stream)
    requires f.Ready() && DeviceLaidOut(f.w) && DistinctIds(f.targets) && Sane(f.t, f.shapes, ns, f.host, b)
    requires AllFit(AllToDevice(T.AllDescs(f.ts)), f.gpu, f.host)
    requires i < |f.names| && j < |f.targets| && LayerLoadable(f.t, f.w, f.tpRank, f.names[i])
    requires HeldAs(b, f.targets[j].1, key, s)
    ensures BlockRestored(f.t, f.w, f.tpRank, f.names[i], f.targets[j], b, s,
                          Applied(f.gpu, f.host, AllToDevice(T.AllDescs(f.ts))))
  {
    LayerFits(f, i, j);
    var slot, l := LoadSlot(f.t, f.w, f.tpRank, f.names[i]), f.t.nameToId[f.names[i]];
    SlotBelowTotal(f.t, f.shapes, l, f.tpRank, slot);
    SlotStores(f.t, l, f.tpRank, slot);
    HeldKept(f.t, f.shapes, ns, f.host, b, f.targets[j].1, key, s, slot, l);
    LoadRestores(f, i, j, b.images[FirstAt(b.history, s, slot)][l]);
  }

  /** After the copy, every block of the load is restored. */
  lemma FetchRestores(f: Fetch, ns: string, b: Book)
    requires f.Ready() && DeviceLaidOut(f.w) && DistinctIds(f.targets) && Sane(f.t, f.shapes, ns, f.host, b)
    requires AllFit(AllToDevice(T.AllDescs(f.ts)), f.gpu, f.host)
    ensures AllRestored(f.t, f.w, f.tpRank, f.names, f.targets, b,
                        Applied(f.gpu, f.host, AllToDevice(T.AllDescs(f.ts))))
  {
    var gpu' := Applied(f.gpu, f.host, AllToDevice(T.AllDescs(f.ts)));
    forall i, j, key, s | 0 <= i < |f.names| && 0 <= j < |f.targets| && LayerLoadable(f.t, f.w, f.tpRank, f.names[i])
      && HeldAs(b, f.targets[j].1, key, s)
      ensures BlockRestored(f.t, f.w, f.tpRank, f.names[i], f.targets[j], b, s, gpu')
    {
      RestoresOne(f, ns, b, i, j, key, s);
    }
  }

  /** A planned fetch runs exactly when all block indices are in range. */
  lemma FetchRuns(f: Fetch)
    requires f.Planned()
    ensures forall i :: 0 <= i < |f.ts| ==> T.HostsValid(f.ts[i])
    ensures T.Ready(f.ts) <==> TargetsInRange(f.w, f.names, f.targets)
    ensures T.Ready(f.ts) ==> AllFit(AllToDevice(T.AllDescs(f.ts)), f.gpu, f.host)
  {
    HostsAreValid(f);
    forall i, j | 0 <= i < |f.names| && 0 <= j < |f.targets|
      ensures f.names[i] in f.w.caches && |f.ts| == |f.names| && |f.ts[i].blocks| == |f.targets|
      ensures f.ts[i].layout == f.w.caches[f.names[i]] && f.ts[i].blocks[j].blockIdx == f.targets[j].0
    {
      LayerFits(f, i, j);
    }
    if T.Ready(f.ts) {
      LoadFits(f);
      T.FitBothWays(f.ts, f.host, f.gpu);
    }
  }

  /** Build the transfers and run them. */
  method FetchBlocks(gpu: array<byte>, host: array<byte>, t: Topology, w: Worker, tpRank: nat, names: seq<string>,
                     targets: seq<Target>, ghost shapes: seq<seq<nat>>, ghost ns: string, ghost b: Book)
    returns (r: Result<(), LoadError>)
    requires gpu != host && Sane(t, shapes, ns, host[..], b)
    requires WorkerSound(t, shapes, w) && GpuHolds(w, gpu.Length) && DeviceLaidOut(w)
    requires TargetsHeld(b, targets, t.TotalSlots())
    modifies gpu
    ensures r.Ok? <==>
      && (forall i :: 0 <= i < |names| ==> LayerLoadable(t, w, tpRank, names[i]))
      && TargetsInRange(w, names, targets)
    ensures r.Err? ==> gpu[..] == old(gpu[..])
    ensures r.Ok? && DistinctIds(targets) ==> AllRestored(t, w, tpRank, names, targets, b, gpu[..])
    ensures r.Ok? ==> forall a :: 0 <= a < gpu.Length && Outside(w, names, targets, a) ==> gpu[a] == old(gpu[a])
  {
    var ts := BuildLoad(t, w, tpRank, names, targets);
    if ts.Err? {
      return Err(ts.error);
    }
    ghost var f := Fetch(t, shapes, w, tpRank, names, targets, ts.value, host[..], gpu[..]);
    TargetsReadable(t, shapes, ns, host[..], b, targets);
    FetchRuns(f);
    var ok := CopyToDevice(gpu, host, ts.value);
    if !ok {
      return Err(LoadError.BlockOutOfRange);
    }
    if DistinctIds(targets) {
      FetchRestores(f, ns, b);
    }
    forall a | 0 <= a < gpu.Length && Outside(w, names, targets, a) ensures gpu[a] == old(gpu[a]) {
      LoadKeepsOutside(f, a);
      assert gpu[a] == gpu[..][a] && old(gpu[a]) == f.gpu[a];
    }
    return Ok(());
  }

  // ---------------------------------------------------------------------------
  // The store
  // ---------------------------------------------------------------------------

  /** Look a block up and keep a reference to it. */
  method LendBlock(cache: CacheMap, key: BlockKey, ghost t: Topology, ghost shapes: seq<seq<nat>>, ghost ns: string,
                   ghost host: Mem, ghost b: Book)
    returns (block: Option<SealedBlock>, ghost id: nat, ghost b': Book)
    requires Sane(t, shapes, ns, host, b) && b.shelves.cache == cache
    ensures Sane(t, shapes, ns, host, b') && b'.shelves == b.shelves
    ensures if key in cache
            then block == Some(cache[key]) && key in b.shelves.origins && id !in b.loans && b' == Lent(b, id, key)
            else block == None && b' == b
  {
    id, b' := 0, b;
    if key !in cache {
      return None, id, b';
    }
    id := LendFresh(t, shapes, ns, host, b, key);
    return Some(cache[key]), id, Lent(b, id, key);
  }

  class Store {
    const topology: Topology
    const namespace: string
    const host: array<byte>
    ghost const shapes: seq<seq<nat>>

    var inflight: InflightMap
    var cache: CacheMap

    /** What the blocks go back to, what is on loan, and which saves are under way. */
    ghost var book: Book

    ghost predicate Valid()
      reads this, host
    {
      && book.shelves.inflight == inflight && book.shelves.cache == cache
      && Sane(topology, shapes, namespace, host[..], book)
    }

    constructor (topology: Topology, namespace: string, host: array<byte>, ghost shapes: seq<seq<nat>>)
      requires Sound(topology, shapes)
      ensures Valid() && cache == map[] && book == Book(Shelves(map[], map[], map[], map[]), map[], [], [], map[])
      ensures this.topology == topology && this.namespace == namespace && this.host == host && this.shapes == shapes
    {
      this.topology, this.namespace, this.host, this.shapes := topology, namespace, host, shapes;
      inflight, cache := map[], map[];
      book := Book(Shelves(map[], map[], map[], map[]), map[], [], [], map[]);
      new;
      EmptySane(topology, shapes, namespace, host[..]);
    }

    /**
     Start a save: check it, drop what is resident and reserve its memory. A
     refused save leaves everything as it was.
     */
    method Begin(w: Worker, tpRank: nat, ppRank: nat, saves: seq<LayerSave>, blockwise: bool, pool: Pool)
      returns (r: Result<Option<Plan>, SaveError>, ghost id: nat)
      requires Valid() && WorkerSound(topology, shapes, w)
      requires AllocatorSound(topology, shapes, w, tpRank, saves, namespace, cache.Keys, blockwise, pool, host.Length,
                              Occupied(topology, shapes, host.Length, book))
      modifies `book
      ensures Valid()
      ensures r.Ok? <==> Saveable(topology, shapes, w, tpRank, ppRank, saves, namespace, cache.Keys, blockwise, pool)
      ensures w.tpRank != tpRank || w.ppRank != ppRank ==> r == Err(WrongGroup)
      ensures r.Err? || r.value.None? ==> book == old(book)
      ensures r.Ok? && r.value.None? ==>
        Resolves(topology, w, tpRank, saves) && Pending(topology, w, tpRank, saves, namespace, cache.Keys) == []
      ensures r.Ok? && r.value.Some? ==>
        var k := Ticket(w, tpRank, saves, cache.Keys, r.value.value, None);
        id !in old(book.tickets) && book == old(book).(tickets := old(book.tickets)[id := k])
    {
      r, id, book := BeginSave(topology, w, tpRank, ppRank, saves, namespace, cache, blockwise, pool, shapes, host[..],
                               book);
    }

    /** Copy a planned save's blocks from its GPU. Held blocks and other saves keep their bytes. */
    method Copy(gpu: array<byte>, plan: Plan, ghost id: nat)
      requires Valid() && id in book.tickets && book.tickets[id].plan == plan
      requires gpu != host && GpuHolds(book.tickets[id].w, gpu.Length)
      modifies `book, host
      ensures Valid()
      ensures book == old(book).(tickets := old(book.tickets)[id := Done(old(book.tickets)[id], gpu[..])])
    {
      book := CopySave(host, gpu, plan, topology, shapes, namespace, book, id);
    }

    /**
     Hand a copied save to the insert worker. Whatever happened since it was
     planned, resident blocks stay, late duplicates are dropped, and every other
     block is completed or stays inflight.
     */
    method Insert(plan: Plan, numa: nat, refused: set<nat>, ghost id: nat) returns (sealed: Seals)
      requires Valid() && id in book.tickets && book.tickets[id].plan == plan && book.tickets[id].copied.Some?
      modifies this
      ensures Valid() && book.tickets == old(book.tickets) - {id}
      ensures SaveSettled(topology, namespace, RequestOf(old(book.tickets)[id]), old(book), book, sealed, refused)
    {
      ghost var memory := host[..];
      inflight, cache, sealed, book :=
        InsertPlan(inflight, cache, plan, topology, namespace, numa, refused, shapes, memory, book, id);
      assert host[..] == memory;
    }

    /** A save that failed on the way gives its memory back. */
    ghost method Abandon(id: nat)
      requires Valid()
      modifies `book
      ensures Valid() && book == old(book).(tickets := old(book.tickets) - {id})
    {
      var fewer := book.(tickets := book.tickets - {id});
      DropKeeps(topology, shapes, namespace, host[..], book, fewer);
      book := fewer;
    }

    /** Evict blocks. Their memory is free again, except for blocks on loan. */
    method Evict(keys: set<BlockKey>)
      requires Valid()
      modifies this
      ensures Valid() && cache == old(cache) - keys && inflight == old(inflight) && book == Evicted(old(book), keys)
    {
      EvictKeeps(topology, shapes, namespace, host[..], book, keys);
      cache, book := cache - keys, Evicted(book, keys);
    }

    /** Drop inflight blocks that have waited too long. */
    method CollectStale(keys: set<BlockKey>)
      requires Valid()
      modifies this
      ensures Valid() && inflight == old(inflight) - keys && cache == old(cache) && book == Expired(old(book), keys)
    {
      ExpireKeeps(topology, shapes, namespace, host[..], book, keys);
      inflight, book := inflight - keys, Expired(book, keys);
    }

    /** Lend a resident block: it stays readable until it is returned, evicted or not. */
    method Lend(key: BlockKey) returns (block: Option<SealedBlock>, ghost id: nat)
      requires Valid()
      modifies `book
      ensures Valid()
      ensures key in cache ==>
        && block == Some(cache[key]) && key in old(book.shelves.cache) && key in old(book.shelves.origins)
        && id !in old(book.loans) && book == Lent(old(book), id, key)
      ensures key !in cache ==> block == None && book == old(book)
    {
      ghost var memory, b := host[..], book;
      ghost var b';
      block, id, b' := LendBlock(cache, key, topology, shapes, namespace, memory, b);
      book := b';
      assert host[..] == memory;
    }

    ghost method Return(id: nat)
      requires Valid()
      modifies `book
      ensures Valid() && book == old(book).(loans := old(book.loans) - {id})
    {
      var fewer := book.(loans := book.loans - {id});
      DropKeeps(topology, shapes, namespace, host[..], book, fewer);
      book := fewer;
    }

    /**
     A whole save with nothing in between: refused without a trace, or recorded.
     */
    method Save(gpu: array<byte>, w: Worker, tpRank: nat, ppRank: nat, saves: seq<LayerSave>, blockwise: bool,
                pool: Pool, numa: nat, refused: set<nat>)
      returns (r: Result<Seals, SaveError>)
      requires Valid() && gpu != host && WorkerSound(topology, shapes, w) && GpuHolds(w, gpu.Length)
      requires AllocatorSound(topology, shapes, w, tpRank, saves, namespace, cache.Keys, blockwise, pool, host.Length,
                              Occupied(topology, shapes, host.Length, book))
      modifies this, host
      ensures Valid()
      ensures r.Ok?
         <==> Saveable(topology, shapes, w, tpRank, ppRank, saves, namespace, old(cache.Keys), blockwise, pool)
      ensures w.tpRank != tpRank || w.ppRank != ppRank ==> r == Err(WrongGroup)
      ensures r.Err? ==> unchanged(this) && host[..] == old(host[..])
      ensures r.Ok? ==>
        && book.tickets == old(book.tickets)
        && SaveSettled(topology, namespace, Request(w, tpRank, saves, old(cache.Keys), gpu[..]), old(book), book,
                       r.value, refused)
    {
      r, inflight, cache, book :=
        RunSave(inflight, cache, host, gpu, topology, w, tpRank, ppRank, saves, namespace, blockwise, pool, numa,
                refused, shapes, book);
    }

    /**
     Load held blocks to a device. A refused load leaves the GPU as it was. An
     accepted one restores, for every layer and block, the bytes of the first
     delivery the block was built from, and touches nothing else.
     */
    method LoadBlocks(gpu: array<byte>, w: Worker, tpRank: nat, names: seq<string>, loads: seq<Load>)
      returns (r: Result<(), LoadError>)
      requires Valid() && gpu != host && WorkerSound(topology, shapes, w) && GpuHolds(w, gpu.Length) && DeviceLaidOut(w)
      requires LoadsHeld(loads, book, topology.TotalSlots())
      modifies gpu
      ensures r.Ok? <==> Loadable(topology, w, tpRank, names, loads)
      ensures r.Err? ==> gpu[..] == old(gpu[..])
      ensures r.Ok? ==>
        var targets := AllTargets(loads, topology.TotalSlots());
        && (DistinctIds(targets) ==> AllRestored(topology, w, tpRank, names, targets, book, gpu[..]))
        && (forall a :: 0 <= a < gpu.Length && Outside(w, names, targets, a) ==> gpu[a] == old(gpu[a]))
    {
      var targets := CollectTargets(loads, topology.TotalSlots());
      if targets.Err? {
        return Err(targets.error);
      }
      LoadsGiveHeld(loads, book, topology.TotalSlots());
      r := FetchBlocks(gpu, host, topology, w, tpRank, names, targets.value, shapes, namespace, book);
    }
  }

  lemma EmptySane(t: Topology, shapes: seq<seq<nat>>, ns: string, host: Mem)
    requires Sound(t, shapes)
    ensures Sane(t, shapes, ns, host, Book(Shelves(map[], map[], map[], map[]), map[], [], [], map[]))
  {
    var b := Book(Shelves(map[], map[], map[], map[]), map[], [], [], map[]);
    assert Streams(b) == {};
  }
}
