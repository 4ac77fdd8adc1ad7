/**
 The save pipeline up to the copy (pegaflow-core/src/offload.rs): resolve the
 layers, drop what is already cached, and place every block in pinned memory,
 layer-first or page-first.
 */
module SavePlan {
  import opened Prelude
  import opened Names
  import opened InsertEntries
  import opened Topology
  import T = Transfer
  import L = Layout
  import P = PageLayout

  datatype LayerSave = LayerSave(name: string, blockIds: seq<nat>, hashes: seq<Hash>)

  /** A layer being saved: where it lives on the GPU, which slot it fills, which blocks. */
  datatype Ctx = Ctx(name: string, id: nat, layout: L.Layout, slot: nat, blocks: seq<(nat, Hash)>)

  datatype SaveError =
    | WrongGroup
    | LengthMismatch
    | UnknownLayer
    | NotOnDevice
    | BadTpRank
    | BlockOutOfRange
    | SplitInPage
    | ManyShards
    | DifferentBlocks
    | PartialShard
    | EmptyPage
    | PoolExhausted

  // ---------------------------------------------------------------------------
  // A sound topology: what sealing guarantees and saving relies on
  // ---------------------------------------------------------------------------

  predicate IdsSound(t: Topology) {
    && (forall n :: n in t.nameToId ==> t.nameToId[n] < t.NumLayers())
    && (forall n, m :: n in t.nameToId && m in t.nameToId && t.nameToId[n] == t.nameToId[m] ==> n == m)
  }

  /** Within a shard, layers own disjoint slices of the page. */
  ghost predicate PagesSound(p: P.PageLayout, layers: nat) {
    && |p.layerShard| == |p.layerOffsets| == |p.layerBytes| == layers
    && (forall l :: 0 <= l < layers ==>
          && p.layerShard[l] < |p.shardPageSizes|
          && p.layerOffsets[l] + p.layerBytes[l] <= p.shardPageSizes[p.layerShard[l]])
    && (forall l, k :: 0 <= l < layers && 0 <= k < layers && l != k && p.layerShard[l] == p.layerShard[k] ==>
          || p.layerOffsets[l] + p.layerBytes[l] <= p.layerOffsets[k]
          || p.layerOffsets[k] + p.layerBytes[k] <= p.layerOffsets[l])
  }

  /** A device's registration of one layer agrees with the topology. */
  ghost predicate CacheSound(t: Topology, shapes: seq<seq<nat>>, n: string, l: L.Layout) {
    && n in t.nameToId && t.nameToId[n] < |shapes|
    && L.Accepted(l)
    && T.PieceSizes(l) == shapes[t.nameToId[n]]
    && (t.page.Some? ==>
          t.nameToId[n] < |t.page.value.layerBytes| && t.page.value.layerBytes[t.nameToId[n]] == l.PaddedBlockBytes())
  }

  ghost predicate WorkerSound(t: Topology, shapes: seq<seq<nat>>, w: Worker) {
    forall n :: n in w.caches ==> CacheSound(t, shapes, n, w.caches[n])
  }

  ghost predicate Sound(t: Topology, shapes: seq<seq<nat>>) {
    && t.tpSize > 0 && t.NumLayers() > 0
    && IdsSound(t)
    && (t.page.Some? ==> PagesSound(t.page.value, t.NumLayers()))
    && |shapes| == t.NumLayers()
    && forall l :: 0 <= l < |shapes| ==> 1 <= |shapes[l]| <= 2
  }

  /** SSD padding is an engine-wide setting: every layout is padded to the same alignment. */
  predicate UniformPadding(ws: set<Worker>, alignment: nat) {
    alignment > 0 && forall w, n :: w in ws && n in w.caches ==>
      w.caches[n].paddedSegmentBytes == L.NextMultipleOf(w.caches[n].segmentBytes, alignment)
  }

  ghost predicate AllAccepted(ws: set<Worker>) {
    forall w, n :: w in ws && n in w.caches ==> L.Accepted(w.caches[n])
  }

  /** Equal geometry under equal padding means equal pieces. */
  lemma SameGeometrySamePieces(a: L.Layout, b: L.Layout, alignment: nat)
    requires L.Accepted(a) && L.Accepted(b) && alignment > 0 && GeometryOf(a) == GeometryOf(b)
    requires a.paddedSegmentBytes == L.NextMultipleOf(a.segmentBytes, alignment)
    requires b.paddedSegmentBytes == L.NextMultipleOf(b.segmentBytes, alignment)
    ensures T.PieceSizes(a) == T.PieceSizes(b)
  {
    EqualFactor(a.segments, b.segments, a.paddedSegmentBytes);
  }

  lemma PlacesSound(p: P.PageLayout, shards: set<set<nat>>, layers: nat)
    requires P.Places(p, shards, p.layerBytes) && P.Covered(shards, layers) && |p.layerBytes| == layers
    ensures PagesSound(p, layers)
  {
    var padded := p.layerBytes;
    var ordered :| P.InKeyOrder(ordered, shards, |padded|) && P.PacksInto(p, ordered, padded);
    forall l: nat | l < layers
      ensures p.layerShard[l] < |ordered| && l in ordered[p.layerShard[l]]
      ensures p.layerOffsets[l] == P.BytesBelow(padded, ordered[p.layerShard[l]], l)
    {
      var i := P.OwnerListed(ordered, shards, layers, l);
    }
    forall l: nat, k: nat | l < layers && k < layers && l < k && p.layerShard[l] == p.layerShard[k]
      ensures p.layerOffsets[l] + p.layerBytes[l] <= p.layerOffsets[k]
    {
      P.BytesBelowSteps(padded, ordered[p.layerShard[l]], l, k);
    }
    forall l: nat | l < layers
      ensures p.layerOffsets[l] + p.layerBytes[l] <= p.shardPageSizes[p.layerShard[l]]
    {
      P.BytesBelowSteps(padded, ordered[p.layerShard[l]], l, layers);
    }
  }

  /** One list of piece sizes per layer, read off any worker that registered it. */
  lemma {:induction false} ShapesExist(ws: set<Worker>, list: seq<string>, alignment: nat, upTo: nat)
    returns (shapes: seq<seq<nat>>)
    requires Lists(list, NamesIn(ClaimsOf(ws))) && OneGeometry(ClaimsOf(ws)) && upTo <= |list|
    requires UniformPadding(ws, alignment) && AllAccepted(ws)
    ensures |shapes| == upTo && forall l :: 0 <= l < upTo ==> 1 <= |shapes[l]| <= 2
    ensures forall w, l :: w in ws && 0 <= l < upTo && list[l] in w.caches ==>
      shapes[l] == T.PieceSizes(w.caches[list[l]])
  {
    if upTo == 0 {
      shapes := [];
    } else {
      var init := ShapesExist(ws, list, alignment, upTo - 1);
      var v := NameOwner(ws, list, upTo - 1);
      var n := list[upTo - 1];
      shapes := init + [T.PieceSizes(v.caches[n])];
      forall w | w in ws && n in w.caches
        ensures T.PieceSizes(w.caches[n]) == T.PieceSizes(v.caches[n])
      {
        NameListed(ws, list, w, n);
        NameListed(ws, list, v, n);
        assert ClaimOf(w, n).geometry == ClaimOf(v, n).geometry;
        SameGeometrySamePieces(w.caches[n], v.caches[n], alignment);
      }
    }
  }

  /** A topology sealed from accepted, uniformly padded registrations is sound for all its workers. */
  lemma SealedIsSound(t: Topology, ws: set<Worker>, tp: nat, pageFirst: bool, list: seq<string>, alignment: nat)
    returns (shapes: seq<seq<nat>>)
    requires SealedFrom(t, ws, tp, pageFirst, list) && Sealable(ws, tp, pageFirst) && tp > 0 && list != []
    requires UniformPadding(ws, alignment) && AllAccepted(ws)
    ensures Sound(t, shapes) && forall w :: w in ws ==> WorkerSound(t, shapes, w)
  {
    IdsInjective(list);
    shapes := ShapesExist(ws, list, alignment, |list|);
    if pageFirst {
      SetsCoverLayers(ws, list);
      PlacesSound(t.page.value, LayerSets(ws, t.nameToId), |list|);
    }
    forall w, n | w in ws && n in w.caches
      ensures CacheSound(t, shapes, n, w.caches[n])
    {
      NameListed(ws, list, w, n);
    }
  }

  // ---------------------------------------------------------------------------
  // Resolving and filtering the request
  // ---------------------------------------------------------------------------

  predicate SlotKnown(t: Topology) { t.page.Some? ==> |t.page.value.layerShard| == t.NumLayers() }

  predicate Resolvable(t: Topology, w: Worker, tpRank: nat, s: LayerSave)
    requires SlotKnown(t)
  {
    && |s.blockIds| == |s.hashes|
    && s.name in t.nameToId
    && s.name in w.caches
    && SlotIndex(t, t.nameToId[s.name], tpRank).Ok?
    && forall i :: 0 <= i < |s.blockIds| ==> s.blockIds[i] < w.caches[s.name].numBlocks
  }

  function Pairs(s: LayerSave): (r: seq<(nat, Hash)>)
    requires |s.blockIds| == |s.hashes|
    ensures |r| == |s.blockIds| && forall i :: 0 <= i < |r| ==> r[i] == (s.blockIds[i], s.hashes[i])
  {
    seq(|s.blockIds|, i requires 0 <= i < |s.blockIds| => (s.blockIds[i], s.hashes[i]))
  }

  function CtxOf(t: Topology, w: Worker, tpRank: nat, s: LayerSave): Ctx
    requires SlotKnown(t) && Resolvable(t, w, tpRank, s)
  {
    var id := t.nameToId[s.name];
    Ctx(s.name, id, w.caches[s.name], SlotIndex(t, id, tpRank).value, Pairs(s))
  }

  /** The contexts of a request, in order; layers without blocks are skipped. */
  function Contexts(t: Topology, w: Worker, tpRank: nat, saves: seq<LayerSave>): seq<Ctx>
    requires SlotKnown(t) && forall i :: 0 <= i < |saves| ==> Resolvable(t, w, tpRank, saves[i])
  {
    if saves == [] then []
    else
      var n := |saves| - 1;
      Contexts(t, w, tpRank, saves[..n]) + (if saves[n].blockIds == [] then [] else [CtxOf(t, w, tpRank, saves[n])])
  }

  /** Phase 0: one layer of the request. */
  method ResolveOne(t: Topology, w: Worker, tpRank: nat, s: LayerSave) returns (r: Result<Ctx, SaveError>)
    requires SlotKnown(t)
    ensures r.Ok? <==> Resolvable(t, w, tpRank, s)
    ensures r.Ok? <==>
      && |s.blockIds| == |s.hashes| && s.name in t.nameToId && s.name in w.caches
      && t.nameToId[s.name] < |t.nameToId| && tpRank < t.tpSize
      && forall i :: 0 <= i < |s.blockIds| ==> s.blockIds[i] < w.caches[s.name].numBlocks
    ensures r == Err(LengthMismatch) <==> |s.blockIds| != |s.hashes|
    ensures r == Err(SaveError.UnknownLayer) <==> |s.blockIds| == |s.hashes| && s.name !in t.nameToId
    ensures r == Err(NotOnDevice) <==> |s.blockIds| == |s.hashes| && s.name in t.nameToId && s.name !in w.caches
    ensures r.Ok? ==> r.value == CtxOf(t, w, tpRank, s)
  {
    if |s.blockIds| != |s.hashes| {
      return Err(LengthMismatch);
    }
    var id := LayerId(t, s.name);
    if id.Err? {
      return Err(SaveError.UnknownLayer);
    }
    if s.name !in w.caches {
      return Err(NotOnDevice);
    }
    var slot := SlotIndex(t, id.value, tpRank);
    if slot.Err? {
      return Err(BadTpRank);
    }
    var layout := w.caches[s.name];
    for i := 0 to |s.blockIds|
      invariant forall k :: 0 <= k < i ==> s.blockIds[k] < layout.numBlocks
    {
      if s.blockIds[i] >= layout.numBlocks {
        return Err(BlockOutOfRange);
      }
    }
    return Ok(Ctx(s.name, id.value, layout, slot.value, Pairs(s)));
  }

  /** Phase 0: the whole request resolves, or nothing happens. */
  method ResolveContexts(t: Topology, w: Worker, tpRank: nat, saves: seq<LayerSave>)
    returns (r: Result<seq<Ctx>, SaveError>)
    requires SlotKnown(t)
    ensures r.Ok? <==> forall i :: 0 <= i < |saves| ==> Resolvable(t, w, tpRank, saves[i])
    ensures r.Ok? ==> r.value == Contexts(t, w, tpRank, saves)
  {
    var ctxs: seq<Ctx> := [];
    for i := 0 to |saves|
      invariant forall k :: 0 <= k < i ==> Resolvable(t, w, tpRank, saves[k])
      invariant ctxs == Contexts(t, w, tpRank, saves[..i])
    {
      var one := ResolveOne(t, w, tpRank, saves[i]);
      if one.Err? {
        return Err(one.error);
      }
      assert saves[..i + 1][..i] == saves[..i];
      if saves[i].blockIds != [] {
        ctxs := ctxs + [one.value];
      }
    }
    assert saves[..|saves|] == saves;
    r := Ok(ctxs);
  }

  /** The blocks whose key is not resident, in order. */
  function Missing(blocks: seq<(nat, Hash)>, ns: string, resident: set<BlockKey>): seq<(nat, Hash)> {
    if blocks == [] then []
    else
      var n := |blocks| - 1;
      Missing(blocks[..n], ns, resident) + (if BlockKey(ns, blocks[n].1) in resident then [] else [blocks[n]])
  }

  function ToSave(ctxs: seq<Ctx>, ns: string, resident: set<BlockKey>): seq<Ctx> {
    if ctxs == [] then []
    else
      var n := |ctxs| - 1;
      var left := Missing(ctxs[n].blocks, ns, resident);
      ToSave(ctxs[..n], ns, resident) + (if left == [] then [] else [ctxs[n].(blocks := left)])
  }

  method KeepMissing(blocks: seq<(nat, Hash)>, ns: string, resident: set<BlockKey>) returns (left: seq<(nat, Hash)>)
    ensures left == Missing(blocks, ns, resident)
  {
    left := [];
    for i := 0 to |blocks|
      invariant left == Missing(blocks[..i], ns, resident)
    {
      assert blocks[..i + 1][..i] == blocks[..i];
      if BlockKey(ns, blocks[i].1) !in resident {
        left := left + [blocks[i]];
      }
    }
    assert blocks[..|blocks|] == blocks;
  }

  /** Phase 1: drop cached hashes, then layers with nothing left. */
  method FilterContexts(ctxs: seq<Ctx>, ns: string, resident: set<BlockKey>) returns (out: seq<Ctx>)
    ensures out == ToSave(ctxs, ns, resident)
  {
    out := [];
    for i := 0 to |ctxs|
      invariant out == ToSave(ctxs[..i], ns, resident)
    {
      assert ctxs[..i + 1][..i] == ctxs[..i];
      var left := KeepMissing(ctxs[i].blocks, ns, resident);
      if left != [] {
        out := out + [ctxs[i].(blocks := left)];
      }
    }
    assert ctxs[..|ctxs|] == ctxs;
  }

  /** A context that the rest of the pipeline can use. */
  ghost predicate CtxSound(t: Topology, shapes: seq<seq<nat>>, w: Worker, tpRank: nat, ctx: Ctx) {
    && SlotKnown(t)
    && ctx.name in t.nameToId && ctx.id == t.nameToId[ctx.name] && ctx.id < t.NumLayers()
    && ctx.name in w.caches && ctx.layout == w.caches[ctx.name]
    && CacheSound(t, shapes, ctx.name, ctx.layout)
    && SlotIndex(t, ctx.id, tpRank) == Ok(ctx.slot)
    && ctx.blocks != []
    && forall i :: 0 <= i < |ctx.blocks| ==> ctx.blocks[i].0 < ctx.layout.numBlocks
  }

  ghost predicate AllSound(t: Topology, shapes: seq<seq<nat>>, w: Worker, tpRank: nat, ctxs: seq<Ctx>) {
    forall c :: 0 <= c < |ctxs| ==> CtxSound(t, shapes, w, tpRank, ctxs[c])
  }

  /** Every block of a context was asked for: same layer, same block, same hash. */
  ghost predicate Requested(saves: seq<LayerSave>, ctx: Ctx) {
    forall i :: 0 <= i < |ctx.blocks| ==> AskedFor(saves, ctx.name, ctx.blocks[i])
  }

  ghost predicate AllRequested(saves: seq<LayerSave>, ctxs: seq<Ctx>) {
    forall c :: 0 <= c < |ctxs| ==> Requested(saves, ctxs[c])
  }

  predicate AskedFor(saves: seq<LayerSave>, name: string, block: (nat, Hash)) {
    exists s, j :: 0 <= s < |saves| && 0 <= j < |saves[s].blockIds| && j < |saves[s].hashes|
                && saves[s].name == name && saves[s].blockIds[j] == block.0 && saves[s].hashes[j] == block.1
  }

  lemma {:induction false} MissingMembers(blocks: seq<(nat, Hash)>, ns: string, resident: set<BlockKey>)
    ensures forall b :: b in Missing(blocks, ns, resident) <==> b in blocks && BlockKey(ns, b.1) !in resident
  {
    if blocks != [] {
      var n := |blocks| - 1;
      MissingMembers(blocks[..n], ns, resident);
      assert blocks == blocks[..n] + [blocks[n]];
    }
  }

  lemma CtxOfSound(t: Topology, shapes: seq<seq<nat>>, w: Worker, tpRank: nat, s: LayerSave)
    requires SlotKnown(t) && IdsSound(t) && WorkerSound(t, shapes, w) && Resolvable(t, w, tpRank, s) && s.blockIds != []
    ensures CtxSound(t, shapes, w, tpRank, CtxOf(t, w, tpRank, s))
  {
    assert CacheSound(t, shapes, s.name, w.caches[s.name]);
  }

  lemma {:induction false} ContextsSound(t: Topology, shapes: seq<seq<nat>>, w: Worker, tpRank: nat,
                                         saves: seq<LayerSave>)
    requires SlotKnown(t) && IdsSound(t) && WorkerSound(t, shapes, w)
    requires forall i :: 0 <= i < |saves| ==> Resolvable(t, w, tpRank, saves[i])
    ensures AllSound(t, shapes, w, tpRank, Contexts(t, w, tpRank, saves))
  {
    if saves != [] {
      var n := |saves| - 1;
      ContextsSound(t, shapes, w, tpRank, saves[..n]);
      if saves[n].blockIds != [] {
        CtxOfSound(t, shapes, w, tpRank, saves[n]);
      }
    }
  }

  lemma {:induction false} ContextsRequested(t: Topology, w: Worker, tpRank: nat, saves: seq<LayerSave>, upTo: nat)
    requires SlotKnown(t) && upTo <= |saves| && forall i :: 0 <= i < |saves| ==> Resolvable(t, w, tpRank, saves[i])
    ensures AllRequested(saves, Contexts(t, w, tpRank, saves[..upTo]))
  {
    if upTo > 0 {
      var n := upTo - 1;
      ContextsRequested(t, w, tpRank, saves, n);
      assert saves[..upTo][..n] == saves[..n];
      var ctx := CtxOf(t, w, tpRank, saves[n]);
      forall i | 0 <= i < |ctx.blocks| ensures AskedFor(saves, ctx.name, ctx.blocks[i]) {
        assert saves[n].blockIds[i] == ctx.blocks[i].0;
      }
      assert Requested(saves, ctx);
    }
  }

  lemma {:induction false} ToSaveSound(t: Topology, shapes: seq<seq<nat>>, w: Worker, tpRank: nat,
                                       saves: seq<LayerSave>, ctxs: seq<Ctx>, ns: string, resident: set<BlockKey>)
    requires AllSound(t, shapes, w, tpRank, ctxs) && AllRequested(saves, ctxs)
    ensures AllSound(t, shapes, w, tpRank, ToSave(ctxs, ns, resident))
    ensures AllRequested(saves, ToSave(ctxs, ns, resident))
  {
    if ctxs != [] {
      var n := |ctxs| - 1;
      ToSaveSound(t, shapes, w, tpRank, saves, ctxs[..n], ns, resident);
      var left := Missing(ctxs[n].blocks, ns, resident);
      MissingMembers(ctxs[n].blocks, ns, resident);
      assert forall i :: 0 <= i < |left| ==> left[i] in ctxs[n].blocks;
      if left != [] {
        assert CtxSound(t, shapes, w, tpRank, ctxs[n].(blocks := left));
        assert Requested(saves, ctxs[n].(blocks := left));
      }
    }
  }

  // ---------------------------------------------------------------------------
  // First come, first stored
  // ---------------------------------------------------------------------------

  /** The first block listed under a hash. */
  function FirstIn(blocks: seq<(nat, Hash)>, h: Hash): Option<nat> {
    if blocks == [] then None
    else
      var n := |blocks| - 1;
      var before := FirstIn(blocks[..n], h);
      if before.Some? then before else if blocks[n].1 == h then Some(blocks[n].0) else None
  }

  /** Where it is listed. */
  lemma {:induction false} FirstInAt(blocks: seq<(nat, Hash)>, h: Hash, j: nat)
    requires j < |blocks| && blocks[j].1 == h && forall i :: 0 <= i < j ==> blocks[i].1 != h
    ensures FirstIn(blocks, h) == Some(blocks[j].0)
  {
    var n := |blocks| - 1;
    if j < n {
      FirstInAt(blocks[..n], h, j);
    } else {
      NotIn(blocks[..n], h);
    }
  }

  lemma {:induction false} NotIn(blocks: seq<(nat, Hash)>, h: Hash)
    ensures FirstIn(blocks, h).None? <==> forall i :: 0 <= i < |blocks| ==> blocks[i].1 != h
  {
    if blocks != [] {
      var n := |blocks| - 1;
      NotIn(blocks[..n], h);
      assert forall i :: 0 <= i < n ==> blocks[..n][i] == blocks[i];
    }
  }

  /** A request's blocks for one layer; a request with lists of different lengths is refused. */
  function Listed(s: LayerSave): seq<(nat, Hash)> { if |s.blockIds| == |s.hashes| then Pairs(s) else [] }

  /** The first block of a layer that the request lists under a hash, in request order. */
  function FirstAsked(saves: seq<LayerSave>, name: string, h: Hash): Option<nat> {
    if saves == [] then None
    else
      var n := |saves| - 1;
      var before := FirstAsked(saves[..n], name, h);
      if before.Some? then before else if saves[n].name == name then FirstIn(Listed(saves[n]), h) else None
  }

  function FirstCarried(ctxs: seq<Ctx>, id: nat, h: Hash): Option<nat> {
    if ctxs == [] then None
    else
      var n := |ctxs| - 1;
      var before := FirstCarried(ctxs[..n], id, h);
      if before.Some? then before else if ctxs[n].id == id then FirstIn(ctxs[n].blocks, h) else None
  }

  /** Resolving keeps the order. */
  lemma {:induction false} ContextsCarryFirst(t: Topology, w: Worker, tpRank: nat, saves: seq<LayerSave>,
                                              name: string, h: Hash)
    requires SlotKnown(t) && IdsSound(t) && name in t.nameToId
    requires forall i :: 0 <= i < |saves| ==> Resolvable(t, w, tpRank, saves[i])
    ensures FirstCarried(Contexts(t, w, tpRank, saves), t.nameToId[name], h) == FirstAsked(saves, name, h)
  {
    if saves != [] {
      var n := |saves| - 1;
      var before := Contexts(t, w, tpRank, saves[..n]);
      ContextsCarryFirst(t, w, tpRank, saves[..n], name, h);
      if saves[n].blockIds != [] {
        assert (before + [CtxOf(t, w, tpRank, saves[n])])[..|before|] == before;
      } else {
        assert before + [] == before;
      }
    }
  }

  lemma {:induction false} MissingFirst(blocks: seq<(nat, Hash)>, ns: string, resident: set<BlockKey>, h: Hash)
    ensures FirstIn(Missing(blocks, ns, resident), h) ==
      if BlockKey(ns, h) in resident then None else FirstIn(blocks, h)
  {
    if blocks != [] {
      var n := |blocks| - 1;
      var before := Missing(blocks[..n], ns, resident);
      MissingFirst(blocks[..n], ns, resident, h);
      assert (before + [blocks[n]])[..|before|] == before && before + [] == before;
    }
  }

  /** Filtering keeps the order of what is not resident, and drops everything that is. */
  lemma {:induction false} ToSaveCarriesFirst(ctxs: seq<Ctx>, ns: string, resident: set<BlockKey>, id: nat, h: Hash)
    ensures FirstCarried(ToSave(ctxs, ns, resident), id, h) ==
      if BlockKey(ns, h) in resident then None else FirstCarried(ctxs, id, h)
  {
    if ctxs != [] {
      var n := |ctxs| - 1;
      var before, left := ToSave(ctxs[..n], ns, resident), Missing(ctxs[n].blocks, ns, resident);
      ToSaveCarriesFirst(ctxs[..n], ns, resident, id, h);
      MissingFirst(ctxs[n].blocks, ns, resident, h);
      assert (before + [ctxs[n].(blocks := left)])[..|before|] == before && before + [] == before;
    }
  }

  // ---------------------------------------------------------------------------
  // Which slots a request fills
  // ---------------------------------------------------------------------------

  /** The slot a layer of the request fills. */
  function SlotFor(t: Topology, w: Worker, tpRank: nat, s: LayerSave): nat
    requires SlotKnown(t) && Resolvable(t, w, tpRank, s)
  {
    SlotIndex(t, t.nameToId[s.name], tpRank).value
  }

  /** Some layer of the request fills the slot and lists the hash. */
  predicate Asks(t: Topology, w: Worker, tpRank: nat, saves: seq<LayerSave>, slot: nat, h: Hash)
    requires SlotKnown(t) && forall i :: 0 <= i < |saves| ==> Resolvable(t, w, tpRank, saves[i])
  {
    saves != [] &&
    var n := |saves| - 1;
    Asks(t, w, tpRank, saves[..n], slot, h) || (SlotFor(t, w, tpRank, saves[n]) == slot && h in saves[n].hashes)
  }

  /** Layer-first, a request fills slots of its own tensor-parallel rank only. */
  lemma {:induction false} AskedSlotRank(t: Topology, w: Worker, tpRank: nat, saves: seq<LayerSave>, slot: nat, h: Hash)
    requires t.page.None? && forall i :: 0 <= i < |saves| ==> Resolvable(t, w, tpRank, saves[i])
    requires Asks(t, w, tpRank, saves, slot, h)
    ensures t.tpSize > 0 && slot % t.tpSize == tpRank && slot / t.tpSize < t.NumLayers()
  {
    var n := |saves| - 1;
    if Asks(t, w, tpRank, saves[..n], slot, h) {
      AskedSlotRank(t, w, tpRank, saves[..n], slot, h);
    } else {
      SplitDivMod(slot, t.nameToId[saves[n].name], t.tpSize, tpRank);
    }
  }

  predicate Carries(ctxs: seq<Ctx>, slot: nat, h: Hash) {
    ctxs != [] &&
    var n := |ctxs| - 1;
    Carries(ctxs[..n], slot, h) || (ctxs[n].slot == slot && FirstIn(ctxs[n].blocks, h).Some?)
  }

  lemma PairsList(s: LayerSave, h: Hash)
    requires |s.blockIds| == |s.hashes|
    ensures FirstIn(Pairs(s), h).Some? <==> h in s.hashes
  {
    NotIn(Pairs(s), h);
  }

  lemma {:induction false} ContextsCarry(t: Topology, w: Worker, tpRank: nat, saves: seq<LayerSave>, slot: nat, h: Hash)
    requires SlotKnown(t) && forall i :: 0 <= i < |saves| ==> Resolvable(t, w, tpRank, saves[i])
    ensures Carries(Contexts(t, w, tpRank, saves), slot, h) <==> Asks(t, w, tpRank, saves, slot, h)
  {
    if saves != [] {
      var n := |saves| - 1;
      var before := Contexts(t, w, tpRank, saves[..n]);
      ContextsCarry(t, w, tpRank, saves[..n], slot, h);
      if saves[n].blockIds != [] {
        assert (before + [CtxOf(t, w, tpRank, saves[n])])[..|before|] == before;
        PairsList(saves[n], h);
      } else {
        assert before + [] == before;
      }
    }
  }

  /** Filtering drops exactly the resident blocks. */
  lemma {:induction false} ToSaveCarries(ctxs: seq<Ctx>, ns: string, resident: set<BlockKey>, slot: nat, h: Hash)
    ensures Carries(ToSave(ctxs, ns, resident), slot, h) <==> BlockKey(ns, h) !in resident && Carries(ctxs, slot, h)
  {
    if ctxs != [] {
      var n := |ctxs| - 1;
      var before, left := ToSave(ctxs[..n], ns, resident), Missing(ctxs[n].blocks, ns, resident);
      ToSaveCarries(ctxs[..n], ns, resident, slot, h);
      MissingFirst(ctxs[n].blocks, ns, resident, h);
      assert (before + [ctxs[n].(blocks := left)])[..|before|] == before && before + [] == before;
    }
  }

  lemma {:induction false} CarriesAt(ctxs: seq<Ctx>, slot: nat, h: Hash)
    ensures Carries(ctxs, slot, h)
       <==> exists c :: 0 <= c < |ctxs| && ctxs[c].slot == slot && FirstIn(ctxs[c].blocks, h).Some?
  {
    if ctxs != [] {
      var n := |ctxs| - 1;
      CarriesAt(ctxs[..n], slot, h);
      assert forall c :: 0 <= c < n ==> ctxs[..n][c] == ctxs[c];
    }
  }
}
