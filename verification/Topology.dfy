/**
 The sealed layer-id space (pegaflow-core/src/instance.rs, `LayerTopology` and
 `seal_topology`). Sealing is specified on the *set* of registered workers, so
 ids, slots and page offsets cannot depend on hash-map iteration order.
 */
module Topology {
  import opened Prelude
  import L = Layout
  import opened Names
  import P = PageLayout

  /** One registered GPU: the part of its context that sealing looks at. */
  datatype Worker = Worker(deviceId: int, tpRank: nat, ppRank: nat, caches: map<string, L.Layout>)

  datatype Topology = Topology(nameToId: map<string, nat>, tpSize: nat, page: Option<P.PageLayout>)
  {
    function NumLayers(): nat { |nameToId| }

    function TotalSlots(): nat {
      match page
      case Some(p) => |p.shardPageSizes|
      case None => NumLayers() * tpSize
    }
  }

  datatype SealError = InconsistentGeometry | DifferentStages | MissingOwner | Page(e: P.PageError)

  datatype LookupError = UnknownLayer | LayerOutOfRange | TpRankOutOfRange

  datatype Geometry = Geometry(segmentBytes: nat, split: bool, paddedBlockBytes: nat)

  function GeometryOf(l: L.Layout): Geometry {
    Geometry(l.segmentBytes, l.IsSplit(), l.PaddedBlockBytes())
  }

  // ---------------------------------------------------------------------------
  // Lookups
  // ---------------------------------------------------------------------------

  function LayerId(t: Topology, name: string): Result<nat, LookupError> {
    if name in t.nameToId then Ok(t.nameToId[name]) else Err(UnknownLayer)
  }

  function SlotIndex(t: Topology, layer: nat, tpRank: nat): Result<nat, LookupError>
    requires t.page.Some? ==> |t.page.value.layerShard| == t.NumLayers()
  {
    if layer >= t.NumLayers() then Err(LayerOutOfRange)
    else if tpRank >= t.tpSize then Err(TpRankOutOfRange)
    else match t.page
      case Some(p) => Ok(p.layerShard[layer])
      case None => Ok(layer * t.tpSize + tpRank)
  }

  // ---------------------------------------------------------------------------
  // Grid arithmetic
  // ---------------------------------------------------------------------------

  lemma GridIndex(layer: nat, rank: nat, layers: nat, tp: nat)
    requires layer < layers && rank < tp
    ensures layer * tp + rank < layers * tp
    ensures (layer * tp + rank) / tp == layer && (layer * tp + rank) % tp == rank
  {
    MulMonotone(layer + 1, layers, tp);
    assert (layer + 1) * tp == layer * tp + tp;
    SplitDivMod(layer * tp + rank, layer, tp, rank);
  }

  lemma GridInverse(g: nat, layers: nat, tp: nat)
    requires tp > 0 && g < layers * tp
    ensures g / tp < layers && g % tp < tp && (g / tp) * tp + g % tp == g
  {
    L.QuotientBounds(g, tp);
    var q := g / tp;
    if q >= layers { MulMonotone(layers, q, tp); }
  }

  /** Layer-first slots are numbered below the total, and distinct cells get distinct slots. */
  lemma LayerFirstSlotsInjective(t: Topology, l: nat, r: nat, l': nat, r': nat)
    requires t.page.None? && l < t.NumLayers() && r < t.tpSize && l' < t.NumLayers() && r' < t.tpSize
    ensures SlotIndex(t, l, r).Ok? && SlotIndex(t, l, r).value < t.TotalSlots()
    ensures SlotIndex(t, l, r) == SlotIndex(t, l', r') <==> l == l' && r == r'
  {
    GridIndex(l, r, t.NumLayers(), t.tpSize);
    GridIndex(l', r', t.NumLayers(), t.tpSize);
  }

  /** A lookup fails exactly for a layer or a rank that does not exist; page-first, the slot is the layer's shard. */
  lemma SlotIndexExactly(t: Topology, layer: nat, tpRank: nat)
    requires t.page.Some? ==> |t.page.value.layerShard| == t.NumLayers()
    ensures SlotIndex(t, layer, tpRank) == Err(LayerOutOfRange) <==> layer >= |t.nameToId|
    ensures SlotIndex(t, layer, tpRank) == Err(TpRankOutOfRange) <==> layer < |t.nameToId| && tpRank >= t.tpSize
    ensures layer < |t.nameToId| && tpRank < t.tpSize ==>
      var slot := SlotIndex(t, layer, tpRank);
      && slot.Ok?
      && (t.page.Some? ==> slot.value == t.page.value.layerShard[layer])
      && (t.page.None? ==> slot.value / t.tpSize == layer && slot.value % t.tpSize == tpRank)
  {
    if layer < |t.nameToId| && tpRank < t.tpSize {
      GridIndex(layer, tpRank, t.NumLayers(), t.tpSize);
    }
  }

  /** Every layer-first slot belongs to some (layer, tp_rank). */
  lemma LayerFirstSlotsSurjective(t: Topology, s: nat)
    requires t.page.None? && t.tpSize > 0 && s < t.TotalSlots()
    ensures SlotIndex(t, s / t.tpSize, s % t.tpSize) == Ok(s)
  {
    GridInverse(s, t.NumLayers(), t.tpSize);
  }

  // ---------------------------------------------------------------------------
  // Reference meaning of sealing
  // ---------------------------------------------------------------------------

  /** One layer on one worker. */
  datatype Claim = Claim(name: string, tpRank: nat, ppRank: nat, geometry: Geometry)

  function ClaimOf(w: Worker, n: string): Claim
    requires n in w.caches
  {
    Claim(n, w.tpRank, w.ppRank, GeometryOf(w.caches[n]))
  }

  function ClaimsOn(w: Worker): set<Claim> {
    set n | n in w.caches :: ClaimOf(w, n)
  }

  function ClaimsOf(ws: set<Worker>): set<Claim> {
    set w, c | w in ws && c in ClaimsOn(w) :: c
  }

  function NamesIn(cs: set<Claim>): set<string> {
    set c | c in cs :: c.name
  }

  predicate OneGeometry(cs: set<Claim>) {
    forall c, d :: c in cs && d in cs && c.name == d.name ==> c.geometry == d.geometry
  }

  /** Owners of one (layer, tp_rank) cell belong to one pipeline stage. */
  predicate OneStage(cs: set<Claim>) {
    forall c, d :: c in cs && d in cs && c.name == d.name && c.tpRank == d.tpRank ==> c.ppRank == d.ppRank
  }

  predicate HasOwner(cs: set<Claim>, name: string, rank: nat) {
    exists c :: c in cs && c.name == name && c.tpRank == rank
  }

  predicate GridCovered(cs: set<Claim>, tp: nat) {
    forall n, r: nat :: n in NamesIn(cs) && r < tp ==> HasOwner(cs, n, r)
  }

  predicate ReplicaOrSplit(ws: set<Worker>) {
    forall w, v :: w in ws && v in ws ==> w.caches.Keys == v.caches.Keys || w.caches.Keys !! v.caches.Keys
  }

  /** What a set of workers must satisfy to be sealed. */
  predicate Sealable(ws: set<Worker>, tp: nat, pageFirst: bool) {
    && OneGeometry(ClaimsOf(ws))
    && OneStage(ClaimsOf(ws))
    && GridCovered(ClaimsOf(ws), tp)
    && (pageFirst ==> ReplicaOrSplit(ws))
  }

  predicate RegisteredAt(ws: set<Worker>, n: string, rank: nat) {
    exists w :: w in ws && w.tpRank == rank && n in w.caches
  }

  lemma ClaimPresent(ws: set<Worker>, w: Worker, n: string)
    requires w in ws && n in w.caches
    ensures ClaimOf(w, n) in ClaimsOf(ws) && n in NamesIn(ClaimsOf(ws))
  {
    assert ClaimOf(w, n) in ClaimsOn(w);
  }

  lemma ClaimOrigin(ws: set<Worker>, c: Claim) returns (w: Worker)
    requires c in ClaimsOf(ws)
    ensures w in ws && c.name in w.caches && c == ClaimOf(w, c.name)
  {
    w :| w in ws && c in ClaimsOn(w);
  }

  lemma SameGeometryExactly(ws: set<Worker>)
    ensures OneGeometry(ClaimsOf(ws)) <==>
      forall w, v, n :: w in ws && v in ws && n in w.caches && n in v.caches ==>
        && w.caches[n].segmentBytes == v.caches[n].segmentBytes
        && (w.caches[n].seg.Split? <==> v.caches[n].seg.Split?)
        && w.caches[n].paddedSegmentBytes * w.caches[n].segments
          == v.caches[n].paddedSegmentBytes * v.caches[n].segments
  {
    forall w, n | w in ws && n in w.caches ensures ClaimOf(w, n) in ClaimsOf(ws) {
      ClaimPresent(ws, w, n);
    }
  }

  lemma SameStageExactly(ws: set<Worker>)
    ensures OneStage(ClaimsOf(ws)) <==>
      forall w, v, n :: w in ws && v in ws && n in w.caches && n in v.caches && w.tpRank == v.tpRank ==>
        w.ppRank == v.ppRank
  {
    forall w, n | w in ws && n in w.caches ensures ClaimOf(w, n) in ClaimsOf(ws) {
      ClaimPresent(ws, w, n);
    }
  }

  lemma CoveredExactly(ws: set<Worker>, tp: nat)
    ensures GridCovered(ClaimsOf(ws), tp) <==>
      forall n, r: nat :: (exists w :: w in ws && n in w.caches) && r < tp ==> RegisteredAt(ws, n, r)
  {
    var cs := ClaimsOf(ws);
    forall n ensures n in NamesIn(cs) <==> exists w :: w in ws && n in w.caches {
      if c :| c in cs && c.name == n { var w := ClaimOrigin(ws, c); }
      if w :| w in ws && n in w.caches { ClaimPresent(ws, w, n); }
    }
    forall n, r: nat ensures HasOwner(cs, n, r) <==> RegisteredAt(ws, n, r) {
      if c :| c in cs && c.name == n && c.tpRank == r { var w := ClaimOrigin(ws, c); }
      if w :| w in ws && w.tpRank == r && n in w.caches { ClaimPresent(ws, w, n); }
    }
  }

  /** When a world can be sealed, said of the workers and what each of them registered. */
  lemma SealableExactly(ws: set<Worker>, tp: nat, pageFirst: bool)
    ensures Sealable(ws, tp, pageFirst) <==>
      && (forall w, v, n :: w in ws && v in ws && n in w.caches && n in v.caches ==>
            && w.caches[n].segmentBytes == v.caches[n].segmentBytes
            && (w.caches[n].seg.Split? <==> v.caches[n].seg.Split?)
            && w.caches[n].paddedSegmentBytes * w.caches[n].segments
              == v.caches[n].paddedSegmentBytes * v.caches[n].segments)
      && (forall w, v, n :: w in ws && v in ws && n in w.caches && n in v.caches && w.tpRank == v.tpRank ==>
            w.ppRank == v.ppRank)
      && (forall n, r: nat :: (exists w :: w in ws && n in w.caches) && r < tp ==> RegisteredAt(ws, n, r))
      && (pageFirst ==> forall w, v :: w in ws && v in ws ==>
            w.caches.Keys == v.caches.Keys || w.caches.Keys !! v.caches.Keys)
  {
    SameGeometryExactly(ws);
    SameStageExactly(ws);
    CoveredExactly(ws, tp);
  }

  function LayerSet(w: Worker, ids: map<string, nat>): set<nat> {
    set n | n in w.caches && n in ids :: ids[n]
  }

  function LayerSets(ws: set<Worker>, ids: map<string, nat>): set<set<nat>> {
    set w | w in ws :: LayerSet(w, ids)
  }

  /** Page sizes of the layers, by id. */
  predicate PaddedMatch(padded: seq<nat>, cs: set<Claim>, ids: map<string, nat>) {
    && |padded| == |ids|
    && forall c :: c in cs ==>
         c.name in ids && ids[c.name] < |padded| && padded[ids[c.name]] == c.geometry.paddedBlockBytes
  }

  /** `t` is the topology of these workers; `list` is their layer names in order. */
  ghost predicate SealedFrom(t: Topology, ws: set<Worker>, tp: nat, pageFirst: bool, list: seq<string>) {
    && Lists(list, NamesIn(ClaimsOf(ws)))
    && t.nameToId == IdsOf(list)
    && t.tpSize == tp
    && (pageFirst <==> t.page.Some?)
    && (pageFirst ==> PageSealed(t.page.value, ws, t.nameToId))
  }

  ghost predicate PageSealed(p: P.PageLayout, ws: set<Worker>, ids: map<string, nat>) {
    PaddedMatch(p.layerBytes, ClaimsOf(ws), ids) && P.Places(p, LayerSets(ws, ids), p.layerBytes)
  }

  // ---------------------------------------------------------------------------
  // The code
  // ---------------------------------------------------------------------------

  function AllOf(workers: seq<Worker>): set<Worker> { set w | w in workers }

  lemma ClaimsSnoc(workers: seq<Worker>, k: nat)
    requires k < |workers|
    ensures AllOf(workers[..k + 1]) == AllOf(workers[..k]) + {workers[k]}
    ensures ClaimsOf(AllOf(workers[..k + 1])) == ClaimsOf(AllOf(workers[..k])) + ClaimsOn(workers[k])
    ensures AllOf(workers[..k + 1]) <= AllOf(workers)
  {
    assert workers[..k + 1] == workers[..k] + [workers[k]];
    ClaimsUnion(AllOf(workers[..k]), workers[k]);
  }

  lemma ClaimsUnion(ws: set<Worker>, w: Worker)
    ensures ClaimsOf(ws + {w}) == ClaimsOf(ws) + ClaimsOn(w)
  {
    forall c ensures c in ClaimsOf(ws + {w}) <==> c in ClaimsOf(ws) + ClaimsOn(w) {
      if c in ClaimsOn(w) { assert w in ws + {w}; }
      if c in ClaimsOf(ws) {
        var v :| v in ws && c in ClaimsOn(v);
        assert v in ws + {w};
      }
    }
  }

  lemma ClaimsMonotone(ws: set<Worker>, vs: set<Worker>)
    requires ws <= vs
    ensures ClaimsOf(ws) <= ClaimsOf(vs)
  {
    forall c | c in ClaimsOf(ws) ensures c in ClaimsOf(vs) {
      var w :| w in ws && c in ClaimsOn(w);
      assert w in vs;
    }
  }

  ghost predicate Recorded(g: map<string, Geometry>, cs: set<Claim>) {
    && g.Keys == NamesIn(cs)
    && forall c :: c in cs ==> c.name in g && g[c.name] == c.geometry
  }

  /** Fold one worker's layers into the geometry map. */
  method AddGeometry(g: map<string, Geometry>, w: Worker, ghost cs: set<Claim>)
    returns (r: Result<map<string, Geometry>, SealError>)
    requires Recorded(g, cs)
    ensures r.Ok? <==> OneGeometry(cs + ClaimsOn(w))
    ensures r.Ok? ==> Recorded(r.value, cs + ClaimsOn(w))
    ensures r.Err? ==> r.error == InconsistentGeometry
  {
    var out := g;
    var rest := ClaimsOn(w);
    ghost var seen := cs;
    while rest != {}
      invariant rest <= ClaimsOn(w) && seen + rest == cs + ClaimsOn(w)
      invariant Recorded(out, seen)
      decreases rest
    {
      var c :| c in rest;
      if c.name in out && out[c.name] != c.geometry {
        GeometryConflict(out, seen, c, cs + ClaimsOn(w));
        return Err(InconsistentGeometry);
      }
      RecordClaim(out, seen, c);
      out := out[c.name := c.geometry];
      rest := rest - {c};
      seen := seen + {c};
    }
    assert seen == cs + ClaimsOn(w);
    RecordedOnce(out, seen);
    r := Ok(out);
  }

  lemma RecordedOnce(g: map<string, Geometry>, cs: set<Claim>)
    requires Recorded(g, cs)
    ensures OneGeometry(cs)
  {
  }

  lemma RecordClaim(g: map<string, Geometry>, cs: set<Claim>, c: Claim)
    requires Recorded(g, cs) && (c.name in g ==> g[c.name] == c.geometry)
    ensures Recorded(g[c.name := c.geometry], cs + {c})
  {
    assert NamesIn(cs + {c}) == NamesIn(cs) + {c.name};
  }

  lemma GeometryConflict(g: map<string, Geometry>, cs: set<Claim>, c: Claim, all: set<Claim>)
    requires Recorded(g, cs) && cs <= all && c in all && c.name in g && g[c.name] != c.geometry
    ensures !OneGeometry(all)
  {
    assert c.name in NamesIn(cs);
    var d :| d in cs && d.name == c.name;
  }

  /** Union of layer names with one geometry per name. */
  method CollectGeometry(workers: seq<Worker>) returns (r: Result<map<string, Geometry>, SealError>)
    ensures r.Ok? <==> OneGeometry(ClaimsOf(AllOf(workers)))
    ensures r.Ok? ==> Recorded(r.value, ClaimsOf(AllOf(workers)))
    ensures r.Err? ==> r.error == InconsistentGeometry
  {
    var g: map<string, Geometry> := map[];
    for k := 0 to |workers|
      invariant Recorded(g, ClaimsOf(AllOf(workers[..k])))
    {
      ClaimsSnoc(workers, k);
      var next := AddGeometry(g, workers[k], ClaimsOf(AllOf(workers[..k])));
      if next.Err? {
        ClaimsMonotone(AllOf(workers[..k + 1]), AllOf(workers));
        return next;
      }
      g := next.value;
    }
    assert workers[..|workers|] == workers;
    r := Ok(g);
  }

  /** The ownership grid: the stage that claimed each (layer, tp_rank) cell. */
  ghost predicate GridOf(owners: map<(nat, nat), nat>, cs: set<Claim>, ids: map<string, nat>) {
    && (forall c :: c in cs ==>
          && c.name in ids && (ids[c.name], c.tpRank) in owners
          && owners[(ids[c.name], c.tpRank)] == c.ppRank)
    && (forall g :: g in owners ==> exists c :: c in cs && c.name in ids && (ids[c.name], c.tpRank) == g)
  }

  predicate Injective(ids: map<string, nat>) {
    forall n, m :: n in ids && m in ids && ids[n] == ids[m] ==> n == m
  }

  /** Claim one worker's cells; a cell claimed by another stage is an error. */
  method ClaimCells(owners: map<(nat, nat), nat>, w: Worker, ids: map<string, nat>, ghost cs: set<Claim>)
    returns (r: Result<map<(nat, nat), nat>, SealError>)
    requires Injective(ids) && (forall c :: c in cs + ClaimsOn(w) ==> c.name in ids)
    requires GridOf(owners, cs, ids)
    ensures r.Ok? <==> OneStage(cs + ClaimsOn(w))
    ensures r.Ok? ==> GridOf(r.value, cs + ClaimsOn(w), ids)
    ensures r.Err? ==> r.error == DifferentStages
  {
    var out: map<(nat, nat), nat> := owners;
    var rest := ClaimsOn(w);
    ghost var seen := cs;
    while rest != {}
      invariant rest <= ClaimsOn(w) && seen + rest == cs + ClaimsOn(w)
      invariant GridOf(out, seen, ids)
      decreases rest
    {
      var c :| c in rest;
      assert c in cs + ClaimsOn(w);
      var g := (ids[c.name], c.tpRank);
      if g in out && out[g] != c.ppRank {
        StageConflict(out, seen, ids, c, cs + ClaimsOn(w));
        return Err(DifferentStages);
      }
      ClaimCell(out, seen, ids, c);
      out := out[g := c.ppRank];
      rest := rest - {c};
      seen := seen + {c};
    }
    assert seen == cs + ClaimsOn(w);
    GridStages(out, seen, ids);
    r := Ok(out);
  }

  lemma ClaimCell(owners: map<(nat, nat), nat>, cs: set<Claim>, ids: map<string, nat>, c: Claim)
    requires Injective(ids) && c.name in ids && GridOf(owners, cs, ids)
    requires (ids[c.name], c.tpRank) in owners ==> owners[(ids[c.name], c.tpRank)] == c.ppRank
    ensures GridOf(owners[(ids[c.name], c.tpRank) := c.ppRank], cs + {c}, ids)
  {
    var g := (ids[c.name], c.tpRank);
    var out := owners[g := c.ppRank];
    forall h | h in out ensures exists d :: d in cs + {c} && d.name in ids && (ids[d.name], d.tpRank) == h {
      if h == g {
        assert c in cs + {c};
      } else {
        var d :| d in cs && d.name in ids && (ids[d.name], d.tpRank) == h;
        assert d in cs + {c};
      }
    }
  }

  lemma StageConflict(owners: map<(nat, nat), nat>, cs: set<Claim>, ids: map<string, nat>, c: Claim, all: set<Claim>)
    requires Injective(ids) && c.name in ids && GridOf(owners, cs, ids) && cs <= all && c in all
    requires (ids[c.name], c.tpRank) in owners && owners[(ids[c.name], c.tpRank)] != c.ppRank
    ensures !OneStage(all)
  {
    var d :| d in cs && d.name in ids && (ids[d.name], d.tpRank) == (ids[c.name], c.tpRank);
    assert d.name == c.name && d in all;
  }

  /** Every (layer, tp_rank) cell needs an owner, and its owners one stage. */
  method CheckGrid(workers: seq<Worker>, list: seq<string>, tp: nat) returns (r: Result<(), SealError>)
    requires Lists(list, NamesIn(ClaimsOf(AllOf(workers))))
    ensures r.Ok? <==> OneStage(ClaimsOf(AllOf(workers))) && GridCovered(ClaimsOf(AllOf(workers)), tp)
    ensures r == Err(DifferentStages) <==> !OneStage(ClaimsOf(AllOf(workers)))
    ensures r.Err? ==> r.error == DifferentStages || r.error == MissingOwner
  {
    var ids := IdsOf(list);
    IdsInjective(list);
    var owners: map<(nat, nat), nat> := map[];
    for k := 0 to |workers|
      invariant GridOf(owners, ClaimsOf(AllOf(workers[..k])), ids)
    {
      ClaimsSnoc(workers, k);
      ClaimsMonotone(AllOf(workers[..k + 1]), AllOf(workers));
      assert forall c :: c in ClaimsOf(AllOf(workers)) ==> c.name in NamesIn(ClaimsOf(AllOf(workers)));
      var next := ClaimCells(owners, workers[k], ids, ClaimsOf(AllOf(workers[..k])));
      if next.Err? {
        assert !OneStage(ClaimsOf(AllOf(workers)));
        return Err(next.error);
      }
      owners := next.value;
    }
    assert workers[..|workers|] == workers;
    GridStages(owners, ClaimsOf(AllOf(workers)), ids);
    GridOwners(owners, ClaimsOf(AllOf(workers)), list);
    var full := AllCellsOwned(owners, |list|, tp);
    FullMeansCovered(owners, ClaimsOf(AllOf(workers)), list, tp);
    r := if full then Ok(()) else Err(MissingOwner);
  }

  predicate Full(owners: map<(nat, nat), nat>, layers: nat, tp: nat) {
    forall l: nat, i: nat :: l < layers && i < tp ==> (l, i) in owners
  }

  /** Look for a cell without an owner. */
  method AllCellsOwned(owners: map<(nat, nat), nat>, layers: nat, tp: nat) returns (full: bool)
    ensures full <==> Full(owners, layers, tp)
  {
    for l := 0 to layers
      invariant Full(owners, l, tp)
    {
      for rank := 0 to tp
        invariant forall i: nat :: i < rank ==> (l, i) in owners
      {
        if (l, rank) !in owners {
          return false;
        }
      }
    }
    return true;
  }

  lemma FullMeansCovered(owners: map<(nat, nat), nat>, cs: set<Claim>, list: seq<string>, tp: nat)
    requires Lists(list, NamesIn(cs)) && GridOf(owners, cs, IdsOf(list))
    ensures Full(owners, |list|, tp) <==> GridCovered(cs, tp)
  {
    GridOwners(owners, cs, list);
    if GridCovered(cs, tp) {
      forall l: nat, i: nat | l < |list| && i < tp ensures (l, i) in owners {
        assert list[l] in Members(list);
        assert HasOwner(cs, list[l], i);
      }
    }
  }

  lemma GridStages(owners: map<(nat, nat), nat>, cs: set<Claim>, ids: map<string, nat>)
    requires GridOf(owners, cs, ids)
    ensures OneStage(cs)
  {
  }

  /** A cell of the grid is claimed exactly when the layer has an owner at that rank. */
  lemma GridOwners(owners: map<(nat, nat), nat>, cs: set<Claim>, list: seq<string>)
    requires Lists(list, NamesIn(cs)) && GridOf(owners, cs, IdsOf(list))
    ensures forall l: nat, i: nat :: l < |list| ==> ((l, i) in owners <==> HasOwner(cs, list[l], i))
    ensures forall n :: n in NamesIn(cs) ==> n in IdsOf(list) && IdsOf(list)[n] < |list| && list[IdsOf(list)[n]] == n
  {
    IdsInjective(list);
    var ids := IdsOf(list);
    forall l: nat, i: nat | l < |list|
      ensures (l, i) in owners <==> HasOwner(cs, list[l], i)
    {
      if (l, i) in owners {
        var c :| c in cs && c.name in ids && (ids[c.name], c.tpRank) == (l, i);
        assert c.name == list[l];
      }
    }
  }

  lemma IdsInjective(list: seq<string>)
    requires StrictlySorted(list)
    ensures Injective(IdsOf(list))
    ensures forall n :: n in IdsOf(list) ==> IdsOf(list)[n] < |list| && list[IdsOf(list)[n]] == n
  {
    var ids := IdsOf(list);
    forall n | n in ids ensures ids[n] < |list| && list[ids[n]] == n {
      assert n in Members(list);
      var i :| 0 <= i < |list| && list[i] == n;
    }
  }

  /** Seal the layer-id space; exact about when, and about what comes out. */
  method SealTopology(workers: seq<Worker>, tp: nat, pageFirst: bool) returns (r: Result<Topology, SealError>)
    ensures r.Ok? <==> Sealable(AllOf(workers), tp, pageFirst)
    ensures r == Err(InconsistentGeometry) <==> !OneGeometry(ClaimsOf(AllOf(workers)))
    ensures r == Err(DifferentStages) <==>
            OneGeometry(ClaimsOf(AllOf(workers))) && !OneStage(ClaimsOf(AllOf(workers)))
    ensures r.Err? && r.error.Page? ==> !ReplicaOrSplit(AllOf(workers))
    ensures r.Ok? ==> exists list :: SealedFrom(r.value, AllOf(workers), tp, pageFirst, list)
  {
    var geometry := CollectGeometry(workers);
    if geometry.Err? {
      return Err(geometry.error);
    }
    var list := SortNames(geometry.value.Keys);
    var grid := CheckGrid(workers, list, tp);
    if grid.Err? {
      return Err(grid.error);
    }
    var ids := IdsOf(list);
    if !pageFirst {
      r := Ok(Topology(ids, tp, None));
      assert SealedFrom(r.value, AllOf(workers), tp, pageFirst, list);
      return;
    }
    var page := SealPages(workers, list, geometry.value);
    if page.Err? {
      return Err(Page(page.error));
    }
    r := Ok(Topology(ids, tp, Some(page.value)));
    assert SealedFrom(r.value, AllOf(workers), tp, pageFirst, list);
  }

  /** The page-first part of sealing. */
  method SealPages(workers: seq<Worker>, list: seq<string>, g: map<string, Geometry>)
    returns (r: Result<P.PageLayout, P.PageError>)
    requires Lists(list, NamesIn(ClaimsOf(AllOf(workers)))) && Recorded(g, ClaimsOf(AllOf(workers)))
    ensures r.Ok? <==> ReplicaOrSplit(AllOf(workers))
    ensures r.Ok? ==> PageSealed(r.value, AllOf(workers), IdsOf(list))
  {
    var ids := IdsOf(list);
    var sets := WorkerSets(workers, ids);
    var padded := PaddedSizes(list, g);
    PaddedFromGeometry(padded, list, g, ClaimsOf(AllOf(workers)));
    SetsCoverLayers(AllOf(workers), list);
    DisjointExact(AllOf(workers), list);
    r := P.BuildPageLayout(sets, padded);
    if r.Ok? {
      P.PlacesBytes(r.value, LayerSets(AllOf(workers), ids), padded);
    }
  }

  method PaddedSizes(list: seq<string>, g: map<string, Geometry>) returns (padded: seq<nat>)
    requires Members(list) == g.Keys
    ensures |padded| == |list|
    ensures forall i :: 0 <= i < |list| ==> list[i] in g && padded[i] == g[list[i]].paddedBlockBytes
  {
    padded := [];
    for i := 0 to |list|
      invariant |padded| == i && forall k :: 0 <= k < i ==> list[k] in g && padded[k] == g[list[k]].paddedBlockBytes
    {
      assert list[i] in Members(list);
      padded := padded + [g[list[i]].paddedBlockBytes];
    }
  }

  lemma PaddedFromGeometry(padded: seq<nat>, list: seq<string>, g: map<string, Geometry>, cs: set<Claim>)
    requires Lists(list, NamesIn(cs)) && Recorded(g, cs)
    requires |padded| == |list|
    requires forall i :: 0 <= i < |list| ==> list[i] in g && padded[i] == g[list[i]].paddedBlockBytes
    ensures PaddedMatch(padded, cs, IdsOf(list))
  {
    IdsInjective(list);
    forall c | c in cs ensures c.name in IdsOf(list) { assert c.name in NamesIn(cs); }
  }

  /** Each worker's layers as ids, in worker order. */
  method WorkerSets(workers: seq<Worker>, ids: map<string, nat>) returns (sets: seq<set<nat>>)
    ensures P.Distinct(sets) == LayerSets(AllOf(workers), ids)
  {
    sets := [];
    for k := 0 to |workers|
      invariant |sets| == k && forall i :: 0 <= i < k ==> sets[i] == LayerSet(workers[i], ids)
    {
      sets := sets + [LayerSet(workers[k], ids)];
    }
    forall s ensures s in P.Distinct(sets) <==> s in LayerSets(AllOf(workers), ids) {
      if s in P.Distinct(sets) {
        var i :| 0 <= i < |sets| && sets[i] == s;
        assert workers[i] in AllOf(workers);
      }
      if s in LayerSets(AllOf(workers), ids) {
        var w :| w in AllOf(workers) && LayerSet(w, ids) == s;
        var i :| 0 <= i < |workers| && workers[i] == w;
        assert sets[i] == s;
      }
    }
  }

  /** Who registered a listed name. */
  lemma NameOwner(ws: set<Worker>, list: seq<string>, l: nat) returns (w: Worker)
    requires Lists(list, NamesIn(ClaimsOf(ws))) && l < |list|
    ensures w in ws && list[l] in w.caches
  {
    assert list[l] in Members(list);
    var c :| c in ClaimsOf(ws) && c.name == list[l];
    w :| w in ws && c in ClaimsOn(w);
  }

  lemma NameListed(ws: set<Worker>, list: seq<string>, w: Worker, n: string)
    requires Lists(list, NamesIn(ClaimsOf(ws))) && w in ws && n in w.caches
    ensures n in IdsOf(list) && IdsOf(list)[n] < |list| && list[IdsOf(list)[n]] == n
    ensures ClaimOf(w, n) in ClaimsOf(ws)
  {
    assert ClaimOf(w, n) in ClaimsOn(w);
    assert n in NamesIn(ClaimsOf(ws));
    IdsInjective(list);
  }

  /** Workers' id sets stay within the id space and, together, exhaust it. */
  lemma SetsCoverLayers(ws: set<Worker>, list: seq<string>)
    requires Lists(list, NamesIn(ClaimsOf(ws)))
    ensures P.LayersBelow(LayerSets(ws, IdsOf(list)), |list|)
    ensures P.Covered(LayerSets(ws, IdsOf(list)), |list|)
  {
    var ids := IdsOf(list);
    IdsInjective(list);
    forall l: nat | l < |list|
      ensures P.Owned(LayerSets(ws, ids), l)
    {
      var w := NameOwner(ws, list, l);
      assert ids[list[l]] == l && l in LayerSet(w, ids) && LayerSet(w, ids) in LayerSets(ws, ids);
    }
  }

  /** Id sets are equal or disjoint exactly when the name sets are. */
  lemma DisjointExact(ws: set<Worker>, list: seq<string>)
    requires Lists(list, NamesIn(ClaimsOf(ws)))
    ensures P.PairwiseDisjoint(LayerSets(ws, IdsOf(list))) <==> ReplicaOrSplit(ws)
  {
    var ids := IdsOf(list);
    IdsInjective(list);
    forall w, v | w in ws && v in ws
      ensures LayerSet(w, ids) == LayerSet(v, ids) <==> w.caches.Keys == v.caches.Keys
      ensures LayerSet(w, ids) !! LayerSet(v, ids) <==> w.caches.Keys !! v.caches.Keys
    {
      forall n | n in w.caches.Keys ensures n in ids { NameListed(ws, list, w, n); }
      forall n | n in v.caches.Keys ensures n in ids { NameListed(ws, list, v, n); }
      ImageFacts(w, v, ids);
    }
    forall w | w in ws ensures LayerSet(w, ids) in LayerSets(ws, ids) {}
  }

  lemma ImageFacts(w: Worker, v: Worker, ids: map<string, nat>)
    requires Injective(ids) && w.caches.Keys <= ids.Keys && v.caches.Keys <= ids.Keys
    ensures LayerSet(w, ids) == LayerSet(v, ids) <==> w.caches.Keys == v.caches.Keys
    ensures LayerSet(w, ids) !! LayerSet(v, ids) <==> w.caches.Keys !! v.caches.Keys
  {
    assert forall n :: n in ids ==> (ids[n] in LayerSet(w, ids) <==> n in w.caches.Keys);
    assert forall n :: n in ids ==> (ids[n] in LayerSet(v, ids) <==> n in v.caches.Keys);
    if LayerSet(w, ids) == LayerSet(v, ids) {
      assert w.caches.Keys == v.caches.Keys;
    }
    if w.caches.Keys == v.caches.Keys {
      assert LayerSet(w, ids) == LayerSet(v, ids);
    }
  }

  /** Same workers, same topology: ids, slots and offsets are a function of the worker set. */
  lemma SealDeterministic(t: Topology, u: Topology, ws: set<Worker>, tp: nat, pageFirst: bool, xs: seq<string>,
                          ys: seq<string>)
    requires SealedFrom(t, ws, tp, pageFirst, xs) && SealedFrom(u, ws, tp, pageFirst, ys)
    ensures xs == ys && t == u
  {
    ListingUnique(xs, ys, NamesIn(ClaimsOf(ws)));
    if pageFirst {
      var p, q := t.page.value, u.page.value;
      SetsCoverLayers(ws, xs);
      forall l: nat | l < |xs| ensures p.layerBytes[l] == q.layerBytes[l] {
        var w := NameOwner(ws, xs, l);
        NameListed(ws, xs, w, xs[l]);
        assert IdsOf(xs)[xs[l]] == l;
      }
      assert p.layerBytes == q.layerBytes;
      P.SamePlacement(p, q, LayerSets(ws, IdsOf(xs)), p.layerBytes);
    }
  }
}
