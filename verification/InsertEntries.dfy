/**
 Grouping a saved batch by block hash (pegaflow-core/src/offload.rs,
 `build_insert_entries`). Two paths exist: one for batches whose layers share a
 hash order, one that groups through a hash map. Both are compared with the
 batch read layer by layer.
 */
module InsertEntries {
  import opened Prelude
  import opened Blocks

  type Hash = seq<nat>

  datatype BlockKey = BlockKey(namespace: string, hash: Hash)

  datatype SaveLayer = SaveLayer(slotId: nat, paddedBlockSize: nat, blocks: seq<RawBlock>, hashes: seq<Hash>)

  /** One image for one slot. */
  type SlotImage = (nat, RawBlock)

  datatype Entry = Entry(key: BlockKey, images: seq<SlotImage>)

  /** `blocks` and `block_hashes` run in parallel. */
  predicate Parallel(layers: seq<SaveLayer>) {
    forall i :: 0 <= i < |layers| ==> |layers[i].blocks| == |layers[i].hashes|
  }

  // ---------------------------------------------------------------------------
  // Reference: the batch, layer by layer
  // ---------------------------------------------------------------------------

  datatype Offer = Offer(hash: Hash, image: SlotImage)

  function LayerOffers(l: SaveLayer): (r: seq<Offer>)
    requires |l.blocks| == |l.hashes|
    ensures |r| == |l.blocks| && forall j :: 0 <= j < |r| ==> r[j] == Offer(l.hashes[j], (l.slotId, l.blocks[j]))
  {
    seq(|l.blocks|, j requires 0 <= j < |l.blocks| => Offer(l.hashes[j], (l.slotId, l.blocks[j])))
  }

  function Offers(layers: seq<SaveLayer>): seq<Offer>
    requires Parallel(layers)
  {
    if layers == [] then [] else Offers(layers[..|layers| - 1]) + LayerOffers(layers[|layers| - 1])
  }

  /** The images offered for one hash, in order. */
  function GroupOf(offers: seq<Offer>, h: Hash): seq<SlotImage> {
    if offers == [] then []
    else
      var n := |offers| - 1;
      GroupOf(offers[..n], h) + (if offers[n].hash == h then [offers[n].image] else [])
  }

  lemma {:induction false} GroupConcat(xs: seq<Offer>, ys: seq<Offer>, h: Hash)
    ensures GroupOf(xs + ys, h) == GroupOf(xs, h) + GroupOf(ys, h)
  {
    if ys == [] {
      assert xs + ys == xs;
    } else {
      var n := |ys| - 1;
      GroupConcat(xs, ys[..n], h);
      assert (xs + ys)[..|xs| + n] == xs + ys[..n];
    }
  }

  // ---------------------------------------------------------------------------
  // The two paths
  // ---------------------------------------------------------------------------

  /** Every layer carries this hash list, with a block for each hash. */
  predicate Shares(layers: seq<SaveLayer>, hashes: seq<Hash>) {
    forall i :: 0 <= i < |layers| ==> layers[i].hashes == hashes && |layers[i].blocks| == |hashes|
  }

  lemma SharesInit(layers: seq<SaveLayer>, hashes: seq<Hash>)
    requires Shares(layers, hashes) && layers != []
    ensures var n := |layers| - 1;
            && Shares(layers[..n], hashes) && Parallel(layers) && Parallel(layers[..n])
            && Offers(layers) == Offers(layers[..n]) + LayerOffers(layers[n])
            && |LayerOffers(layers[n])| == |hashes|
            && forall j :: 0 <= j < |hashes| ==>
                 LayerOffers(layers[n])[j] == Offer(hashes[j], (layers[n].slotId, layers[n].blocks[j]))
  {
  }

  predicate SharesOrder(layers: seq<SaveLayer>) {
    layers != [] && forall i :: 0 <= i < |layers| ==> layers[i].hashes == layers[0].hashes
  }

  method CanUseOrderedFastPath(layers: seq<SaveLayer>) returns (r: bool)
    ensures r <==> SharesOrder(layers)
  {
    if layers == [] {
      return false;
    }
    for i := 0 to |layers|
      invariant forall k :: 0 <= k < i ==> layers[k].hashes == layers[0].hashes
    {
      if layers[i].hashes != layers[0].hashes {
        return false;
      }
    }
    return true;
  }

  /** The images of block `j`, one per layer. */
  function Column(layers: seq<SaveLayer>, j: nat): (r: seq<SlotImage>)
    requires forall i :: 0 <= i < |layers| ==> j < |layers[i].blocks|
    ensures |r| == |layers| && forall i :: 0 <= i < |layers| ==> r[i] == (layers[i].slotId, layers[i].blocks[j])
  {
    seq(|layers|, i requires 0 <= i < |layers| => (layers[i].slotId, layers[i].blocks[j]))
  }

  lemma ColumnInit(layers: seq<SaveLayer>, j: nat)
    requires layers != [] && forall i :: 0 <= i < |layers| ==> j < |layers[i].blocks|
    ensures var n := |layers| - 1;
            Column(layers, j) == Column(layers[..n], j) + [(layers[n].slotId, layers[n].blocks[j])]
  {
  }

  ghost predicate IsOrdered(entries: seq<Entry>, ns: string, layers: seq<SaveLayer>)
    requires Parallel(layers) && SharesOrder(layers)
  {
    && |entries| == |layers[0].hashes|
    && forall j :: 0 <= j < |entries| ==> entries[j] == Entry(BlockKey(ns, layers[0].hashes[j]), Column(layers, j))
  }

  /** Block-by-block grouping, for layers that share one hash order. */
  method BuildOrdered(ns: string, layers: seq<SaveLayer>) returns (entries: seq<Entry>)
    requires Parallel(layers) && SharesOrder(layers)
    ensures IsOrdered(entries, ns, layers)
  {
    var hashes := layers[0].hashes;
    var perBlock: seq<seq<SlotImage>> := seq(|hashes|, _ => []);
    for i := 0 to |layers|
      invariant |perBlock| == |hashes|
      invariant forall j :: 0 <= j < |hashes| ==> perBlock[j] == Column(layers[..i], j)
    {
      var layer := layers[i];
      for b := 0 to |layer.blocks|
        invariant |perBlock| == |hashes|
        invariant forall j :: 0 <= j < b ==> perBlock[j] == Column(layers[..i], j) + [(layer.slotId, layer.blocks[j])]
        invariant forall j :: b <= j < |hashes| ==> perBlock[j] == Column(layers[..i], j)
      {
        perBlock := perBlock[b := perBlock[b] + [(layer.slotId, layer.blocks[b])]];
      }
      assert layers[..i + 1] == layers[..i] + [layer];
    }
    assert layers[..|layers|] == layers;
    entries := [];
    for j := 0 to |hashes|
      invariant |entries| == j
      invariant forall k :: 0 <= k < j ==> entries[k] == Entry(BlockKey(ns, hashes[k]), Column(layers, k))
    {
      entries := entries + [Entry(BlockKey(ns, hashes[j]), perBlock[j])];
    }
  }

  function HashesOf(offers: seq<Offer>): set<Hash> { set o | o in offers :: o.hash }

  function KeyHashes(entries: seq<Entry>): set<Hash> { set e | e in entries :: e.key.hash }

  predicate Keyed(entries: seq<Entry>, ns: string) {
    && (forall i :: 0 <= i < |entries| ==> entries[i].key.namespace == ns)
    && (forall i, j :: 0 <= i < j < |entries| ==> entries[i].key.hash != entries[j].key.hash)
  }

  /** One entry per hash of the batch, carrying its whole group. */
  predicate IsGrouped(entries: seq<Entry>, ns: string, offers: seq<Offer>) {
    && Keyed(entries, ns)
    && KeyHashes(entries) == HashesOf(offers)
    && forall i :: 0 <= i < |entries| ==> entries[i].images == GroupOf(offers, entries[i].key.hash)
  }

  predicate MapOf(m: map<Hash, seq<SlotImage>>, offers: seq<Offer>) {
    && m.Keys == HashesOf(offers)
    && forall h :: h in m ==> m[h] == GroupOf(offers, h)
  }

  function Pushed(m: map<Hash, seq<SlotImage>>, o: Offer): map<Hash, seq<SlotImage>> {
    m[o.hash := (if o.hash in m then m[o.hash] else []) + [o.image]]
  }

  lemma MapOfSnoc(m: map<Hash, seq<SlotImage>>, offers: seq<Offer>, o: Offer)
    requires MapOf(m, offers)
    ensures MapOf(Pushed(m, o), offers + [o])
  {
    assert (offers + [o])[..|offers|] == offers;
    if o.hash !in m { NoGroup(offers, o.hash); }
    assert HashesOf(offers + [o]) == HashesOf(offers) + {o.hash};
  }

  lemma NoGroup(offers: seq<Offer>, h: Hash)
    requires h !in HashesOf(offers)
    ensures GroupOf(offers, h) == []
  {
    if offers != [] {
      var n := |offers| - 1;
      assert offers[n] in offers;
      assert forall o :: o in offers[..n] ==> o in offers;
      NoGroup(offers[..n], h);
    }
  }

  lemma NextOffer(before: seq<Offer>, offers: seq<Offer>, b: nat)
    requires b < |offers|
    ensures before + offers[..b + 1] == before + offers[..b] + [offers[b]]
  {
  }

  /** Push one layer's blocks into the map. */
  method PushLayer(m: map<Hash, seq<SlotImage>>, layer: SaveLayer, ghost before: seq<Offer>)
    returns (groups: map<Hash, seq<SlotImage>>)
    requires |layer.blocks| == |layer.hashes| && MapOf(m, before)
    ensures MapOf(groups, before + LayerOffers(layer))
  {
    groups := m;
    ghost var done := before;
    for b := 0 to |layer.blocks|
      invariant MapOf(groups, done) && done == before + LayerOffers(layer)[..b]
    {
      var o := Offer(layer.hashes[b], (layer.slotId, layer.blocks[b]));
      MapOfSnoc(groups, done, o);
      groups := Pushed(groups, o);
      NextOffer(before, LayerOffers(layer), b);
      done := done + [o];
    }
    assert LayerOffers(layer)[..|layer.blocks|] == LayerOffers(layer);
  }

  /** Grouping through a hash map, for layers with different hash lists. */
  method BuildHashed(ns: string, layers: seq<SaveLayer>) returns (entries: seq<Entry>)
    requires Parallel(layers)
    ensures IsGrouped(entries, ns, Offers(layers))
  {
    var groups: map<Hash, seq<SlotImage>> := map[];
    for i := 0 to |layers|
      invariant MapOf(groups, Offers(layers[..i]))
    {
      groups := PushLayer(groups, layers[i], Offers(layers[..i]));
      assert layers[..i + 1][..i] == layers[..i];
    }
    assert layers[..|layers|] == layers;
    entries := Drain(ns, groups, Offers(layers));
  }

  /** Turn the map into a list, in whatever order it yields its keys. */
  method Drain(ns: string, groups: map<Hash, seq<SlotImage>>, ghost offers: seq<Offer>) returns (entries: seq<Entry>)
    requires MapOf(groups, offers)
    ensures IsGrouped(entries, ns, offers)
  {
    entries := [];
    var rest := groups.Keys;
    while rest != {}
      invariant rest <= groups.Keys && Keyed(entries, ns)
      invariant KeyHashes(entries) == groups.Keys - rest
      invariant forall i :: 0 <= i < |entries| ==> entries[i].images == GroupOf(offers, entries[i].key.hash)
      decreases rest
    {
      var h :| h in rest;
      ghost var before := entries;
      assert forall i :: 0 <= i < |before| ==> before[i].key.hash in KeyHashes(before);
      entries := entries + [Entry(BlockKey(ns, h), groups[h])];
      rest := rest - {h};
      assert KeyHashes(entries) == KeyHashes(before) + {h};
    }
  }

  /** True size of the stored blocks. */
  function StoredBytes(layers: seq<SaveLayer>): nat {
    if layers == [] then 0
    else StoredBytes(layers[..|layers| - 1]) + layers[|layers| - 1].paddedBlockSize * |layers[|layers| - 1].hashes|
  }

  /**
   Pick the fast path when it applies; count blocks and bytes. A layer's product
   saturates and the running sum is a `u64`: the count is the true size as long
   as that fits.
   */
  method BuildInsertEntries(ns: string,
                            layers: seq<SaveLayer>) returns (entries: seq<Entry>, totalBlocks: nat, totalBytes: nat)
    requires Parallel(layers)
    ensures SharesOrder(layers) ==> IsOrdered(entries, ns, layers)
    ensures !SharesOrder(layers) ==> IsGrouped(entries, ns, Offers(layers))
    ensures totalBlocks == |Offers(layers)|
    ensures StoredBytes(layers) <= 0xFFFF_FFFF_FFFF_FFFF ==> totalBytes == StoredBytes(layers)
  {
    totalBlocks, totalBytes := 0, 0;
    for i := 0 to |layers|
      invariant totalBlocks == |Offers(layers[..i])|
      invariant StoredBytes(layers[..i]) <= U64_MAX ==> totalBytes == StoredBytes(layers[..i])
    {
      assert layers[..i + 1][..i] == layers[..i];
      totalBlocks := totalBlocks + |layers[i].hashes|;
      totalBytes := (totalBytes + Saturated(layers[i].paddedBlockSize * |layers[i].hashes|)) % U64_MODULUS;
    }
    assert layers[..|layers|] == layers;
    var fast := CanUseOrderedFastPath(layers);
    if fast {
      entries := BuildOrdered(ns, layers);
    } else {
      entries := BuildHashed(ns, layers);
    }
  }

  /** The size adds up layer by layer: padded block size times number of blocks. */
  lemma {:induction false} StoredBytesAdd(a: seq<SaveLayer>, c: seq<SaveLayer>)
    ensures StoredBytes(a + c) == StoredBytes(a) + StoredBytes(c)
    ensures |c| == 1 ==> StoredBytes(c) == c[0].paddedBlockSize * |c[0].hashes|
  {
    if c == [] {
      assert a + c == a;
    } else {
      var n := |c| - 1;
      assert (a + c)[..|a + c| - 1] == a + c[..n];
      StoredBytesAdd(a, c[..n]);
    }
  }

  // ---------------------------------------------------------------------------
  // Nothing is lost or invented: both paths carry the same (key, slot, block) triples
  // ---------------------------------------------------------------------------

  /** How often an offer occurs among the entries. */
  function Occurrences(entries: seq<Entry>, o: Offer): nat {
    if entries == [] then 0
    else
      var n := |entries| - 1;
      Occurrences(entries[..n], o) + (if entries[n].key.hash == o.hash then multiset(entries[n].images)[o.image] else 0)
  }

  lemma {:induction false} GroupCount(offers: seq<Offer>, o: Offer)
    ensures multiset(GroupOf(offers, o.hash))[o.image] == multiset(offers)[o]
  {
    if offers != [] {
      var n := |offers| - 1;
      GroupCount(offers[..n], o);
      assert offers == offers[..n] + [offers[n]];
    }
  }

  lemma {:induction false} NoOccurrences(entries: seq<Entry>, o: Offer)
    requires forall i :: 0 <= i < |entries| ==> entries[i].key.hash != o.hash
    ensures Occurrences(entries, o) == 0
  {
    if entries != [] { NoOccurrences(entries[..|entries| - 1], o); }
  }

  /** Entries with distinct keys count an offer through the one entry of its hash. */
  lemma {:induction false} KeyedOccurrences(entries: seq<Entry>, o: Offer, ns: string, k: nat)
    requires Keyed(entries, ns) && k < |entries| && entries[k].key.hash == o.hash
    ensures Occurrences(entries, o) == multiset(entries[k].images)[o.image]
  {
    var n := |entries| - 1;
    if k < n {
      KeyedOccurrences(entries[..n], o, ns, k);
    } else {
      NoOccurrences(entries[..n], o);
    }
  }

  lemma EntryOf(entries: seq<Entry>, h: Hash) returns (k: nat)
    requires h in KeyHashes(entries)
    ensures k < |entries| && entries[k].key.hash == h
  {
    var e :| e in entries && e.key.hash == h;
    k :| 0 <= k < |entries| && entries[k] == e;
  }

  /** The hash-map path yields exactly the offers of the batch. */
  lemma GroupedTriples(entries: seq<Entry>, ns: string, offers: seq<Offer>, o: Offer)
    requires IsGrouped(entries, ns, offers)
    ensures Occurrences(entries, o) == multiset(offers)[o]
  {
    GroupCount(offers, o);
    if o.hash in KeyHashes(entries) {
      var k := EntryOf(entries, o.hash);
      KeyedOccurrences(entries, o, ns, k);
    } else {
      assert forall i :: 0 <= i < |entries| ==> entries[i] in entries;
      NoOccurrences(entries, o);
      NoGroup(offers, o.hash);
    }
  }

  lemma SnocCount<T>(xs: seq<T>, x: T, y: T)
    ensures multiset(xs + [x])[y] == multiset(xs)[y] + (if x == y then 1 else 0)
  {
  }

  lemma {:induction false} OccurrencesOfColumns(entries: seq<Entry>, longer: seq<Entry>, images: seq<Offer>, o: Offer)
    requires |entries| == |longer| == |images|
    requires forall j :: 0 <= j < |entries| ==>
      && longer[j].key == entries[j].key && images[j].hash == entries[j].key.hash
      && longer[j].images == entries[j].images + [images[j].image]
    ensures Occurrences(longer, o) == Occurrences(entries, o) + multiset(images)[o]
  {
    if entries != [] {
      var n := |entries| - 1;
      OccurrencesOfColumns(entries[..n], longer[..n], images[..n], o);
      assert longer[n].images == entries[n].images + [images[n].image];
      SnocCount(images[..n], images[n], o);
      SnocCount(entries[n].images, images[n].image, o.image);
      assert images == images[..n] + [images[n]];
    }
  }

  function OrderedEntries(ns: string, layers: seq<SaveLayer>, hashes: seq<Hash>): (r: seq<Entry>)
    requires Shares(layers, hashes)
    ensures |r| == |hashes|
    ensures forall j :: 0 <= j < |r| ==> r[j] == Entry(BlockKey(ns, hashes[j]), Column(layers, j))
  {
    seq(|hashes|, j requires 0 <= j < |hashes| => Entry(BlockKey(ns, hashes[j]), Column(layers, j)))
  }

  lemma {:induction false} ColumnsCount(ns: string, layers: seq<SaveLayer>, hashes: seq<Hash>, o: Offer)
    requires Shares(layers, hashes)
    ensures Parallel(layers) && Occurrences(OrderedEntries(ns, layers, hashes), o) == multiset(Offers(layers))[o]
  {
    if layers == [] {
      EmptyColumns(OrderedEntries(ns, [], hashes), o);
    } else {
      var n := |layers| - 1;
      SharesInit(layers, hashes);
      ColumnsCount(ns, layers[..n], hashes, o);
      var shorter, longer := OrderedEntries(ns, layers[..n], hashes), OrderedEntries(ns, layers, hashes);
      forall j | 0 <= j < |hashes|
        ensures longer[j].images == shorter[j].images + [(layers[n].slotId, layers[n].blocks[j])]
      {
        ColumnInit(layers, j);
      }
      OccurrencesOfColumns(shorter, longer, LayerOffers(layers[n]), o);
    }
  }

  lemma {:induction false} EmptyColumns(entries: seq<Entry>, o: Offer)
    requires forall j :: 0 <= j < |entries| ==> entries[j].images == []
    ensures Occurrences(entries, o) == 0
  {
    if entries != [] { EmptyColumns(entries[..|entries| - 1], o); }
  }

  /** The fast path yields exactly the offers of the batch. */
  lemma OrderedTriples(entries: seq<Entry>, ns: string, layers: seq<SaveLayer>, o: Offer)
    requires Parallel(layers) && SharesOrder(layers) && IsOrdered(entries, ns, layers)
    ensures Occurrences(entries, o) == multiset(Offers(layers))[o]
  {
    assert entries == OrderedEntries(ns, layers, layers[0].hashes);
    ColumnsCount(ns, layers, layers[0].hashes, o);
  }

  // ---------------------------------------------------------------------------
  // With distinct hashes both paths give the same key-to-images map
  // ---------------------------------------------------------------------------

  lemma {:induction false} SingleMatch(offers: seq<Offer>, j: nat)
    requires j < |offers| && forall i :: 0 <= i < |offers| && i != j ==> offers[i].hash != offers[j].hash
    ensures GroupOf(offers, offers[j].hash) == [offers[j].image]
  {
    var n := |offers| - 1;
    if j < n {
      SingleMatch(offers[..n], j);
    } else {
      assert offers[j].hash !in HashesOf(offers[..n]);
      NoGroup(offers[..n], offers[j].hash);
    }
  }

  /** Layer order is kept: the column of a hash is its group in the batch. */
  lemma {:induction false} ColumnIsGroup(layers: seq<SaveLayer>, hashes: seq<Hash>, j: nat)
    requires Shares(layers, hashes) && NoRepeats(hashes) && j < |hashes|
    ensures Parallel(layers) && Column(layers, j) == GroupOf(Offers(layers), hashes[j])
  {
    if layers != [] {
      var n := |layers| - 1;
      SharesInit(layers, hashes);
      ColumnInit(layers, j);
      ColumnIsGroup(layers[..n], hashes, j);
      SingleMatch(LayerOffers(layers[n]), j);
      GroupConcat(Offers(layers[..n]), LayerOffers(layers[n]), hashes[j]);
    }
  }

  /** Distinct hashes: the fast path output is also a correct hash-map path output. */
  lemma OrderedRefinesGrouped(entries: seq<Entry>, ns: string, layers: seq<SaveLayer>)
    requires Parallel(layers) && SharesOrder(layers) && IsOrdered(entries, ns, layers)
    requires NoRepeats(layers[0].hashes)
    ensures IsGrouped(entries, ns, Offers(layers))
  {
    var hashes := layers[0].hashes;
    forall j | 0 <= j < |entries| ensures entries[j].images == GroupOf(Offers(layers), entries[j].key.hash) {
      ColumnIsGroup(layers, hashes, j);
    }
    OffersHashes(layers, hashes);
    OrderedKeys(entries, ns, layers);
  }

  lemma OrderedKeys(entries: seq<Entry>, ns: string, layers: seq<SaveLayer>)
    requires Parallel(layers) && SharesOrder(layers) && IsOrdered(entries, ns, layers)
    ensures KeyHashes(entries) == set h | h in layers[0].hashes
  {
    var hashes := layers[0].hashes;
    forall h | h in hashes ensures h in KeyHashes(entries) {
      var j :| 0 <= j < |hashes| && hashes[j] == h;
      assert entries[j] in entries;
    }
    forall h | h in KeyHashes(entries) ensures h in hashes {
      var k := EntryOf(entries, h);
    }
  }

  /** The hashes of a shared-order batch are exactly the common list. */
  lemma {:induction false} OffersHashes(layers: seq<SaveLayer>, hashes: seq<Hash>)
    requires Shares(layers, hashes)
    ensures Parallel(layers) && HashesOf(Offers(layers)) == if layers == [] then {} else set h | h in hashes
  {
    if layers != [] {
      var n := |layers| - 1;
      SharesInit(layers, hashes);
      OffersHashes(layers[..n], hashes);
      LayerHashes(layers[n]);
      assert HashesOf(Offers(layers)) == HashesOf(Offers(layers[..n])) + HashesOf(LayerOffers(layers[n]));
    }
  }

  lemma LayerHashes(l: SaveLayer)
    requires |l.blocks| == |l.hashes|
    ensures HashesOf(LayerOffers(l)) == set h | h in l.hashes
  {
    var offers := LayerOffers(l);
    forall h | h in l.hashes ensures h in HashesOf(offers) {
      var j :| 0 <= j < |l.hashes| && l.hashes[j] == h;
      assert offers[j] in offers;
    }
  }

  // ---------------------------------------------------------------------------
  // Even with repeated hashes both paths offer the same image first
  // ---------------------------------------------------------------------------

  /** The first image offered for a slot. */
  function FirstFor(images: seq<SlotImage>, slot: nat): Option<RawBlock> {
    if images == [] then None
    else if images[0].0 == slot then Some(images[0].1)
    else FirstFor(images[1..], slot)
  }

  lemma {:induction false} FirstForConcat(xs: seq<SlotImage>, ys: seq<SlotImage>, slot: nat)
    ensures FirstFor(xs + ys, slot) == if FirstFor(xs, slot).Some? then FirstFor(xs, slot) else FirstFor(ys, slot)
  {
    if xs == [] {
      assert xs + ys == ys;
    } else {
      FirstForConcat(xs[1..], ys, slot);
      assert (xs + ys)[1..] == xs[1..] + ys;
    }
  }

  /** Everything the entries offer for one hash, in the order the store sees it. */
  function StreamOf(entries: seq<Entry>, h: Hash): seq<SlotImage> {
    if entries == [] then []
    else (if entries[0].key.hash == h then entries[0].images else []) + StreamOf(entries[1..], h)
  }

  /** First occurrence of a hash in the common list. */
  predicate FirstOccurrence(hashes: seq<Hash>, j: nat) {
    j < |hashes| && forall i :: 0 <= i < j ==> hashes[i] != hashes[j]
  }

  lemma {:induction false} LayerFirst(offers: seq<Offer>, j: nat, slot: nat, s: nat)
    requires j < |offers| && (forall i :: 0 <= i < |offers| ==> offers[i].image.0 == slot)
    requires forall i :: 0 <= i < j ==> offers[i].hash != offers[j].hash
    ensures FirstFor(GroupOf(offers, offers[j].hash), s) == if s == slot then Some(offers[j].image.1) else None
  {
    var n := |offers| - 1;
    var h := offers[j].hash;
    if j < n {
      LayerFirst(offers[..n], j, slot, s);
      FirstForConcat(GroupOf(offers[..n], h), if offers[n].hash == h then [offers[n].image] else [], s);
    } else {
      assert h !in HashesOf(offers[..n]);
      NoGroup(offers[..n], h);
      assert GroupOf(offers, h) == [offers[j].image];
    }
  }

  /** The column at a hash's first position makes the same first offers as its whole group. */
  lemma {:induction false} ColumnFirst(layers: seq<SaveLayer>, hashes: seq<Hash>, j: nat, slot: nat)
    requires Shares(layers, hashes) && FirstOccurrence(hashes, j)
    ensures Parallel(layers) && FirstFor(Column(layers, j), slot) == FirstFor(GroupOf(Offers(layers), hashes[j]), slot)
  {
    if layers != [] {
      var n := |layers| - 1;
      var offers := LayerOffers(layers[n]);
      SharesInit(layers, hashes);
      ColumnInit(layers, j);
      ColumnFirst(layers[..n], hashes, j, slot);
      LayerFirst(offers, j, layers[n].slotId, slot);
      GroupConcat(Offers(layers[..n]), offers, hashes[j]);
      FirstForConcat(Column(layers[..n], j), [(layers[n].slotId, layers[n].blocks[j])], slot);
      FirstForConcat(GroupOf(Offers(layers[..n]), hashes[j]), GroupOf(offers, hashes[j]), slot);
    }
  }

  /** Columns all mention the same slots, so a later column never makes a first offer. */
  lemma {:induction false} ColumnsShareSlots(layers: seq<SaveLayer>, j: nat, k: nat, slot: nat)
    requires forall i :: 0 <= i < |layers| ==> j < |layers[i].blocks| && k < |layers[i].blocks|
    ensures FirstFor(Column(layers, j), slot).Some? <==> FirstFor(Column(layers, k), slot).Some?
  {
    if layers != [] {
      var n := |layers| - 1;
      ColumnsShareSlots(layers[..n], j, k, slot);
      ColumnInit(layers, j);
      ColumnInit(layers, k);
      FirstForConcat(Column(layers[..n], j), [(layers[n].slotId, layers[n].blocks[j])], slot);
      FirstForConcat(Column(layers[..n], k), [(layers[n].slotId, layers[n].blocks[k])], slot);
    }
  }

  /** If no entry for a hash offers a slot, its stream does not either. */
  lemma {:induction false} StreamNone(entries: seq<Entry>, h: Hash, slot: nat)
    requires forall i :: 0 <= i < |entries| && entries[i].key.hash == h ==> FirstFor(entries[i].images, slot).None?
    ensures FirstFor(StreamOf(entries, h), slot).None?
  {
    if entries != [] {
      StreamNone(entries[1..], h, slot);
      FirstForConcat(if entries[0].key.hash == h then entries[0].images else [], StreamOf(entries[1..], h), slot);
    }
  }

  /** A stream's first offer comes from the first entry of its hash, when that entry decides. */
  lemma {:induction false} StreamFirst(entries: seq<Entry>, j: nat, h: Hash, slot: nat)
    requires j < |entries| && entries[j].key.hash == h && forall i :: 0 <= i < j ==> entries[i].key.hash != h
    requires forall i :: j < i < |entries| && entries[i].key.hash == h && FirstFor(entries[j].images, slot).None? ==>
               FirstFor(entries[i].images, slot).None?
    ensures FirstFor(StreamOf(entries, h), slot) == FirstFor(entries[j].images, slot)
  {
    if j == 0 {
      FirstForConcat(entries[0].images, StreamOf(entries[1..], h), slot);
      if FirstFor(entries[0].images, slot).None? { StreamNone(entries[1..], h, slot); }
    } else {
      StreamFirst(entries[1..], j - 1, h, slot);
      assert StreamOf(entries, h) == StreamOf(entries[1..], h);
    }
  }

  /** Where the batch, read layer by layer, first stores a hash for a slot. */
  function FirstStored(layers: seq<SaveLayer>, slot: nat, h: Hash): (r: Option<(nat, nat)>)
    ensures r.Some? ==>
      && r.value.0 < |layers| && layers[r.value.0].slotId == slot
      && FirstOccurrence(layers[r.value.0].hashes, r.value.1) && layers[r.value.0].hashes[r.value.1] == h
    ensures r.Some? ==> forall k :: 0 <= k < r.value.0 ==> layers[k].slotId != slot || h !in layers[k].hashes
    ensures r.None? ==> forall k :: 0 <= k < |layers| ==> layers[k].slotId != slot || h !in layers[k].hashes
  {
    if layers == [] then None
    else
      var n := |layers| - 1;
      var before := FirstStored(layers[..n], slot, h);
      if before.Some? then before
      else if layers[n].slotId == slot && h in layers[n].hashes then Some((n, IndexOf(layers[n].hashes, h)))
      else None
  }

  function IndexOf(hashes: seq<Hash>, h: Hash): (j: nat)
    requires h in hashes
    ensures FirstOccurrence(hashes, j) && hashes[j] == h
  {
    if hashes[0] == h then 0 else 1 + IndexOf(hashes[1..], h)
  }

  /** The image found there. */
  function BlockAt(layers: seq<SaveLayer>, at: Option<(nat, nat)>): Option<RawBlock>
    requires Parallel(layers) && (at.Some? ==> at.value.0 < |layers| && at.value.1 < |layers[at.value.0].hashes|)
  {
    if at.Some? then Some(layers[at.value.0].blocks[at.value.1]) else None
  }

  lemma LayerStores(l: SaveLayer, slot: nat, h: Hash)
    requires |l.blocks| == |l.hashes|
    ensures FirstFor(GroupOf(LayerOffers(l), h), slot) ==
      if l.slotId == slot && h in l.hashes then Some(l.blocks[IndexOf(l.hashes, h)]) else None
  {
    if h in l.hashes {
      LayerFirst(LayerOffers(l), IndexOf(l.hashes, h), l.slotId, slot);
    } else {
      LayerHashes(l);
      NoGroup(LayerOffers(l), h);
    }
  }

  /** The first image of a hash's group for a slot is the one stored first. */
  lemma {:induction false} GroupFirst(layers: seq<SaveLayer>, slot: nat, h: Hash)
    requires Parallel(layers)
    ensures FirstFor(GroupOf(Offers(layers), h), slot) == BlockAt(layers, FirstStored(layers, slot, h))
  {
    if layers != [] {
      var n := |layers| - 1;
      GroupFirst(layers[..n], slot, h);
      LayerStores(layers[n], slot, h);
      GroupConcat(Offers(layers[..n]), LayerOffers(layers[n]), h);
      FirstForConcat(GroupOf(Offers(layers[..n]), h), GroupOf(LayerOffers(layers[n]), h), slot);
    }
  }

  /** Within a shared hash order, the first entry of a hash decides. */
  lemma FastDecides(entries: seq<Entry>, ns: string, layers: seq<SaveLayer>, j: nat, slot: nat)
    requires Parallel(layers) && SharesOrder(layers) && IsOrdered(entries, ns, layers)
    requires FirstOccurrence(layers[0].hashes, j)
    ensures FirstFor(StreamOf(entries, layers[0].hashes[j]), slot) == FirstFor(Column(layers, j), slot)
  {
    var h := layers[0].hashes[j];
    forall i | j < i < |entries| && entries[i].key.hash == h && FirstFor(entries[j].images, slot).None?
      ensures FirstFor(entries[i].images, slot).None?
    {
      ColumnsShareSlots(layers, j, i, slot);
    }
    StreamFirst(entries, j, h, slot);
  }

  /** The fast path offers first what the batch stores first. */
  lemma FastFirst(entries: seq<Entry>, ns: string, layers: seq<SaveLayer>, h: Hash, slot: nat)
    requires Parallel(layers) && SharesOrder(layers) && IsOrdered(entries, ns, layers)
    ensures FirstFor(StreamOf(entries, h), slot) == BlockAt(layers, FirstStored(layers, slot, h))
  {
    var hashes := layers[0].hashes;
    GroupFirst(layers, slot, h);
    if h in hashes {
      var j := IndexOf(hashes, h);
      ColumnFirst(layers, hashes, j, slot);
      FastDecides(entries, ns, layers, j, slot);
    } else {
      assert forall i :: 0 <= i < |entries| ==> entries[i].key.hash in hashes;
      StreamNone(entries, h, slot);
      OffersHashes(layers, hashes);
      NoGroup(Offers(layers), h);
    }
  }

  /** So does the hash-map path. */
  lemma SlowFirst(entries: seq<Entry>, ns: string, layers: seq<SaveLayer>, h: Hash, slot: nat)
    requires Parallel(layers) && IsGrouped(entries, ns, Offers(layers))
    ensures FirstFor(StreamOf(entries, h), slot) == BlockAt(layers, FirstStored(layers, slot, h))
  {
    GroupFirst(layers, slot, h);
    if h in KeyHashes(entries) {
      var k := EntryOf(entries, h);
      StreamFirst(entries, k, h, slot);
    } else {
      assert forall i :: 0 <= i < |entries| ==> entries[i] in entries;
      StreamNone(entries, h, slot);
      NoGroup(Offers(layers), h);
    }
  }

  /**
   For a batch that shares one hash order, repeated hashes included, the two
   paths offer the same image first for every key and slot. The store keeps
   first offers, so which path ran cannot be observed in a sealed block.
   */
  lemma PathsOfferSameFirst(fast: seq<Entry>, slow: seq<Entry>, ns: string, layers: seq<SaveLayer>, h: Hash, slot: nat)
    requires Parallel(layers) && SharesOrder(layers)
    requires IsOrdered(fast, ns, layers) && IsGrouped(slow, ns, Offers(layers))
    ensures FirstFor(StreamOf(fast, h), slot) == FirstFor(StreamOf(slow, h), slot)
  {
    FastFirst(fast, ns, layers, h, slot);
    SlowFirst(slow, ns, layers, h, slot);
  }
}
