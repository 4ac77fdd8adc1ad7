/**
 The insert worker (pegaflow-core/src/storage/write_path.rs): it takes grouped
 entries, fills inflight blocks, seals complete ones and publishes them to the
 read cache. Every inflight and every resident block is tied to the deliveries it
 was built from: its slots hold the first of them.
 */
module Pipeline {
  import opened Prelude
  import opened Blocks
  import opened InsertEntries

  /** One image handed to the worker. */
  datatype Delivery = Delivery(key: BlockKey, insert: SlotInsert)

  function EntryOffers(e: Entry, numa: nat): (r: seq<Delivery>)
    ensures |r| == |e.images|
    ensures forall i :: 0 <= i < |r| ==> r[i] == Delivery(e.key, SlotInsert(e.images[i].0, e.images[i].1, numa))
  {
    seq(|e.images|, i requires 0 <= i < |e.images| => Delivery(e.key, SlotInsert(e.images[i].0, e.images[i].1, numa)))
  }

  /** Everything a batch offers, in processing order. */
  function BatchOffers(entries: seq<Entry>, numa: nat): seq<Delivery> {
    if entries == [] then []
    else BatchOffers(entries[..|entries| - 1], numa) + EntryOffers(entries[|entries| - 1], numa)
  }

  // ---------------------------------------------------------------------------
  // Streams: the deliveries a block was built from, as positions in the history
  // ---------------------------------------------------------------------------

  type Stream = seq<nat>

  /** A stream lists deliveries for one key. */
  predicate ForKey(history: seq<Delivery>, key: BlockKey, s: Stream) {
    forall i :: 0 <= i < |s| ==> s[i] < |history| && history[s[i]].key == key
  }

  function InsertsAt(history: seq<Delivery>, s: Stream): (r: seq<SlotInsert>)
    requires forall i :: 0 <= i < |s| ==> s[i] < |history|
    ensures |r| == |s| && forall i :: 0 <= i < |s| ==> r[i] == history[s[i]].insert
  {
    seq(|s|, i requires 0 <= i < |s| => history[s[i]].insert)
  }

  /** All deliveries for a key among positions `from` to `upTo`. */
  function IndicesIn(history: seq<Delivery>, from: nat, upTo: nat, key: BlockKey): (r: Stream)
    requires upTo <= |history|
    ensures ForKey(history, key, r) && forall i :: 0 <= i < |r| ==> from <= r[i] < upTo
  {
    if upTo <= from then []
    else IndicesIn(history, from, upTo - 1, key) + (if history[upTo - 1].key == key then [upTo - 1] else [])
  }

  /** All deliveries for a key from a position on. */
  function IndicesFor(history: seq<Delivery>, from: nat, key: BlockKey): Stream {
    IndicesIn(history, from, |history|, key)
  }

  function Run(at: nat, n: nat): (r: Stream)
    ensures |r| == n && forall i :: 0 <= i < n ==> r[i] == at + i
  {
    seq(n, i requires 0 <= i => at + i)
  }

  lemma {:induction false} IndicesStable(history: seq<Delivery>, more: seq<Delivery>, from: nat, upTo: nat,
                                         key: BlockKey)
    requires upTo <= |history|
    ensures IndicesIn(history + more, from, upTo, key) == IndicesIn(history, from, upTo, key)
  {
    if from < upTo {
      IndicesStable(history, more, from, upTo - 1, key);
    }
  }

  lemma RunSnoc(s: Stream, whole: Stream, at: nat, n: nat)
    requires n > 0 && whole == s + Run(at, n - 1) + [at + n - 1]
    ensures whole == s + Run(at, n)
  {
    assert forall i :: 0 <= i < |whole| ==> whole[i] == (s + Run(at, n))[i];
  }

  /** Positions that all belong to the key, or all to another one. */
  lemma {:induction false} IndicesOfRun(history: seq<Delivery>, from: nat, at: nat, n: nat, key: BlockKey)
    requires from <= at && at + n <= |history| && forall i :: at <= i < at + n ==> history[i].key == key
    ensures IndicesIn(history, from, at + n, key) == IndicesIn(history, from, at, key) + Run(at, n)
  {
    if n > 0 {
      IndicesOfRun(history, from, at, n - 1, key);
      RunSnoc(IndicesIn(history, from, at, key), IndicesIn(history, from, at + n, key), at, n);
    }
  }

  lemma {:induction false} IndicesOfOthers(history: seq<Delivery>, from: nat, at: nat, n: nat, key: BlockKey)
    requires from <= at && at + n <= |history| && forall i :: at <= i < at + n ==> history[i].key != key
    ensures IndicesIn(history, from, at + n, key) == IndicesIn(history, from, at, key)
  {
    if n > 0 {
      IndicesOfOthers(history, from, at, n - 1, key);
    }
  }

  /** An entry adds its own positions to its key's deliveries, and nothing to other keys. */
  lemma IndicesAfterEntry(history: seq<Delivery>, from: nat, e: Entry, numa: nat, key: BlockKey)
    requires from <= |history|
    ensures IndicesFor(history + EntryOffers(e, numa), from, key)
         == IndicesFor(history, from, key) + (if key == e.key then Run(|history|, |e.images|) else [])
  {
    var offers := EntryOffers(e, numa);
    IndicesStable(history, offers, from, |history|, key);
    if key == e.key {
      IndicesOfRun(history + offers, from, |history|, |offers|, key);
    } else {
      IndicesOfOthers(history + offers, from, |history|, |offers|, key);
    }
  }

  lemma {:induction false} IndicesComplete(history: seq<Delivery>, from: nat, upTo: nat, key: BlockKey, k: nat)
    requires from <= k < upTo <= |history| && history[k].key == key
    ensures k in IndicesIn(history, from, upTo, key)
  {
    if k < upTo - 1 {
      IndicesComplete(history, from, upTo - 1, key, k);
    }
  }

  /** A stream offers every slot. */
  ghost predicate OffersAll(history: seq<Delivery>, s: Stream, total: nat) {
    && (forall i :: 0 <= i < |s| ==> s[i] < |history|)
    && AllOffered(InsertsAt(history, s), total)
  }

  /** The delivery a slot of the block goes back to. */
  ghost function FirstAt(history: seq<Delivery>, s: Stream, slot: nat): (k: nat)
    requires (forall i :: 0 <= i < |s| ==> s[i] < |history|) && Offered(InsertsAt(history, s), slot)
    ensures k in s && k < |history| && history[k].insert.slot == slot
  {
    s[FirstOffer(InsertsAt(history, s), slot)]
  }

  /** A longer stream with the same beginning has the same first deliveries. */
  lemma FirstAtPrefix(history: seq<Delivery>, s: Stream, more: Stream, slot: nat)
    requires forall i :: 0 <= i < |s + more| ==> (s + more)[i] < |history|
    requires (forall i :: 0 <= i < |s| ==> s[i] < |history|) && Offered(InsertsAt(history, s), slot)
    ensures Offered(InsertsAt(history, s + more), slot) && FirstAt(history, s + more, slot) == FirstAt(history, s, slot)
  {
    var xs, all := InsertsAt(history, s), InsertsAt(history, s + more);
    assert forall i :: 0 <= i < |xs| ==> all[i] == xs[i];
    assert all == xs + all[|xs|..];
    FirstOfferPrefix(xs, all[|xs|..], slot);
  }

  /** Past the deliveries of `s`, a slot's first delivery is found in what follows. */
  lemma FirstAtSuffix(history: seq<Delivery>, s: Stream, more: Stream, slot: nat)
    requires forall i :: 0 <= i < |s + more| ==> (s + more)[i] < |history|
    requires (forall i :: 0 <= i < |s| ==> s[i] < |history|) && (forall i :: 0 <= i < |more| ==> more[i] < |history|)
    requires !Offered(InsertsAt(history, s), slot)
    ensures Offered(InsertsAt(history, s + more), slot) <==> Offered(InsertsAt(history, more), slot)
    ensures Offered(InsertsAt(history, more), slot) ==> FirstAt(history, s + more, slot) == FirstAt(history, more, slot)
  {
    var xs, ys, all := InsertsAt(history, s), InsertsAt(history, more), InsertsAt(history, s + more);
    assert all == xs + ys;
    if Offered(ys, slot) {
      var f := FirstOffer(ys, slot);
      assert all[|xs| + f].slot == slot;
      assert forall i :: 0 <= i < |xs| ==> xs[i].slot != slot;
      assert FirstOffer(all, slot) == |xs| + f;
    }
  }

  // ---------------------------------------------------------------------------
  // Invariants
  // ---------------------------------------------------------------------------

  type InflightMap = map<BlockKey, Inflight>
  type CacheMap = map<BlockKey, SealedBlock>
  type StreamMap = map<BlockKey, Stream>

  function StreamOfKey(streams: StreamMap, key: BlockKey): Stream { if key in streams then streams[key] else [] }

  predicate SameImages(a: SealedBlock, b: SealedBlock) {
    a.slots == b.slots && a.slotNumas == b.slotNumas
  }

  /** An inflight block is what its deliveries make of a fresh one. */
  ghost predicate Filled(b: Inflight, history: seq<Delivery>, key: BlockKey, s: Stream) {
    && ForKey(history, key, s) && InRange(InsertsAt(history, s), |b.slots|)
    && b == AfterAll(|b.slots|, InsertsAt(history, s)) && b.remaining > 0
  }

  /** A sealed block holds the first delivery for each of its slots. */
  ghost predicate Sealed(b: SealedBlock, history: seq<Delivery>, key: BlockKey, s: Stream) {
    && ForKey(history, key, s) && InRange(InsertsAt(history, s), |b.slots|) && OffersAll(history, s, |b.slots|)
    && AfterAll(|b.slots|, InsertsAt(history, s)).Complete()
    && SameImages(b, SealOf(AfterAll(|b.slots|, InsertsAt(history, s))))
  }

  ghost predicate PendingTracked(inflight: InflightMap, history: seq<Delivery>, pending: StreamMap) {
    && pending.Keys == inflight.Keys
    && forall key {:trigger Filled(inflight[key], history, key, pending[key])} ::
         key in inflight ==> Filled(inflight[key], history, key, pending[key])
  }

  ghost predicate CacheTracked(cache: CacheMap, history: seq<Delivery>, origins: StreamMap) {
    && origins.Keys == cache.Keys
    && forall key {:trigger Sealed(cache[key], history, key, origins[key])} ::
         key in cache ==> Sealed(cache[key], history, key, origins[key])
  }

  /** Later deliveries leave a block's own ones alone. */
  lemma InsertsStable(history: seq<Delivery>, more: seq<Delivery>, s: Stream)
    requires forall i :: 0 <= i < |s| ==> s[i] < |history|
    ensures InsertsAt(history + more, s) == InsertsAt(history, s)
  {
  }

  lemma PendingStable(inflight: InflightMap, history: seq<Delivery>, more: seq<Delivery>, pending: StreamMap)
    requires PendingTracked(inflight, history, pending)
    ensures PendingTracked(inflight, history + more, pending)
  {
    forall key | key in inflight ensures Filled(inflight[key], history + more, key, pending[key]) {
      assert Filled(inflight[key], history, key, pending[key]);
      InsertsStable(history, more, pending[key]);
    }
  }

  lemma SealedStable(b: SealedBlock, history: seq<Delivery>, more: seq<Delivery>, key: BlockKey, s: Stream)
    requires Sealed(b, history, key, s)
    ensures Sealed(b, history + more, key, s)
  {
    InsertsStable(history, more, s);
  }

  lemma CacheStable(cache: CacheMap, history: seq<Delivery>, more: seq<Delivery>, origins: StreamMap)
    requires CacheTracked(cache, history, origins)
    ensures CacheTracked(cache, history + more, origins)
  {
    forall key | key in cache ensures Sealed(cache[key], history + more, key, origins[key]) {
      SealedStable(cache[key], history, more, key, origins[key]);
    }
  }

  /** Reading the invariant: a slot of a sealed block is the first delivery for it. */
  lemma SealedIsFirst(b: SealedBlock, history: seq<Delivery>, key: BlockKey, s: Stream, slot: nat)
    requires Sealed(b, history, key, s) && slot < |b.slots|
    ensures Offered(InsertsAt(history, s), slot)
    ensures b.slots[slot] == history[FirstAt(history, s, slot)].insert.block
  {
    SlotsAreFirstOffers(|b.slots|, InsertsAt(history, s), slot);
  }

  // ---------------------------------------------------------------------------
  // The code
  // ---------------------------------------------------------------------------

  lemma OfferNext(start: Inflight, inserts: seq<SlotInsert>, i: nat)
    requires start.Valid() && InRange(inserts, |start.slots|) && i < |inserts|
    ensures AfterOffers(start, inserts[..i + 1]) == AfterInsert(AfterOffers(start, inserts[..i]), inserts[i])
  {
    assert inserts[..i + 1] == inserts[..i] + [inserts[i]];
    AfterOffersSnoc(start, inserts[..i], inserts[i]);
  }

  lemma OfferRest(start: Inflight, xs: seq<SlotInsert>, ys: seq<SlotInsert>)
    requires start.Valid() && InRange(xs, |start.slots|) && InRange(ys, |start.slots|)
    requires AfterOffers(start, xs).Complete()
    ensures InRange(xs + ys, |start.slots|) && AfterOffers(start, xs + ys) == AfterOffers(start, xs)
  {
    AfterOffersConcat(start, xs, ys);
    CompleteStable(AfterOffers(start, xs), ys);
  }

  /** Offer images one by one, stopping at the insert that completes the block. */
  method OfferImages(start: Inflight, images: seq<SlotImage>, numa: nat) returns (b: Inflight, completed: bool)
    requires start.Valid() && !start.Complete() && InRange(AsInserts(images, numa), |start.slots|)
    ensures b == AfterOffers(start, AsInserts(images, numa))
    ensures completed <==> b.Complete()
  {
    ghost var inserts := AsInserts(images, numa);
    b, completed := start, false;
    for i := 0 to |images|
      invariant b == AfterOffers(start, inserts[..i]) && !completed && !b.Complete()
    {
      var insert := SlotInsert(images[i].0, images[i].1, numa);
      OfferNext(start, inserts, i);
      var outcome := InsertOutcome(b, insert);
      b := AfterInsert(b, insert);
      VacantZero(b.slots);
      if outcome.Inserted? && outcome.completed {
        OfferRest(start, inserts[..i + 1], inserts[i + 1..]);
        assert inserts == inserts[..i + 1] + inserts[i + 1..];
        return b, true;
      }
    }
    assert inserts[..|images|] == inserts;
  }

  /** The key has an inflight block of another slot count. */
  predicate Mismatched(inflight: InflightMap, key: BlockKey, total: nat) {
    key in inflight && |inflight[key].slots| != total
  }

  /** The inflight block an offer goes to; a fresh one if there is none. */
  function BlockFor(inflight: InflightMap, key: BlockKey, total: nat): Inflight {
    if key in inflight then inflight[key] else EmptyInflight(total)
  }

  /** What offering images to a key's block leaves behind. */
  ghost predicate PartialOutcome(inflight: InflightMap, key: BlockKey, inserts: seq<SlotInsert>, total: nat,
                                 out: InflightMap, sealed: Option<SealedBlock>)
    requires BlockFor(inflight, key, total).Valid() && InRange(inserts, |BlockFor(inflight, key, total).slots|)
  {
    var after := AfterOffers(BlockFor(inflight, key, total), inserts);
    if after.Complete()
    then out == inflight - {key} && sealed == Some(SealOf(after))
    else out == inflight[key := after] && sealed == None
  }

  /**
   Offer images to a key's inflight block; seal it when the last slot fills. A
   block of another slot count is left alone and the images are dropped.
   */
  method InsertPartialSlots(inflight: InflightMap, key: BlockKey, images: seq<SlotImage>, total: nat, numa: nat)
    returns (out: InflightMap, sealed: Option<SealedBlock>)
    requires total > 0 && InRange(AsInserts(images, numa), total)
    requires key in inflight ==> inflight[key].Valid() && inflight[key].remaining > 0
    ensures key in inflight && |inflight[key].slots| != total ==> out == inflight && sealed == None
    ensures !Mismatched(inflight, key, total) ==>
      && BlockFor(inflight, key, total).Valid() && |BlockFor(inflight, key, total).slots| == total
      && PartialOutcome(inflight, key, AsInserts(images, numa), total, out, sealed)
  {
    if key in inflight && |inflight[key].slots| != total {
      return inflight, None;
    }
    EmptyVacant(total);
    var start := BlockFor(inflight, key, total);
    VacantZero(start.slots);
    var b, completed := OfferImages(start, images, numa);
    if completed {
      out := inflight - {key};
      sealed := Some(SealOf(b));
    } else {
      out := inflight[key := b];
      sealed := None;
    }
  }

  /** The positions a key's block has been offered once an entry has been handled. */
  function WithEntry(pending: StreamMap, history: seq<Delivery>, e: Entry): Stream {
    StreamOfKey(pending, e.key) + Run(|history|, |e.images|)
  }

  lemma WithEntryInserts(pending: StreamMap, history: seq<Delivery>, e: Entry, numa: nat)
    requires ForKey(history, e.key, StreamOfKey(pending, e.key))
    ensures var full, after := WithEntry(pending, history, e), history + EntryOffers(e, numa);
            && ForKey(after, e.key, full)
            && InsertsAt(after, full) == InsertsAt(history, StreamOfKey(pending, e.key)) + AsInserts(e.images, numa)
  {
  }

  /** What one entry does to the worker's state. */
  ghost predicate EntryHandled(inflight: InflightMap, pending: StreamMap, history: seq<Delivery>,
                               resident: set<BlockKey>, e: Entry, total: nat, numa: nat, inflight': InflightMap,
                               pending': StreamMap, sealed: bool)
  {
    var full, after := WithEntry(pending, history, e), history + EntryOffers(e, numa);
    if e.key in resident || Mismatched(inflight, e.key, total) then
      inflight' == inflight && pending' == pending && !sealed
    else if OffersAll(after, full, total) then
      inflight' == inflight - {e.key} && pending' == pending - {e.key} && sealed
    else
      && pending' == pending[e.key := full] && !sealed
      && e.key in inflight' && |inflight'[e.key].slots| == total && inflight' == inflight[e.key := inflight'[e.key]]
  }

  /** An entry's seal, if any, is the block of everything offered so far. */
  ghost predicate EntrySealed(pending: StreamMap, history: seq<Delivery>, e: Entry, total: nat, numa: nat,
                              sealed: Option<SealedBlock>) {
    sealed.Some? ==>
      && |sealed.value.slots| == total
      && Sealed(sealed.value, history + EntryOffers(e, numa), e.key, WithEntry(pending, history, e))
  }

  /** The one-pass seal is the seal of the entry's own deliveries. */
  lemma OrderedEntry(history: seq<Delivery>, e: Entry, total: nat, numa: nat)
    requires InSlotOrder(e.images, total) && total > 0
    ensures var s, after := Run(|history|, |e.images|), history + EntryOffers(e, numa);
            && |OrderedSeal(e.images, numa).slots| == total
            && Sealed(OrderedSeal(e.images, numa), after, e.key, s)
  {
    var s, after := Run(|history|, |e.images|), history + EntryOffers(e, numa);
    assert InsertsAt(after, s) == AsInserts(e.images, numa);
    OrderedSealRefines(e.images, total, numa);
    CompleteMeansAllOffered(total, AsInserts(e.images, numa));
  }

  /** Slot-by-slot insertion builds the block of all its deliveries. */
  lemma PartialEntry(inflight: InflightMap, history: seq<Delivery>, pending: StreamMap, e: Entry, total: nat, numa: nat)
    requires PendingTracked(inflight, history, pending) && InRange(AsInserts(e.images, numa), total) && total > 0
    requires !Mismatched(inflight, e.key, total)
    ensures BlockFor(inflight, e.key, total).Valid() && |BlockFor(inflight, e.key, total).slots| == total
    ensures ForKey(history, e.key, StreamOfKey(pending, e.key))
    ensures var full, after := WithEntry(pending, history, e), history + EntryOffers(e, numa);
            var b := AfterOffers(BlockFor(inflight, e.key, total), AsInserts(e.images, numa));
            && ForKey(after, e.key, full) && InRange(InsertsAt(after, full), total)
            && b == AfterAll(total, InsertsAt(after, full))
            && (b.Complete() <==> OffersAll(after, full, total))
            && (b.remaining > 0 <==> !OffersAll(after, full, total))
  {
    EmptyVacant(total);
    assert e.key in inflight ==> Filled(inflight[e.key], history, e.key, pending[e.key]);
    WithEntryInserts(pending, history, e, numa);
    var before := InsertsAt(history, StreamOfKey(pending, e.key));
    AfterOffersConcat(EmptyInflight(total), before, AsInserts(e.images, numa));
    CompleteMeansAllOffered(total, before + AsInserts(e.images, numa));
  }

  lemma OrderedHandled(inflight: InflightMap, history: seq<Delivery>, pending: StreamMap, resident: set<BlockKey>,
                       e: Entry, total: nat, numa: nat)
    requires PendingTracked(inflight, history, pending) && InSlotOrder(e.images, total) && total > 0
    requires e.key !in inflight && e.key !in resident
    ensures EntryHandled(inflight, pending, history, resident, e, total, numa, inflight, pending, true)
    ensures EntrySealed(pending, history, e, total, numa, Some(OrderedSeal(e.images, numa)))
  {
    OrderedEntry(history, e, total, numa);
    assert WithEntry(pending, history, e) == Run(|history|, |e.images|);
    assert inflight - {e.key} == inflight && pending - {e.key} == pending;
  }

  function AfterPartial(pending: StreamMap, history: seq<Delivery>, e: Entry, sealed: Option<SealedBlock>): StreamMap {
    if sealed.Some? then pending - {e.key} else pending[e.key := WithEntry(pending, history, e)]
  }

  lemma PartialHandled(inflight: InflightMap, history: seq<Delivery>, pending: StreamMap, resident: set<BlockKey>,
                       e: Entry, total: nat, numa: nat, out: InflightMap, sealed: Option<SealedBlock>)
    requires PendingTracked(inflight, history, pending) && InRange(AsInserts(e.images, numa), total) && total > 0
    requires !Mismatched(inflight, e.key, total) && e.key !in resident
    requires BlockFor(inflight, e.key, total).Valid() && |BlockFor(inflight, e.key, total).slots| == total
    requires PartialOutcome(inflight, e.key, AsInserts(e.images, numa), total, out, sealed)
    ensures EntryHandled(inflight, pending, history, resident, e, total, numa,
                         out, AfterPartial(pending, history, e, sealed), sealed.Some?)
    ensures EntrySealed(pending, history, e, total, numa, sealed)
  {
    PartialEntry(inflight, history, pending, e, total, numa);
  }

  lemma PartialTracked(inflight: InflightMap, history: seq<Delivery>, pending: StreamMap, e: Entry, total: nat,
                       numa: nat, out: InflightMap, sealed: Option<SealedBlock>)
    requires PendingTracked(inflight, history, pending) && InRange(AsInserts(e.images, numa), total) && total > 0
    requires !Mismatched(inflight, e.key, total)
    requires BlockFor(inflight, e.key, total).Valid() && |BlockFor(inflight, e.key, total).slots| == total
    requires PartialOutcome(inflight, e.key, AsInserts(e.images, numa), total, out, sealed)
    ensures PendingTracked(out, history + EntryOffers(e, numa), AfterPartial(pending, history, e, sealed))
  {
    PartialEntry(inflight, history, pending, e, total, numa);
    PendingStable(inflight, history, EntryOffers(e, numa), pending);
  }

  /** Handle one entry; `resident` are the keys in the read cache. */
  method ProcessEntry(inflight: InflightMap, resident: set<BlockKey>, e: Entry, total: nat, numa: nat,
                      ghost history: seq<Delivery>, ghost pending: StreamMap)
    returns (inflight': InflightMap, sealed: Option<SealedBlock>, ghost pending': StreamMap)
    requires total > 0 && InRange(AsInserts(e.images, numa), total) && PendingTracked(inflight, history, pending)
    ensures PendingTracked(inflight', history + EntryOffers(e, numa), pending')
    ensures EntryHandled(inflight, pending, history, resident, e, total, numa, inflight', pending', sealed.Some?)
    ensures EntrySealed(pending, history, e, total, numa, sealed)
  {
    inflight', sealed, pending' := inflight, None, pending;
    PendingStable(inflight, history, EntryOffers(e, numa), pending);
    assert e.key in inflight ==> Filled(inflight[e.key], history, e.key, pending[e.key]);
    if e.key in resident {
      return;
    }
    if e.key !in inflight {
      var ordered := FromOrderedSlotInserts(e.images, total, numa);
      if ordered.Ok? {
        sealed := Some(ordered.value);
        OrderedHandled(inflight, history, pending, resident, e, total, numa);
        return;
      }
    }
    inflight', sealed := InsertPartialSlots(inflight, e.key, e.images, total, numa);
    if !Mismatched(inflight, e.key, total) {
      pending' := AfterPartial(pending, history, e, sealed);
      PartialHandled(inflight, history, pending, resident, e, total, numa, inflight', sealed);
      PartialTracked(inflight, history, pending, e, total, numa, inflight', sealed);
    }
  }


  // ---------------------------------------------------------------------------
  // A whole batch
  // ---------------------------------------------------------------------------

  type Seals = seq<(BlockKey, SealedBlock)>

  /** Position of a key's first seal that is not refused; past the end if there is none. */
  function FirstSeal(sealed: Seals, refused: set<nat>, key: BlockKey): (p: nat)
    ensures p <= |sealed|
    ensures p < |sealed| ==> sealed[p].0 == key && p !in refused
    ensures forall q :: 0 <= q < p ==> sealed[q].0 != key || q in refused
  {
    if sealed == [] then 0
    else
      var n := |sealed| - 1;
      var p := FirstSeal(sealed[..n], refused, key);
      if p < n || (sealed[n].0 == key && n !in refused) then p else n + 1
  }

  lemma FirstSealSnoc(sealed: Seals, refused: set<nat>, x: (BlockKey, SealedBlock), key: BlockKey)
    ensures var p := FirstSeal(sealed, refused, key);
            FirstSeal(sealed + [x], refused, key) ==
              if p < |sealed| || (x.0 == key && |sealed| !in refused) then p else |sealed| + 1
  {
    assert (sealed + [x])[..|sealed|] == sealed;
  }

  ghost predicate SealsTracked(sealed: Seals, history: seq<Delivery>, streams: seq<Stream>) {
    && |streams| == |sealed|
    && forall p :: 0 <= p < |sealed| ==> Sealed(sealed[p].1, history, sealed[p].0, streams[p])
  }

  /** A stream continues an earlier one, or starts over, with positions from `from` on. */
  predicate Derived(base: Stream, s: Stream, from: nat) {
    || (forall i :: 0 <= i < |s| ==> s[i] >= from)
    || (base <= s && forall i :: |base| <= i < |s| ==> s[i] >= from)
  }

  ghost predicate PendingDerived(base: StreamMap, pending: StreamMap, from: nat) {
    forall key :: key in pending ==> Derived(StreamOfKey(base, key), pending[key], from)
  }

  predicate SameAt<K, V(==)>(a: map<K, V>, b: map<K, V>, key: K) {
    (key in a <==> key in b) && (key in a ==> a[key] == b[key])
  }

  /** Everything a key has been offered: what it had pending, then the batch so far. */
  function OfferedTo(pending: StreamMap, history: seq<Delivery>, from: nat, key: BlockKey): Stream {
    StreamOfKey(pending, key) + IndicesFor(history, from, key)
  }

  /** The worker's state, with the deliveries behind it. */
  datatype Work = Work(inflight: InflightMap, pending: StreamMap, sealed: Seals, streams: seq<Stream>)

  /** One key's part of it: the slot count and stream of its inflight block, and its first seal. */
  datatype KeyView = KeyView(count: Option<nat>, stream: Stream, seal: Option<Stream>)

  function ViewOf(w: Work, key: BlockKey): KeyView
    requires |w.streams| == |w.sealed|
  {
    var p := FirstSeal(w.sealed, {}, key);
    KeyView(if key in w.inflight then Some(|w.inflight[key].slots|) else None, StreamOfKey(w.pending, key),
            if p < |w.sealed| then Some(w.streams[p]) else None)
  }

  predicate Skips(v: KeyView, resident: bool, total: nat) {
    resident || (v.count.Some? && v.count.value != total)
  }

  /** Where a key stands once it has been offered `full`. */
  ghost predicate KeyProgress(start: KeyView, now: KeyView, resident: bool, total: nat, history: seq<Delivery>,
                              full: Stream) {
    if Skips(start, resident, total) then now == start
    else
      && !Skips(now, resident, total)
      && if OffersAll(history, full, total)
         then now.seal.Some? && now.seal.value <= full
         else now.seal.None? && now.stream == full
  }

  /** What an entry for the key does to it. */
  ghost predicate KeyStep(now: KeyView, next: KeyView, resident: bool, total: nat, history: seq<Delivery>,
                          run: Stream) {
    if Skips(now, resident, total) then next == now
    else if OffersAll(history, now.stream + run, total) then
      next == KeyView(None, [], if now.seal.Some? then now.seal else Some(now.stream + run))
    else next == KeyView(Some(total), now.stream + run, now.seal)
  }

  lemma ProgressStep(start: KeyView, now: KeyView, next: KeyView, resident: bool, total: nat,
                     history: seq<Delivery>, more: seq<Delivery>, full: Stream, run: Stream)
    requires KeyProgress(start, now, resident, total, history, full)
    requires KeyStep(now, next, resident, total, history + more, run)
    requires forall i :: 0 <= i < |run| ==> run[i] < |history + more|
    ensures KeyProgress(start, next, resident, total, history + more, full + run)
  {
    if OffersAll(history, full, total) {
      OffersMore(history, more, full, run, total);
    }
  }

  lemma OffersMore(history: seq<Delivery>, more: seq<Delivery>, s: Stream, rest: Stream, total: nat)
    requires forall i :: 0 <= i < |rest| ==> rest[i] < |history + more|
    requires OffersAll(history, s, total)
    ensures OffersAll(history + more, s + rest, total)
  {
    var all := InsertsAt(history + more, s + rest);
    assert all[..|s|] == InsertsAt(history, s);
    assert all[..|all|] == all;
    OfferedGrows(all, |s|, |all|, total);
  }

  /** The worker's state after an entry. */
  ghost predicate WorkStep(now: Work, next: Work, history: seq<Delivery>, resident: set<BlockKey>, e: Entry,
                           total: nat, numa: nat, sealed: Option<SealedBlock>)
  {
    && |now.streams| == |now.sealed|
    && EntryHandled(now.inflight, now.pending, history, resident, e, total, numa, next.inflight, next.pending,
                    sealed.Some?)
    && next.sealed == now.sealed + (if sealed.Some? then [(e.key, sealed.value)] else [])
    && next.streams == now.streams + (if sealed.Some? then [WithEntry(now.pending, history, e)] else [])
  }

  lemma StepSame(now: Work, next: Work, history: seq<Delivery>, resident: set<BlockKey>, e: Entry, total: nat,
                 numa: nat, sealed: Option<SealedBlock>)
    requires WorkStep(now, next, history, resident, e, total, numa, sealed)
    ensures |next.streams| == |next.sealed|
    ensures KeyStep(ViewOf(now, e.key), ViewOf(next, e.key), e.key in resident, total,
                    history + EntryOffers(e, numa), Run(|history|, |e.images|))
  {
    if sealed.Some? {
      FirstSealSnoc(now.sealed, {}, (e.key, sealed.value), e.key);
    } else {
      assert next.sealed == now.sealed && next.streams == now.streams;
    }
  }

  lemma StepOther(now: Work, next: Work, history: seq<Delivery>, resident: set<BlockKey>, e: Entry, total: nat,
                  numa: nat, sealed: Option<SealedBlock>, key: BlockKey)
    requires WorkStep(now, next, history, resident, e, total, numa, sealed) && key != e.key
    ensures |next.streams| == |next.sealed| && ViewOf(next, key) == ViewOf(now, key)
  {
    if sealed.Some? {
      FirstSealSnoc(now.sealed, {}, (e.key, sealed.value), key);
    } else {
      assert next.sealed == now.sealed && next.streams == now.streams;
    }
  }

  predicate EntriesInRange(entries: seq<Entry>, total: nat) {
    forall i, j :: 0 <= i < |entries| && 0 <= j < |entries[i].images| ==> entries[i].images[j].0 < total
  }

  /** Streams that stay below a position. */
  predicate Bounded(streams: StreamMap, n: nat) {
    forall key, i :: key in streams && 0 <= i < |streams[key]| ==> streams[key][i] < n
  }

  ghost predicate Progress(start: Work, now: Work, resident: set<BlockKey>, total: nat, from: nat,
                           history: seq<Delivery>) {
    && |start.streams| == |start.sealed| && |now.streams| == |now.sealed|
    && forall key :: ProgressAt(start, now, resident, total, from, history, key)
  }

  /** One key's share of the invariant. */
  ghost predicate ProgressAt(start: Work, now: Work, resident: set<BlockKey>, total: nat, from: nat,
                             history: seq<Delivery>, key: BlockKey)
    requires |start.streams| == |start.sealed| && |now.streams| == |now.sealed|
  {
    KeyProgress(ViewOf(start, key), ViewOf(now, key), key in resident, total, history,
                OfferedTo(start.pending, history, from, key))
  }

  lemma OfferedAfterEntry(pending: StreamMap, history: seq<Delivery>, from: nat, e: Entry, numa: nat, key: BlockKey)
    requires from <= |history|
    ensures OfferedTo(pending, history + EntryOffers(e, numa), from, key)
         == OfferedTo(pending, history, from, key) + (if key == e.key then Run(|history|, |e.images|) else [])
  {
    IndicesAfterEntry(history, from, e, numa, key);
  }

  lemma ProgressSame(pending: StreamMap, start: KeyView, now: KeyView, next: KeyView, resident: bool, total: nat,
                     from: nat, history: seq<Delivery>, e: Entry, numa: nat)
    requires from <= |history|
    requires KeyProgress(start, now, resident, total, history, OfferedTo(pending, history, from, e.key))
    requires KeyStep(now, next, resident, total, history + EntryOffers(e, numa), Run(|history|, |e.images|))
    ensures KeyProgress(start, next, resident, total, history + EntryOffers(e, numa),
                        OfferedTo(pending, history + EntryOffers(e, numa), from, e.key))
  {
    OfferedAfterEntry(pending, history, from, e, numa, e.key);
    ProgressStep(start, now, next, resident, total, history, EntryOffers(e, numa),
                 OfferedTo(pending, history, from, e.key),
                 Run(|history|, |e.images|));
  }

  lemma ProgressOther(pending: StreamMap, start: KeyView, now: KeyView, resident: bool, total: nat,
                      from: nat, history: seq<Delivery>, e: Entry, numa: nat, key: BlockKey)
    requires from <= |history| && key != e.key
    requires forall i :: 0 <= i < |StreamOfKey(pending, key)| ==> StreamOfKey(pending, key)[i] < from
    requires KeyProgress(start, now, resident, total, history, OfferedTo(pending, history, from, key))
    ensures KeyProgress(start, now, resident, total, history + EntryOffers(e, numa),
                        OfferedTo(pending, history + EntryOffers(e, numa), from, key))
  {
    OfferedAfterEntry(pending, history, from, e, numa, key);
    var full := OfferedTo(pending, history, from, key);
    assert full + [] == full;
    InsertsStable(history, EntryOffers(e, numa), full);
  }

  lemma ProgressEntry(start: Work, now: Work, next: Work, from: nat, history: seq<Delivery>, resident: set<BlockKey>,
                      e: Entry, total: nat, numa: nat, sealed: Option<SealedBlock>)
    requires from <= |history| && Bounded(start.pending, from)
    requires Progress(start, now, resident, total, from, history)
    requires WorkStep(now, next, history, resident, e, total, numa, sealed)
    ensures Progress(start, next, resident, total, from, history + EntryOffers(e, numa))
  {
    assert ProgressAt(start, now, resident, total, from, history, e.key);
    StepSame(now, next, history, resident, e, total, numa, sealed);
    ProgressSame(start.pending, ViewOf(start, e.key), ViewOf(now, e.key), ViewOf(next, e.key), e.key in resident, total,
                 from, history, e, numa);
    forall key | key != e.key
      ensures ProgressAt(start, next, resident, total, from, history + EntryOffers(e, numa), key)
    {
      assert ProgressAt(start, now, resident, total, from, history, key);
      StepOther(now, next, history, resident, e, total, numa, sealed, key);
      ProgressOther(start.pending, ViewOf(start, key), ViewOf(now, key), key in resident, total, from, history, e, numa,
                    key);
    }
  }

  /** An inflight block waits for some slot. */
  lemma PendingIncomplete(inflight: InflightMap, history: seq<Delivery>, pending: StreamMap, total: nat, key: BlockKey)
    requires PendingTracked(inflight, history, pending) && !Mismatched(inflight, key, total) && total > 0
    ensures !OffersAll(history, StreamOfKey(pending, key), total)
  {
    var s := StreamOfKey(pending, key);
    if key in inflight {
      assert Filled(inflight[key], history, key, s);
      CompleteMeansAllOffered(total, InsertsAt(history, s));
    } else {
      assert !Offered(InsertsAt(history, s), 0);
    }
  }

  lemma ProgressStart(start: Work, resident: set<BlockKey>, total: nat, history: seq<Delivery>)
    requires start.sealed == [] && start.streams == [] && total > 0
    requires PendingTracked(start.inflight, history, start.pending)
    ensures Progress(start, start, resident, total, |history|, history)
    ensures Bounded(start.pending, |history|) && PendingDerived(start.pending, start.pending, |history|)
  {
    forall key, i | key in start.pending && 0 <= i < |start.pending[key]| ensures start.pending[key][i] < |history| {
      assert Filled(start.inflight[key], history, key, start.pending[key]);
    }
    forall key ensures ProgressAt(start, start, resident, total, |history|, history, key) {
      assert OfferedTo(start.pending, history, |history|, key) == StreamOfKey(start.pending, key);
      if !Mismatched(start.inflight, key, total) {
        PendingIncomplete(start.inflight, history, start.pending, total, key);
      }
    }
  }

  lemma DerivedEntry(base: StreamMap, from: nat, inflight: InflightMap, pending: StreamMap, history: seq<Delivery>,
                     resident: set<BlockKey>, e: Entry, total: nat, numa: nat, inflight': InflightMap,
                     pending': StreamMap, sealed: bool)
    requires from <= |history| && PendingDerived(base, pending, from)
    requires EntryHandled(inflight, pending, history, resident, e, total, numa, inflight', pending', sealed)
    ensures PendingDerived(base, pending', from)
    ensures Derived(StreamOfKey(base, e.key), WithEntry(pending, history, e), from)
  {
    var s := StreamOfKey(pending, e.key);
    assert Derived(StreamOfKey(base, e.key), s, from);
    var full := WithEntry(pending, history, e);
    assert forall i :: |s| <= i < |full| ==> full[i] >= from;
  }

  lemma SealsStable(sealed: Seals, history: seq<Delivery>, more: seq<Delivery>, streams: seq<Stream>)
    requires SealsTracked(sealed, history, streams)
    ensures SealsTracked(sealed, history + more, streams)
  {
    forall p | 0 <= p < |sealed| ensures Sealed(sealed[p].1, history + more, sealed[p].0, streams[p]) {
      SealedStable(sealed[p].1, history, more, sealed[p].0, streams[p]);
    }
  }

  /** The seals of part of a batch: none for a resident key, all of the batch's slot count. */
  ghost predicate SealsSound(base: StreamMap, from: nat, resident: set<BlockKey>, total: nat, history: seq<Delivery>,
                             sealed: Seals, streams: seq<Stream>)
  {
    && SealsTracked(sealed, history, streams)
    && forall p :: 0 <= p < |sealed| ==>
         && Derived(StreamOfKey(base, sealed[p].0), streams[p], from)
         && sealed[p].0 !in resident && |sealed[p].1.slots| == total
  }

  lemma SealsEntry(base: StreamMap, from: nat, resident: set<BlockKey>, e: Entry, total: nat, numa: nat,
                   history: seq<Delivery>, sealed: Seals, streams: seq<Stream>, pending: StreamMap, one: SealedBlock)
    requires SealsSound(base, from, resident, total, history, sealed, streams) && e.key !in resident
    requires EntrySealed(pending, history, e, total, numa, Some(one))
    requires Derived(StreamOfKey(base, e.key), WithEntry(pending, history, e), from)
    ensures SealsSound(base, from, resident, total, history + EntryOffers(e, numa), sealed + [(e.key, one)],
                       streams + [WithEntry(pending, history, e)])
  {
    SealsStable(sealed, history, EntryOffers(e, numa), streams);
  }

  /** The invariant of the worker's loop. */
  ghost predicate BatchInv(start: Work, now: Work, from: nat, history: seq<Delivery>, resident: set<BlockKey>,
                           total: nat) {
    && from <= |history| && Bounded(start.pending, from)
    && PendingTracked(now.inflight, history, now.pending)
    && PendingDerived(start.pending, now.pending, from)
    && SealsSound(start.pending, from, resident, total, history, now.sealed, now.streams)
    && Progress(start, now, resident, total, from, history)
  }

  lemma BatchStep(start: Work, now: Work, next: Work, from: nat, history: seq<Delivery>, resident: set<BlockKey>,
                  e: Entry, total: nat, numa: nat, sealed: Option<SealedBlock>)
    requires BatchInv(start, now, from, history, resident, total)
    requires WorkStep(now, next, history, resident, e, total, numa, sealed)
    requires EntrySealed(now.pending, history, e, total, numa, sealed)
    requires PendingTracked(next.inflight, history + EntryOffers(e, numa), next.pending)
    ensures BatchInv(start, next, from, history + EntryOffers(e, numa), resident, total)
  {
    DerivedEntry(start.pending, from, now.inflight, now.pending, history, resident, e, total, numa,
                 next.inflight, next.pending, sealed.Some?);
    if sealed.Some? {
      SealsEntry(start.pending, from, resident, e, total, numa, history, now.sealed, now.streams, now.pending,
                 sealed.value);
    } else {
      SealsStable(now.sealed, history, EntryOffers(e, numa), now.streams);
    }
    ProgressEntry(start, now, next, from, history, resident, e, total, numa, sealed);
  }

  method HandleEntry(inflight: InflightMap, sealed: Seals, resident: set<BlockKey>, e: Entry, total: nat, numa: nat,
                     ghost start: Work, ghost from: nat, ghost history: seq<Delivery>, ghost pending: StreamMap,
                     ghost streams: seq<Stream>)
    returns (inflight': InflightMap, sealed': Seals, ghost pending': StreamMap, ghost streams': seq<Stream>)
    requires total > 0 && InRange(AsInserts(e.images, numa), total)
    requires BatchInv(start, Work(inflight, pending, sealed, streams), from, history, resident, total)
    ensures BatchInv(start, Work(inflight', pending', sealed', streams'), from, history + EntryOffers(e, numa),
                     resident, total)
  {
    var one;
    inflight', one, pending' := ProcessEntry(inflight, resident, e, total, numa, history, pending);
    sealed' := sealed + if one.Some? then [(e.key, one.value)] else [];
    streams' := streams + if one.Some? then [WithEntry(pending, history, e)] else [];
    BatchStep(start, Work(inflight, pending, sealed, streams), Work(inflight', pending', sealed', streams'), from,
              history,
              resident, e, total, numa, one);
  }

  /** Handle the entries in order; the seals wait for publication. */
  method HandleEntries(inflight: InflightMap, resident: set<BlockKey>, entries: seq<Entry>, total: nat, numa: nat,
                       ghost history: seq<Delivery>, ghost pending: StreamMap)
    returns (inflight': InflightMap, sealed: Seals, ghost pending': StreamMap, ghost streams: seq<Stream>)
    requires total > 0 && EntriesInRange(entries, total) && PendingTracked(inflight, history, pending)
    ensures BatchInv(Work(inflight, pending, [], []), Work(inflight', pending', sealed, streams), |history|,
                     history + BatchOffers(entries, numa), resident, total)
  {
    ghost var start, h := Work(inflight, pending, [], []), history;
    inflight', sealed, pending', streams := inflight, [], pending, [];
    var i := 0;
    ProgressStart(start, resident, total, history);
    while i < |entries|
      invariant 0 <= i <= |entries| && h == history + BatchOffers(entries[..i], numa)
      invariant BatchInv(start, Work(inflight', pending', sealed, streams), |history|, h, resident, total)
    {
      inflight', sealed, pending', streams :=
        HandleEntry(inflight', sealed, resident, entries[i], total, numa, start, |history|, h, pending', streams);
      assert entries[..i + 1][..i] == entries[..i];
      h := h + EntryOffers(entries[i], numa);
      i := i + 1;
    }
    assert entries[..i] == entries;
  }

  // ---------------------------------------------------------------------------
  // Publication
  // ---------------------------------------------------------------------------

  ghost predicate PublishedAt(cache: CacheMap, origins: StreamMap, sealed: Seals, streams: seq<Stream>,
                              refused: set<nat>, cache': CacheMap, origins': StreamMap, key: BlockKey)
    requires |streams| == |sealed|
  {
    var p := FirstSeal(sealed, refused, key);
    if key in cache then SameAt(cache, cache', key) && SameAt(origins, origins', key)
    else if p < |sealed| then
      key in cache' && cache'[key] == sealed[p].1 && key in origins' && origins'[key] == streams[p]
    else key !in cache' && key !in origins'
  }

  lemma PublishStep(cache: CacheMap, origins: StreamMap, sealed: Seals, streams: seq<Stream>, refused: set<nat>, i: nat,
                    mid: CacheMap, midOrigins: StreamMap, next: CacheMap, nextOrigins: StreamMap, key: BlockKey)
    requires |streams| == |sealed| && i < |sealed|
    requires PublishedAt(cache, origins, sealed[..i], streams[..i], refused, mid, midOrigins, key)
    requires if i !in refused && sealed[i].0 !in mid
             then next == mid[sealed[i].0 := sealed[i].1] && nextOrigins == midOrigins[sealed[i].0 := streams[i]]
             else next == mid && nextOrigins == midOrigins
    ensures PublishedAt(cache, origins, sealed[..i + 1], streams[..i + 1], refused, next, nextOrigins, key)
  {
    assert sealed[..i + 1] == sealed[..i] + [sealed[i]];
    FirstSealSnoc(sealed[..i], refused, sealed[i], key);
  }

  /** Publish the seals: a resident key is never overwritten, and admission may refuse a seal. */
  method Publish(cache: CacheMap, sealed: Seals, refused: set<nat>, ghost origins: StreamMap,
                 ghost streams: seq<Stream>)
    returns (cache': CacheMap, ghost origins': StreamMap)
    requires |streams| == |sealed| && origins.Keys == cache.Keys
    ensures origins'.Keys == cache'.Keys
    ensures forall key :: PublishedAt(cache, origins, sealed, streams, refused, cache', origins', key)
  {
    cache', origins' := cache, origins;
    for i := 0 to |sealed|
      invariant origins'.Keys == cache'.Keys
      invariant forall key :: PublishedAt(cache, origins, sealed[..i], streams[..i], refused, cache', origins', key)
    {
      ghost var mid, midOrigins := cache', origins';
      if sealed[i].0 !in cache' && i !in refused {
        cache' := cache'[sealed[i].0 := sealed[i].1];
        origins' := origins'[sealed[i].0 := streams[i]];
      }
      ghost var done, doneStreams := sealed[..i + 1], streams[..i + 1];
      forall key ensures PublishedAt(cache, origins, done, doneStreams, refused, cache', origins', key) {
        PublishStep(cache, origins, sealed, streams, refused, i, mid, midOrigins, cache', origins', key);
      }
    }
    assert sealed[..|sealed|] == sealed && streams[..|sealed|] == streams;
  }

  /** The store's maps, with the deliveries behind them. */
  datatype Shelves = Shelves(inflight: InflightMap, cache: CacheMap, pending: StreamMap, origins: StreamMap)
  {
    ghost predicate Tracked(history: seq<Delivery>) {
      PendingTracked(inflight, history, pending) && CacheTracked(cache, history, origins)
    }
  }

  /** Every block of the store has this many slots. */
  predicate Uniform(inflight: InflightMap, cache: CacheMap, total: nat) {
    && (forall key :: key in inflight ==> |inflight[key].slots| == total)
    && (forall key :: key in cache ==> |cache[key].slots| == total)
  }

  /**
   What a batch makes of a key. A resident key, or one with an inflight block of
   another slot count, keeps what it has. Otherwise the block becomes resident
   exactly if its pending deliveries and the batch's cover every slot, unless
   admission refuses the key's first seal; else they stay pending.
   */
  ghost predicate KeyOutcome(was: Shelves, now: Shelves, from: nat, history: seq<Delivery>, total: nat,
                             sealed: Seals, refused: set<nat>, key: BlockKey)
  {
    var p, full := FirstSeal(sealed, {}, key), OfferedTo(was.pending, history, from, key);
    if key in was.cache then
      && SameAt(was.cache, now.cache, key) && SameAt(was.origins, now.origins, key)
      && StreamOfKey(now.pending, key) == StreamOfKey(was.pending, key)
    else if key in was.inflight && |was.inflight[key].slots| != total then
      key !in now.cache && StreamOfKey(now.pending, key) == StreamOfKey(was.pending, key)
    else if OffersAll(history, full, total) then
      p < |sealed| && (p !in refused ==> key in now.cache && key in now.origins && now.origins[key] <= full)
    else
      key !in now.cache && StreamOfKey(now.pending, key) == full
  }

  /** A batch gives blocks only deliveries they had pending or were offered by it. */
  ghost predicate OnlyNew(was: Shelves, now: Shelves, from: nat) {
    && PendingDerived(was.pending, now.pending, from)
    && forall key :: key in now.origins && key !in was.origins ==>
         Derived(StreamOfKey(was.pending, key), now.origins[key], from)
  }

  /** One batch through the worker. */
  method ProcessInsertBatch(inflight: InflightMap, cache: CacheMap, entries: seq<Entry>, total: nat, numa: nat,
                            refused: set<nat>, ghost history: seq<Delivery>, ghost pending: StreamMap,
                            ghost origins: StreamMap)
    returns (inflight': InflightMap, cache': CacheMap, sealed: Seals, ghost pending': StreamMap,
             ghost origins': StreamMap)
    requires total > 0 && EntriesInRange(entries, total)
    requires Shelves(inflight, cache, pending, origins).Tracked(history)
    ensures Shelves(inflight', cache', pending', origins').Tracked(history + BatchOffers(entries, numa))
    ensures OnlyNew(Shelves(inflight, cache, pending, origins), Shelves(inflight', cache', pending', origins'),
                    |history|)
    ensures Uniform(inflight, cache, total) ==> Uniform(inflight', cache', total)
    ensures forall key ::
      KeyOutcome(Shelves(inflight, cache, pending, origins), Shelves(inflight', cache', pending', origins'),
                 |history|, history + BatchOffers(entries, numa), total, sealed, refused, key)
  {
    ghost var streams;
    inflight', sealed, pending', streams := HandleEntries(inflight, cache.Keys, entries, total, numa, history, pending);
    cache', origins' := Publish(cache, sealed, refused, origins, streams);
    ghost var start, now := Work(inflight, pending, [], []), Work(inflight', pending', sealed, streams);
    BatchPublished(Shelves(inflight, cache, pending, origins), Shelves(inflight', cache', pending', origins'),
                   start, now, history, BatchOffers(entries, numa), total, refused);
    if Uniform(inflight, cache, total) {
      StaysUniform(Shelves(inflight, cache, pending, origins), Shelves(inflight', cache', pending', origins'),
                   start, now, history + BatchOffers(entries, numa), |history|, total, refused);
    }
  }

  lemma BatchPublished(was: Shelves, shelves: Shelves, start: Work, now: Work, history: seq<Delivery>,
                       more: seq<Delivery>, total: nat, refused: set<nat>)
    requires was.Tracked(history) && start == Work(was.inflight, was.pending, [], [])
    requires now.inflight == shelves.inflight && now.pending == shelves.pending
    requires BatchInv(start, now, |history|, history + more, was.cache.Keys, total)
    requires shelves.origins.Keys == shelves.cache.Keys && |now.streams| == |now.sealed|
    requires forall key ::
      PublishedAt(was.cache, was.origins, now.sealed, now.streams, refused, shelves.cache, shelves.origins, key)
    ensures shelves.Tracked(history + more) && OnlyNew(was, shelves, |history|)
    ensures forall key :: KeyOutcome(was, shelves, |history|, history + more, total, now.sealed, refused, key)
  {
    CacheStable(was.cache, history, more, was.origins);
    PublishedTracked(was, shelves, now, history + more, |history|, total, refused);
    forall key ensures KeyOutcome(was, shelves, |history|, history + more, total, now.sealed, refused, key) {
      assert PublishedAt(was.cache, was.origins, now.sealed, now.streams, refused, shelves.cache, shelves.origins, key);
      assert ProgressAt(start, now, was.cache.Keys, total, |history|, history + more, key);
      OutcomeOf(was, shelves, start, now, history + more, |history|, total, refused, key);
    }
  }

  lemma PublishedTracked(was: Shelves, shelves: Shelves, now: Work, history: seq<Delivery>, from: nat, total: nat,
                         refused: set<nat>)
    requires CacheTracked(was.cache, history, was.origins)
    requires SealsSound(was.pending, from, was.cache.Keys, total, history, now.sealed, now.streams)
    requires shelves.origins.Keys == shelves.cache.Keys
    requires forall key ::
      PublishedAt(was.cache, was.origins, now.sealed, now.streams, refused, shelves.cache, shelves.origins, key)
    ensures CacheTracked(shelves.cache, history, shelves.origins)
    ensures forall key :: key in shelves.origins && key !in was.origins ==>
      Derived(StreamOfKey(was.pending, key), shelves.origins[key], from)
  {
    forall key | key in shelves.cache
      ensures Sealed(shelves.cache[key], history, key, shelves.origins[key])
      ensures key !in was.origins ==> Derived(StreamOfKey(was.pending, key), shelves.origins[key], from)
    {
      assert PublishedAt(was.cache, was.origins, now.sealed, now.streams, refused, shelves.cache, shelves.origins, key);
    }
  }

  lemma StaysUniform(was: Shelves, shelves: Shelves, start: Work, now: Work, history: seq<Delivery>, from: nat,
                     total: nat, refused: set<nat>)
    requires start == Work(was.inflight, was.pending, [], []) && now.inflight == shelves.inflight
    requires BatchInv(start, now, from, history, was.cache.Keys, total)
    requires forall key ::
      PublishedAt(was.cache, was.origins, now.sealed, now.streams, refused, shelves.cache, shelves.origins, key)
    requires Uniform(was.inflight, was.cache, total)
    ensures Uniform(shelves.inflight, shelves.cache, total)
  {
    forall key | key in shelves.inflight ensures |shelves.inflight[key].slots| == total {
      assert ProgressAt(start, now, was.cache.Keys, total, from, history, key);
      assert ViewOf(now, key).count == Some(|shelves.inflight[key].slots|);
    }
    forall key | key in shelves.cache ensures |shelves.cache[key].slots| == total {
      assert PublishedAt(was.cache, was.origins, now.sealed, now.streams, refused, shelves.cache, shelves.origins, key);
    }
  }

  lemma OutcomeOf(was: Shelves, shelves: Shelves, start: Work, now: Work, history: seq<Delivery>, from: nat, total: nat,
                  refused: set<nat>, key: BlockKey)
    requires start == Work(was.inflight, was.pending, [], []) && |now.streams| == |now.sealed|
    requires now.pending == shelves.pending && shelves.origins.Keys == shelves.cache.Keys
    requires PublishedAt(was.cache, was.origins, now.sealed, now.streams, refused, shelves.cache, shelves.origins, key)
    requires ProgressAt(start, now, was.cache.Keys, total, from, history, key)
    ensures KeyOutcome(was, shelves, from, history, total, now.sealed, refused, key)
  {
    assert FirstSeal([], {}, key) == 0;
    assert FirstSeal(now.sealed, {}, key) !in refused ==>
      FirstSeal(now.sealed, refused, key) == FirstSeal(now.sealed, {}, key);
  }

  /** An empty batch leaves every key where it is. */
  lemma IdleOutcome(was: Shelves, history: seq<Delivery>, total: nat, refused: set<nat>, key: BlockKey)
    requires was.Tracked(history) && total > 0
    ensures KeyOutcome(was, was, |history|, history, total, [], refused, key)
  {
    assert OfferedTo(was.pending, history, |history|, key) == StreamOfKey(was.pending, key);
    if !Mismatched(was.inflight, key, total) {
      PendingIncomplete(was.inflight, history, was.pending, total, key);
    }
  }
}
