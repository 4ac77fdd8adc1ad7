/**
 Stored blocks (pegaflow-core/src/block.rs): raw host images, the inflight block
 that collects one image per slot, and the sealed block it turns into.
 */
module Blocks {
  import opened Prelude

  const U64_MODULUS: nat := 0x1_0000_0000_0000_0000

  /** `NumaNode::UNKNOWN`. */
  const UNKNOWN_NUMA: nat := 0xFFFF_FFFF

  /** A range of pinned host memory. */
  datatype Segment = Segment(ptr: nat, size: nat)

  function SizesSum(segments: seq<Segment>): nat {
    if segments == [] then 0 else segments[0].size + SizesSum(segments[1..])
  }

  /** Sizes add up segment by segment, however the segments are grouped. */
  lemma {:induction false} SizesAdd(a: seq<Segment>, c: seq<Segment>)
    ensures SizesSum(a + c) == SizesSum(a) + SizesSum(c)
    ensures |a| == 1 ==> SizesSum(a) == a[0].size
  {
    if a == [] {
      assert a + c == c;
    } else {
      assert (a + c)[1..] == a[1..] + c;
      SizesAdd(a[1..], c);
    }
  }

  datatype RawBlock = RawBlock(segments: seq<Segment>) {
    function Footprint(): nat { SizesSum(segments) }
  }

  datatype SealedBlock = SealedBlock(slots: seq<RawBlock>, footprint: nat, slotNumas: seq<nat>)

  datatype SlotInsert = SlotInsert(slot: nat, block: RawBlock, numa: nat)

  datatype SlotInsertResult = Inserted(completed: bool, footprintAdded: nat) | Duplicate

  /** The fields of an inflight block as a value. */
  datatype Inflight = Inflight(slots: seq<Option<RawBlock>>, remaining: nat, footprint: nat, slotNumas: seq<nat>)
  {
    predicate Valid() {
      && |slotNumas| == |slots|
      && remaining == Vacant(slots)
    }

    predicate Complete() { forall s :: 0 <= s < |slots| ==> slots[s].Some? }
  }

  function Vacant(slots: seq<Option<RawBlock>>): nat {
    if slots == [] then 0 else (if slots[0].None? then 1 else 0) + Vacant(slots[1..])
  }

  function FilledFootprint(slots: seq<Option<RawBlock>>): nat {
    if slots == [] then 0
    else (if slots[0].Some? then slots[0].value.Footprint() else 0) + FilledFootprint(slots[1..])
  }

  function EmptyInflight(total: nat): Inflight {
    Inflight(seq(total, _ => None), total, 0, seq(total, _ => UNKNOWN_NUMA))
  }

  /** Effect of one `insert_slot` on the fields; `footprint` is an unchecked `u64` sum. */
  function AfterInsert(b: Inflight, i: SlotInsert): Inflight
    requires b.Valid() && i.slot < |b.slots|
  {
    if b.slots[i.slot].Some? then b
    else
      VacantAt(b.slots, i.slot);
      Inflight(b.slots[i.slot := Some(i.block)], b.remaining - 1,
               (b.footprint + i.block.Footprint()) % U64_MODULUS, b.slotNumas[i.slot := i.numa])
  }

  function InsertOutcome(b: Inflight, i: SlotInsert): SlotInsertResult
    requires i.slot < |b.slots|
  {
    if b.slots[i.slot].Some? then Duplicate else Inserted(b.remaining == 1, i.block.Footprint())
  }

  function SealOf(b: Inflight): SealedBlock
    requires b.Complete()
  {
    SealedBlock(seq(|b.slots|, s requires 0 <= s < |b.slots| => b.slots[s].value), b.footprint, b.slotNumas)
  }

  class InflightBlock {
    var slots: seq<Option<RawBlock>>
    var remaining: nat
    var footprint: nat
    var slotNumas: seq<nat>
    const totalSlots: nat

    function Value(): Inflight reads this { Inflight(slots, remaining, footprint, slotNumas) }

    predicate Valid() reads this { Value().Valid() && |slots| == totalSlots }

    constructor (total: nat)
      ensures Valid() && totalSlots == total && Value() == EmptyInflight(total)
      ensures |slots| == total && remaining == total && footprint == 0
      ensures forall i :: 0 <= i < total ==> slots[i].None? && slotNumas[i] == 0xFFFF_FFFF
    {
      slots := seq(total, _ => None);
      remaining := total;
      footprint := 0;
      slotNumas := seq(total, _ => UNKNOWN_NUMA);
      totalSlots := total;
      new;
      EmptyVacant(total);
    }

    function FilledCount(): (n: nat)
      requires Valid()
      reads this
      ensures n == |FilledSlots(slots)|
    {
      FilledAndVacant(slots, |slots|);
      assert slots[..|slots|] == slots;
      totalSlots - remaining
    }

    method InsertSlot(slotId: nat, block: RawBlock, numa: nat) returns (r: SlotInsertResult)
      requires Valid() && slotId < totalSlots
      modifies this
      ensures Valid()
      ensures Value() == AfterInsert(old(Value()), SlotInsert(slotId, block, numa))
      ensures r == InsertOutcome(old(Value()), SlotInsert(slotId, block, numa))
      ensures r.Duplicate? <==> old(slots)[slotId].Some?
      ensures r.Duplicate? ==> Value() == old(Value())
      ensures r.Inserted? ==>
        && slots == old(slots)[slotId := Some(block)] && slotNumas == old(slotNumas)[slotId := numa]
        && footprint == (old(footprint) + block.Footprint()) % 0x1_0000_0000_0000_0000
        && remaining == old(remaining) - 1 && r.footprintAdded == block.Footprint()
      ensures r.Inserted? ==> (r.completed <==> Value().Complete())
    {
      if slots[slotId].Some? {
        return Duplicate;
      }
      VacantUpdate(slots, slotId, block);
      VacantAt(slots, slotId);
      var added := block.Footprint();
      footprint := (footprint + added) % U64_MODULUS;
      slots := slots[slotId := Some(block)];
      slotNumas := slotNumas[slotId := numa];
      remaining := remaining - 1;
      VacantZero(slots);
      return Inserted(remaining == 0, added);
    }

    method Seal() returns (s: SealedBlock)
      requires Valid() && Value().Complete()
      ensures s == SealOf(Value())
      ensures |s.slots| == |slots| && forall i :: 0 <= i < |slots| ==> slots[i] == Some(s.slots[i])
      ensures s.footprint == footprint && s.slotNumas == slotNumas
    {
      var images: seq<RawBlock> := [];
      for i := 0 to |slots|
        invariant |images| == i
        invariant forall k :: 0 <= k < i ==> images[k] == slots[k].value
      {
        images := images + [slots[i].value];
      }
      s := SealedBlock(images, footprint, slotNumas);
    }
  }

  // ---------------------------------------------------------------------------
  // Counting facts
  // ---------------------------------------------------------------------------

  lemma EmptyVacant(total: nat)
    ensures Vacant(seq(total, _ => None)) == total
  {
    var s: seq<Option<RawBlock>> := seq(total, _ => None);
    if total > 0 {
      EmptyVacant(total - 1);
      assert s[1..] == seq(total - 1, _ => None);
    }
  }

  lemma EmptyFootprint(total: nat)
    ensures FilledFootprint(seq(total, _ => None)) == 0
  {
    var s: seq<Option<RawBlock>> := seq(total, _ => None);
    if total > 0 {
      EmptyFootprint(total - 1);
      assert s[1..] == seq(total - 1, _ => None);
    }
  }

  function FilledSlots(slots: seq<Option<RawBlock>>): set<nat> {
    set i | 0 <= i < |slots| && slots[i].Some?
  }

  lemma {:induction false} VacantSnoc(slots: seq<Option<RawBlock>>, last: Option<RawBlock>)
    ensures Vacant(slots + [last]) == Vacant(slots) + (if last.None? then 1 else 0)
  {
    if slots == [] {
      assert slots + [last] == [last];
    } else {
      VacantSnoc(slots[1..], last);
      assert (slots + [last])[1..] == slots[1..] + [last];
    }
  }

  /** Every slot is filled or vacant. */
  lemma {:induction false} FilledAndVacant(slots: seq<Option<RawBlock>>, n: nat)
    requires n <= |slots|
    ensures |FilledSlots(slots[..n])| + Vacant(slots[..n]) == n
  {
    if n == 0 {
      assert FilledSlots(slots[..0]) == {};
    } else {
      var init, last := slots[..n - 1], slots[n - 1];
      FilledAndVacant(slots, n - 1);
      assert slots[..n] == init + [last];
      VacantSnoc(init, last);
      assert FilledSlots(slots[..n]) == FilledSlots(init) + (if last.Some? then {n - 1} else {});
    }
  }

  lemma VacantAt(slots: seq<Option<RawBlock>>, i: nat)
    requires i < |slots| && slots[i].None?
    ensures Vacant(slots) > 0
  {
    if i > 0 { VacantAt(slots[1..], i - 1); }
  }

  lemma VacantUpdate(slots: seq<Option<RawBlock>>, i: nat, block: RawBlock)
    requires i < |slots| && slots[i].None?
    ensures Vacant(slots[i := Some(block)]) == Vacant(slots) - 1
    ensures FilledFootprint(slots[i := Some(block)]) == FilledFootprint(slots) + block.Footprint()
  {
    var updated := slots[i := Some(block)];
    if i == 0 {
      assert updated[1..] == slots[1..];
    } else {
      VacantUpdate(slots[1..], i - 1, block);
      assert updated[1..] == slots[1..][i - 1 := Some(block)];
    }
  }

  lemma VacantZero(slots: seq<Option<RawBlock>>)
    ensures Vacant(slots) == 0 <==> forall s :: 0 <= s < |slots| ==> slots[s].Some?
  {
    if slots != [] {
      VacantZero(slots[1..]);
      assert forall s :: 1 <= s < |slots| ==> slots[s] == slots[1..][s - 1];
    }
  }

  // ---------------------------------------------------------------------------
  // Runs of inserts
  // ---------------------------------------------------------------------------

  predicate InRange(inserts: seq<SlotInsert>, total: nat) {
    forall i :: 0 <= i < |inserts| ==> inserts[i].slot < total
  }

  /** State after offering the inserts, in order. */
  function AfterOffers(b: Inflight, inserts: seq<SlotInsert>): (r: Inflight)
    requires b.Valid() && InRange(inserts, |b.slots|)
    ensures r.Valid() && |r.slots| == |b.slots|
  {
    if inserts == [] then b
    else
      var last := inserts[|inserts| - 1];
      var before := AfterOffers(b, inserts[..|inserts| - 1]);
      if before.slots[last.slot].None? then
        VacantUpdate(before.slots, last.slot, last.block);
        AfterInsert(before, last)
      else AfterInsert(before, last)
  }

  /** The same, starting from a fresh block. */
  function AfterAll(total: nat, inserts: seq<SlotInsert>): (b: Inflight)
    requires InRange(inserts, total)
    ensures b.Valid() && |b.slots| == total
  {
    EmptyVacant(total);
    AfterOffers(EmptyInflight(total), inserts)
  }

  lemma AfterOffersSnoc(b: Inflight, xs: seq<SlotInsert>, x: SlotInsert)
    requires b.Valid() && InRange(xs, |b.slots|) && x.slot < |b.slots|
    ensures InRange(xs + [x], |b.slots|)
    ensures AfterOffers(b, xs + [x]) == AfterInsert(AfterOffers(b, xs), x)
  {
    assert (xs + [x])[..|xs|] == xs;
  }

  lemma {:induction false} AfterOffersConcat(b: Inflight, xs: seq<SlotInsert>, ys: seq<SlotInsert>)
    requires b.Valid() && InRange(xs, |b.slots|) && InRange(ys, |b.slots|)
    ensures InRange(xs + ys, |b.slots|)
    ensures AfterOffers(b, xs + ys) == AfterOffers(AfterOffers(b, xs), ys)
  {
    if ys == [] {
      assert xs + ys == xs;
    } else {
      var n := |ys| - 1;
      AfterOffersConcat(b, xs, ys[..n]);
      AfterOffersSnoc(b, xs + ys[..n], ys[n]);
      assert xs + ys == xs + ys[..n] + [ys[n]];
    }
  }

  /** A complete block ignores further offers. */
  lemma {:induction false} CompleteStable(b: Inflight, xs: seq<SlotInsert>)
    requires b.Valid() && b.Complete() && InRange(xs, |b.slots|)
    ensures AfterOffers(b, xs) == b
  {
    if xs != [] { CompleteStable(b, xs[..|xs| - 1]); }
  }

  /** What the i-th insert of the run reports. */
  function OutcomeAt(total: nat, inserts: seq<SlotInsert>, i: nat): SlotInsertResult
    requires InRange(inserts, total) && i < |inserts|
  {
    InsertOutcome(AfterAll(total, inserts[..i]), inserts[i])
  }

  predicate Offered(inserts: seq<SlotInsert>, slot: nat) {
    exists i :: 0 <= i < |inserts| && inserts[i].slot == slot
  }

  /** Position of the first offer for a slot. */
  function FirstOffer(inserts: seq<SlotInsert>, slot: nat): (i: nat)
    requires Offered(inserts, slot)
    ensures i < |inserts| && inserts[i].slot == slot
    ensures forall j :: 0 <= j < i ==> inserts[j].slot != slot
  {
    if inserts[0].slot == slot then 0
    else
      assert Offered(inserts[1..], slot) by {
        var k :| 0 <= k < |inserts| && inserts[k].slot == slot;
        assert inserts[1..][k - 1].slot == slot;
      }
      1 + FirstOffer(inserts[1..], slot)
  }

  /** First offers are stable when more inserts follow. */
  lemma FirstOfferPrefix(inserts: seq<SlotInsert>, more: seq<SlotInsert>, slot: nat)
    requires Offered(inserts, slot)
    ensures Offered(inserts + more, slot) && FirstOffer(inserts + more, slot) == FirstOffer(inserts, slot)
  {
    var f := FirstOffer(inserts, slot);
    assert (inserts + more)[f].slot == slot;
    assert forall j :: 0 <= j <= f ==> (inserts + more)[j] == inserts[j];
  }

  /** A slot holds exactly the first block offered for it, whatever came later. */
  lemma {:induction false} SlotsAreFirstOffers(total: nat, inserts: seq<SlotInsert>, slot: nat)
    requires InRange(inserts, total) && slot < total
    ensures var b := AfterAll(total, inserts);
            if Offered(inserts, slot)
            then b.slots[slot] == Some(inserts[FirstOffer(inserts, slot)].block)
                 && b.slotNumas[slot] == inserts[FirstOffer(inserts, slot)].numa
            else b.slots[slot] == None && b.slotNumas[slot] == UNKNOWN_NUMA
  {
    if inserts != [] {
      var init, last := inserts[..|inserts| - 1], inserts[|inserts| - 1];
      assert inserts == init + [last];
      SlotsAreFirstOffers(total, init, slot);
      SlotsAreFirstOffers(total, init, last.slot);
      if Offered(init, slot) {
        FirstOfferPrefix(init, [last], slot);
      } else if last.slot == slot {
        assert inserts[|init|].slot == slot;
        assert forall j :: 0 <= j < |init| ==> inserts[j] == init[j];
        assert FirstOffer(inserts, slot) == |init|;
      } else {
        assert !Offered(inserts, slot) by {
          assert forall j :: 0 <= j < |init| ==> inserts[j] == init[j];
        }
      }
    }
  }

  /** The footprint is the sum over the filled slots, reduced to `u64`. */
  lemma {:induction false} FootprintIsFilledSum(total: nat, inserts: seq<SlotInsert>)
    requires InRange(inserts, total)
    ensures AfterAll(total, inserts).footprint == FilledFootprint(AfterAll(total, inserts).slots) % U64_MODULUS
  {
    if inserts == [] {
      EmptyFootprint(total);
    } else {
      var init, last := inserts[..|inserts| - 1], inserts[|inserts| - 1];
      FootprintIsFilledSum(total, init);
      var before := AfterAll(total, init);
      if before.slots[last.slot].None? {
        VacantUpdate(before.slots, last.slot, last.block);
        WrappedSum(FilledFootprint(before.slots), last.block.Footprint());
      }
    }
  }

  lemma WrappedSum(a: nat, b: nat)
    ensures (a % U64_MODULUS + b) % U64_MODULUS == (a + b) % U64_MODULUS
  {
  }

  /** Every slot number below `total` has been offered. */
  predicate AllOffered(inserts: seq<SlotInsert>, total: nat) {
    forall s: nat :: s < total ==> Offered(inserts, s)
  }

  lemma CompleteMeansAllOffered(total: nat, inserts: seq<SlotInsert>)
    requires InRange(inserts, total)
    ensures AfterAll(total, inserts).Complete() <==> AllOffered(inserts, total)
    ensures AfterAll(total, inserts).remaining == 0 <==> AllOffered(inserts, total)
  {
    var b := AfterAll(total, inserts);
    forall s: nat | s < total
      ensures b.slots[s].Some? <==> Offered(inserts, s)
    {
      SlotsAreFirstOffers(total, inserts, s);
    }
    VacantZero(b.slots);
  }

  /**
   An insert reports a duplicate exactly when its slot was offered before, and
   reports completion exactly when it is the one that fills the last slot.
   */
  lemma OutcomeExact(total: nat, inserts: seq<SlotInsert>, i: nat)
    requires InRange(inserts, total) && i < |inserts|
    ensures OutcomeAt(total, inserts, i).Duplicate? <==> Offered(inserts[..i], inserts[i].slot)
    ensures OutcomeAt(total, inserts, i).Inserted? && OutcomeAt(total, inserts, i).completed
       <==> !AllOffered(inserts[..i], total) && AllOffered(inserts[..i + 1], total)
  {
    var before, upTo := inserts[..i], inserts[..i + 1];
    var slot := inserts[i].slot;
    SlotsAreFirstOffers(total, before, slot);
    CompleteMeansAllOffered(total, before);
    CompleteMeansAllOffered(total, upTo);
    assert upTo[..i] == before && upTo[i] == inserts[i];
    if Offered(before, slot) {
      assert AfterAll(total, upTo) == AfterAll(total, before);
    }
  }

  predicate CompletesAt(total: nat, inserts: seq<SlotInsert>, i: nat)
    requires InRange(inserts, total) && i < |inserts|
  {
    OutcomeAt(total, inserts, i).Inserted? && OutcomeAt(total, inserts, i).completed
  }

  /** After the completing insert, everything else is a duplicate: completion is reported at most once. */
  lemma CompletedAtMostOnce(total: nat, inserts: seq<SlotInsert>, i: nat, j: nat)
    requires InRange(inserts, total) && i < j < |inserts| && CompletesAt(total, inserts, i)
    ensures OutcomeAt(total, inserts, j).Duplicate?
  {
    OutcomeExact(total, inserts, i);
    OutcomeExact(total, inserts, j);
    OfferedGrows(inserts, i + 1, j, total);
  }

  /** Completion is reported exactly in the runs that offer every slot. */
  lemma CompletedExactly(total: nat, inserts: seq<SlotInsert>)
    requires InRange(inserts, total) && total > 0
    ensures AllOffered(inserts, total) <==> exists i :: 0 <= i < |inserts| && CompletesAt(total, inserts, i)
  {
    if AllOffered(inserts, total) {
      var i := CompletingInsert(total, inserts);
      OutcomeExact(total, inserts, i);
      assert CompletesAt(total, inserts, i);
    }
    if i :| 0 <= i < |inserts| && CompletesAt(total, inserts, i) {
      OutcomeExact(total, inserts, i);
      OfferedGrows(inserts, i + 1, |inserts|, total);
      assert inserts[..|inserts|] == inserts;
    }
  }

  lemma OfferedGrows(inserts: seq<SlotInsert>, i: nat, j: nat, total: nat)
    requires i <= j <= |inserts| && AllOffered(inserts[..i], total)
    ensures AllOffered(inserts[..j], total)
  {
    forall s: nat | s < total
      ensures Offered(inserts[..j], s)
    {
      assert Offered(inserts[..i], s);
      var k :| 0 <= k < |inserts[..i]| && inserts[..i][k].slot == s;
      assert inserts[..j][k].slot == s;
    }
  }

  /** The shortest prefix that offers every slot ends with the completing insert. */
  lemma CompletingInsert(total: nat, inserts: seq<SlotInsert>) returns (i: nat)
    requires AllOffered(inserts, total) && total > 0
    ensures i < |inserts| && !AllOffered(inserts[..i], total) && AllOffered(inserts[..i + 1], total)
  {
    i := 0;
    assert !AllOffered(inserts[..0], total) by { assert !Offered(inserts[..0], 0); }
    assert inserts[..|inserts|] == inserts;
    while !AllOffered(inserts[..i + 1], total)
      invariant i < |inserts| && !AllOffered(inserts[..i], total)
      decreases |inserts| - i
    {
      i := i + 1;
    }
  }

  /** Two runs that make the same first offers seal to the same images. */
  lemma SealedByFirstOffers(total: nat, xs: seq<SlotInsert>, ys: seq<SlotInsert>)
    requires InRange(xs, total) && InRange(ys, total) && AllOffered(xs, total) && AllOffered(ys, total)
    requires forall s: nat :: s < total ==> xs[FirstOffer(xs, s)] == ys[FirstOffer(ys, s)]
    ensures AfterAll(total, xs).Complete() && AfterAll(total, ys).Complete()
    ensures SealOf(AfterAll(total, xs)) == SealOf(AfterAll(total, ys))
  {
    var a, b := AfterAll(total, xs), AfterAll(total, ys);
    CompleteMeansAllOffered(total, xs);
    CompleteMeansAllOffered(total, ys);
    forall s: nat | s < total
      ensures a.slots[s] == b.slots[s] && a.slotNumas[s] == b.slotNumas[s]
    {
      SlotsAreFirstOffers(total, xs, s);
      SlotsAreFirstOffers(total, ys, s);
    }
    assert a.slots == b.slots && a.slotNumas == b.slotNumas;
    FootprintIsFilledSum(total, xs);
    FootprintIsFilledSum(total, ys);
  }

  // ---------------------------------------------------------------------------
  // The ordered fast path
  // ---------------------------------------------------------------------------

  predicate InSlotOrder(slots: seq<(nat, RawBlock)>, total: nat) {
    |slots| == total && forall i :: 0 <= i < |slots| ==> slots[i].0 == i
  }

  function FootprintSum(slots: seq<(nat, RawBlock)>): nat {
    if slots == [] then 0 else FootprintSum(slots[..|slots| - 1]) + slots[|slots| - 1].1.Footprint()
  }

  function Saturated(n: nat): nat { if n <= U64_MAX then n else U64_MAX }

  function OrderedSeal(slots: seq<(nat, RawBlock)>, numa: nat): SealedBlock {
    SealedBlock(seq(|slots|, i requires 0 <= i < |slots| => slots[i].1), Saturated(FootprintSum(slots)),
                seq(|slots|, _ => numa))
  }

  /** Seal a full batch in one pass; refused batches are handed back untouched. */
  method FromOrderedSlotInserts(slots: seq<(nat, RawBlock)>, total: nat, numa: nat)
    returns (r: Result<SealedBlock, seq<(nat, RawBlock)>>)
    ensures r.Ok? <==> InSlotOrder(slots, total)
    ensures r.Ok? ==> r.value == OrderedSeal(slots, numa)
    ensures r.Err? ==> r.error == slots
  {
    if |slots| != total {
      return Err(slots);
    }
    for i := 0 to |slots|
      invariant forall k :: 0 <= k < i ==> slots[k].0 == k
    {
      if slots[i].0 != i {
        return Err(slots);
      }
    }
    var footprint := 0;
    var blocks: seq<RawBlock> := [];
    for i := 0 to |slots|
      invariant |blocks| == i && forall k :: 0 <= k < i ==> blocks[k] == slots[k].1
      invariant footprint == Saturated(FootprintSum(slots[..i]))
    {
      assert slots[..i + 1][..i] == slots[..i];
      footprint := Saturated(footprint + slots[i].1.Footprint());
      blocks := blocks + [slots[i].1];
    }
    assert slots[..|slots|] == slots;
    r := Ok(SealedBlock(blocks, footprint, seq(total, _ => numa)));
  }

  /** The same batch offered slot by slot. */
  function AsInserts(slots: seq<(nat, RawBlock)>, numa: nat): (r: seq<SlotInsert>)
    ensures |r| == |slots| && forall i :: 0 <= i < |r| ==> r[i] == SlotInsert(slots[i].0, slots[i].1, numa)
  {
    seq(|slots|, i requires 0 <= i < |slots| => SlotInsert(slots[i].0, slots[i].1, numa))
  }

  lemma OrderedFirstOffer(slots: seq<(nat, RawBlock)>, total: nat, numa: nat, s: nat)
    requires InSlotOrder(slots, total) && s < total
    ensures Offered(AsInserts(slots, numa), s) && FirstOffer(AsInserts(slots, numa), s) == s
  {
    assert AsInserts(slots, numa)[s].slot == s;
  }

  lemma {:induction false} FilledFootprintExtend(slots: seq<Option<RawBlock>>, block: RawBlock)
    ensures FilledFootprint(slots + [Some(block)]) == FilledFootprint(slots) + block.Footprint()
  {
    if slots == [] {
      assert slots + [Some(block)] == [Some(block)];
    } else {
      FilledFootprintExtend(slots[1..], block);
      assert (slots + [Some(block)])[1..] == slots[1..] + [Some(block)];
    }
  }

  lemma {:induction false} OrderedSumIsFilledSum(slots: seq<(nat, RawBlock)>, filled: seq<Option<RawBlock>>)
    requires |filled| == |slots| && forall i :: 0 <= i < |slots| ==> filled[i] == Some(slots[i].1)
    ensures FilledFootprint(filled) == FootprintSum(slots)
  {
    if slots != [] {
      var n := |slots| - 1;
      OrderedSumIsFilledSum(slots[..n], filled[..n]);
      FilledFootprintExtend(filled[..n], slots[n].1);
      assert filled == filled[..n] + [Some(slots[n].1)];
    }
  }

  lemma WrapMeetsSaturation(n: nat)
    ensures n % U64_MODULUS == Saturated(n) <==> n <= U64_MAX || n % U64_MODULUS == U64_MAX
  {
  }

  /**
   The fast path and the slot-by-slot path seal the same images with the same
   affinities. Their footprints agree exactly when the true sum fits `u64`, or
   wraps onto the saturation value itself.
   */
  lemma OrderedSealRefines(slots: seq<(nat, RawBlock)>, total: nat, numa: nat)
    requires InSlotOrder(slots, total)
    ensures InRange(AsInserts(slots, numa), total) && AfterAll(total, AsInserts(slots, numa)).Complete()
    ensures var slow, fast := SealOf(AfterAll(total, AsInserts(slots, numa))), OrderedSeal(slots, numa);
            && slow.slots == fast.slots && slow.slotNumas == fast.slotNumas
            && (slow == fast <==> FootprintSum(slots) <= U64_MAX || FootprintSum(slots) % U64_MODULUS == U64_MAX)
  {
    WrapMeetsSaturation(FootprintSum(slots));
    var inserts := AsInserts(slots, numa);
    forall s: nat | s < total
      ensures Offered(inserts, s) && FirstOffer(inserts, s) == s
    {
      OrderedFirstOffer(slots, total, numa, s);
    }
    CompleteMeansAllOffered(total, inserts);
    var b := AfterAll(total, inserts);
    forall s: nat | s < total
      ensures b.slots[s] == Some(slots[s].1) && b.slotNumas[s] == numa
    {
      SlotsAreFirstOffers(total, inserts, s);
    }
    FootprintIsFilledSum(total, inserts);
    OrderedSumIsFilledSum(slots, b.slots);
    assert SealOf(b).slots == OrderedSeal(slots, numa).slots;
    assert SealOf(b).slotNumas == OrderedSeal(slots, numa).slotNumas;
  }
}
