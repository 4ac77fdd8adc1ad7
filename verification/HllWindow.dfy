/**
 The sliding-window tracker (pegaflow-common/src/hll.rs, `HllTracker`): a ring of
 time slots and a lazily rebuilt merge, against recomputing from every request.
 */
module HllWindow {
  import opened Prelude
  import opened Hll

  type Time = nat

  datatype Slot = Slot(registers: seq<nat>, start: Time, count: nat)

  /** A request with its bucket and rank, the number of the slot it was recorded in, and when. */
  datatype Request = Request(hash: Digest, bucket: nat, rank: nat, slot: nat, at: Time)

  /** Buckets and ranks are those of the hashes. */
  ghost predicate Faithful(log: seq<Request>, b: nat)
    requires b <= 32
  {
    forall i {:trigger Index(log[i].hash, b)} {:trigger Rank(log[i].hash, b)} :: 0 <= i < |log| ==>
      log[i].bucket == Index(log[i].hash, b) && log[i].rank == Rank(log[i].hash, b)
  }

  datatype Metric = Metric(registers: Option<seq<nat>>, total: nat, slotCount: nat)

  function Max(a: nat, b: nat): nat { if a >= b then a else b }

  // ---------------------------------------------------------------------------
  // Reference: registers and counts computed from the requests
  // ---------------------------------------------------------------------------

  /** What a request contributes to register `j` of slots `lo` up to `hi`. */
  function RankIn(r: Request, lo: nat, hi: nat, j: nat): nat {
    if lo <= r.slot < hi && r.bucket == j then r.rank else 0
  }

  function MaxRank(log: seq<Request>, lo: nat, hi: nat, j: nat): nat {
    if log == [] then 0 else Max(MaxRank(log[..|log| - 1], lo, hi, j), RankIn(log[|log| - 1], lo, hi, j))
  }

  function CountIn(log: seq<Request>, lo: nat, hi: nat): nat {
    if log == [] then 0 else CountIn(log[..|log| - 1], lo, hi) + (if lo <= log[|log| - 1].slot < hi then 1 else 0)
  }

  /** A slot counts while its start is younger than the window. */
  predicate LiveSlot(starts: seq<Time>, i: nat, now: Time, window: nat) {
    i < |starts| && now < starts[i] + window
  }

  ghost function LiveSlots(starts: seq<Time>, now: Time, window: nat): set<nat> {
    set i: nat | i < |starts| && LiveSlot(starts, i, now, window)
  }

  /** The largest rank among the live requests of a bucket. */
  function LiveRank(log: seq<Request>, starts: seq<Time>, now: Time, window: nat, j: nat): nat {
    if log == [] then 0
    else
      var last := log[|log| - 1];
      Max(LiveRank(log[..|log| - 1], starts, now, window, j),
          if LiveSlot(starts, last.slot, now, window) && last.bucket == j then last.rank else 0)
  }

  function LiveCount(log: seq<Request>, starts: seq<Time>, now: Time, window: nat): nat {
    if log == [] then 0
    else
      var n := |log| - 1;
      LiveCount(log[..n], starts, now, window) + (if LiveSlot(starts, log[n].slot, now, window) then 1 else 0)
  }

  lemma {:induction false} MaxRankSplit(log: seq<Request>, lo: nat, mid: nat, hi: nat, j: nat)
    requires lo <= mid <= hi
    ensures MaxRank(log, lo, hi, j) == Max(MaxRank(log, lo, mid, j), MaxRank(log, mid, hi, j))
  {
    if log != [] { MaxRankSplit(log[..|log| - 1], lo, mid, hi, j); }
  }

  lemma {:induction false} CountSplit(log: seq<Request>, lo: nat, mid: nat, hi: nat)
    requires lo <= mid <= hi
    ensures CountIn(log, lo, hi) == CountIn(log, lo, mid) + CountIn(log, mid, hi)
  {
    if log != [] { CountSplit(log[..|log| - 1], lo, mid, hi); }
  }

  lemma {:induction false} NothingIn(log: seq<Request>, lo: nat, hi: nat, j: nat)
    requires forall i :: 0 <= i < |log| ==> !(lo <= log[i].slot < hi)
    ensures MaxRank(log, lo, hi, j) == 0 && CountIn(log, lo, hi) == 0
  {
    if log != [] { NothingIn(log[..|log| - 1], lo, hi, j); }
  }

  /** With slots `lo` and up live and the others not, both references agree. */
  lemma {:induction false} LiveIsRange(log: seq<Request>, starts: seq<Time>, now: Time, window: nat, lo: nat, j: nat)
    requires lo <= |starts| && forall i: nat :: LiveSlot(starts, i, now, window) <==> lo <= i < |starts|
    ensures LiveRank(log, starts, now, window, j) == MaxRank(log, lo, |starts|, j)
    ensures LiveCount(log, starts, now, window) == CountIn(log, lo, |starts|)
  {
    if log != [] { LiveIsRange(log[..|log| - 1], starts, now, window, lo, j); }
  }

  /** The live requests, one by one. */
  ghost function LiveRequests(log: seq<Request>, starts: seq<Time>, now: Time, window: nat): set<nat> {
    set i: nat | i < |log| && LiveSlot(starts, log[i].slot, now, window)
  }

  lemma {:induction false} LiveCountIsSize(log: seq<Request>, starts: seq<Time>, now: Time, window: nat)
    ensures LiveCount(log, starts, now, window) == |LiveRequests(log, starts, now, window)|
  {
    if log != [] {
      var n := |log| - 1;
      LiveCountIsSize(log[..n], starts, now, window);
      var before := LiveRequests(log[..n], starts, now, window);
      assert LiveRequests(log, starts, now, window)
          == if LiveSlot(starts, log[n].slot, now, window) then before + {n} else before;
    }
  }

  lemma {:induction false} LiveRankBounds(log: seq<Request>, starts: seq<Time>, now: Time, window: nat, j: nat)
    ensures forall i :: 0 <= i < |log| && LiveSlot(starts, log[i].slot, now, window) && log[i].bucket == j ==>
      log[i].rank <= LiveRank(log, starts, now, window, j)
    ensures LiveRank(log, starts, now, window, j) == 0
      || exists i :: 0 <= i < |log| && LiveSlot(starts, log[i].slot, now, window) && log[i].bucket == j
                  && log[i].rank == LiveRank(log, starts, now, window, j)
  {
    if log != [] {
      LiveRankBounds(log[..|log| - 1], starts, now, window, j);
    }
  }

  ghost function Span(lo: nat, hi: nat): (r: set<nat>)
    requires lo <= hi
    ensures |r| == hi - lo && forall i :: i in r <==> lo <= i < hi
  {
    if lo == hi then {} else Span(lo, hi - 1) + {hi - 1}
  }

  // ---------------------------------------------------------------------------
  // HyperLogLog operations
  // ---------------------------------------------------------------------------

  function Zeros(b: nat): seq<nat> { seq(Pow2(b), _ => 0) }

  /** One register raised to a rank. */
  ghost predicate Raised(registers: seq<nat>, out: seq<nat>, index: nat, rank: nat) {
    |out| == |registers| && forall j :: 0 <= j < |out| ==>
      out[j] == if j == index then Max(registers[j], rank) else registers[j]
  }

  /** `insert`: raise one register; None when the rank of a long hash overflows `u8`. */
  method InsertHash(registers: seq<nat>, h: Digest, b: nat) returns (out: Option<seq<nat>>)
    requires BucketBits(b) && |registers| == Pow2(b)
    ensures Index(h, b) < Pow2(b)
    ensures out.Some? <==> Rank(h, b) <= U8_MAX
    ensures out.Some? ==> Raised(registers, out.value, Index(h, b), Rank(h, b))
  {
    var index := BucketIndex(h, b);
    var rank := RankOf(h, b);
    if rank.None? {
      return None;
    }
    if rank.value > registers[index] {
      return Some(registers[index := rank.value]);
    }
    return Some(registers);
  }

  /** `merge`: element-wise maximum. */
  method MergeInto(a: seq<nat>, c: seq<nat>) returns (out: seq<nat>)
    requires |a| == |c|
    ensures |out| == |a| && forall j :: 0 <= j < |a| ==> out[j] == Max(a[j], c[j])
  {
    out := a;
    for i := 0 to |a|
      invariant |out| == |a|
      invariant forall j :: 0 <= j < |a| ==> out[j] == if j < i then Max(a[j], c[j]) else a[j]
    {
      if c[i] > out[i] {
        out := out[i := c[i]];
      }
    }
  }

  // ---------------------------------------------------------------------------
  // Slot boundaries
  // ---------------------------------------------------------------------------

  /** The number of whole slots since `last`, cast to `u32`. */
  function Periods(last: Time, now: Time, duration: nat): nat
    requires duration > 0 && last <= now
  {
    (now - last) / duration % U32_RANGE
  }

  function AlignedStart(last: Time, now: Time, duration: nat): nat
    requires duration > 0 && last <= now
  {
    last + duration * Periods(last, now, duration)
  }

  /**
   The new slot starts a whole number of slots after the last one, so that slot boundaries never
   drift, and contains the current time exactly when the gap is under 2^32 slots. In general it is
   a multiple of 2^32 slots behind. No other start is like that.
   */
  lemma AlignedExactly(last: Time, now: Time, duration: nat)
    requires duration > 0 && last <= now
    ensures var start := AlignedStart(last, now, duration);
            && last <= start <= now && (start - last) % duration == 0
            && start < last + duration * 0x1_0000_0000 && (now - start) / duration % 0x1_0000_0000 == 0
            && (now < start + duration <==> (now - last) / duration < 0x1_0000_0000)
  {
    var q, r := (now - last) / duration, (now - last) % duration;
    assert now - last == duration * q + r;
    var p := Periods(last, now, duration);
    var start := AlignedStart(last, now, duration);
    TruncatedBelow(q);
    MulMonotone(p, q, duration);
    MulMonotone(p + 1, U32_RANGE, duration);
    WholeSlots(p, duration);
    assert duration * q - duration * p == duration * (q - p);
    SplitDivMod(now - start, q - p, duration, r);
    if q >= U32_RANGE {
      MulMonotone(p + 1, q, duration);
    }
  }

  lemma WholeSlots(p: nat, duration: nat)
    requires duration > 0
    ensures (duration * p) % duration == 0
  {
    SplitDivMod(duration * p, p, duration, 0);
  }

  lemma TruncatedBelow(q: nat)
    ensures q % U32_RANGE <= q && (q < U32_RANGE ==> q % U32_RANGE == q) && (q >= U32_RANGE ==> q % U32_RANGE + 1 <= q)
    ensures (q - q % U32_RANGE) % U32_RANGE == 0
  {
  }

  // ---------------------------------------------------------------------------
  // The tracker's invariant, on values
  // ---------------------------------------------------------------------------

  ghost predicate SlotRight(s: Slot, log: seq<Request>, id: nat, b: nat)
    requires b <= 32
  {
    && |s.registers| == Pow2(b) && s.count == CountIn(log, id, id + 1)
    && forall j :: 0 <= j < |s.registers| ==> s.registers[j] == MaxRank(log, id, id + 1, j)
  }

  /** The retained slots are the last ones ever opened, each with its own requests. */
  ghost predicate SlotsRight(slots: seq<Slot>, log: seq<Request>, starts: seq<Time>, base: nat, b: nat)
    requires b <= 32
  {
    && base + |slots| == |starts|
    && forall i :: 0 <= i < |slots| ==> slots[i].start == starts[base + i] && SlotRight(slots[i], log, base + i, b)
  }

  ghost predicate MergedRight(merged: seq<nat>, log: seq<Request>, lo: nat, hi: nat, b: nat)
    requires b <= 32
  {
    |merged| == Pow2(b) && forall j :: 0 <= j < |merged| ==> merged[j] == MaxRank(log, lo, hi, j)
  }

  ghost predicate StartsRight(starts: seq<Time>, base: nat, clock: Time, window: nat) {
    && base <= |starts|
    && Rising(starts)
    && (starts != [] ==> starts[|starts| - 1] <= clock)
    && (base > 0 ==> starts[base - 1] + window <= clock)
  }

  ghost predicate Rising(starts: seq<Time>) {
    |starts| < 2 || (starts[|starts| - 2] <= starts[|starts| - 1] && Rising(starts[..|starts| - 1]))
  }

  lemma {:induction false} RisingPair(starts: seq<Time>, i: nat, j: nat)
    requires Rising(starts) && i <= j < |starts|
    ensures starts[i] <= starts[j]
  {
    if j < |starts| - 1 {
      RisingPair(starts[..|starts| - 1], i, j);
    } else if i < j {
      RisingPair(starts[..|starts| - 1], i, j - 1);
    }
  }

  /** Slot `i` starts a whole number of slots after the one before. */
  ghost predicate Follows(starts: seq<Time>, i: nat, duration: nat)
    requires duration > 0 && i < |starts|
  {
    i > 0 && (starts[i] as int - starts[i - 1]) % duration == 0
  }

  /** Every slot follows the one before, except those opened on an empty ring. */
  ghost predicate OnGrid(starts: seq<Time>, roots: set<nat>, duration: nat)
    requires duration > 0
  {
    forall i: nat {:trigger Follows(starts, i, duration)} :: i < |starts| ==> i in roots || Follows(starts, i, duration)
  }

  lemma OpenKeepsGrid(starts: seq<Time>, roots: set<nat>, duration: nat, empty: bool, start: Time)
    requires duration > 0 && OnGrid(starts, roots, duration)
    requires !empty ==> starts != [] && (start as int - starts[|starts| - 1]) % duration == 0
    ensures OnGrid(starts + [start], if empty then roots + {|starts|} else roots, duration)
  {
    forall i: nat | i < |starts| && i !in roots ensures Follows(starts + [start], i, duration) {
      assert Follows(starts, i, duration);
    }
  }

  lemma ModAdd(a: nat, c: nat, m: nat)
    requires m > 0 && a % m == 0
    ensures (a + c) % m == c % m
  {
    var k, q, r := a / m, c / m, c % m;
    assert a == m * k && c == m * q + r;
    assert a + c == (k + q) * m + r;
    SplitDivMod(a + c, k + q, m, r);
  }

  /** Every slot is on the grid of the last slot before it that was opened on an empty ring. */
  lemma {:induction false} GridOfRoot(starts: seq<Time>, roots: set<nat>, duration: nat, root: nat, i: nat)
    requires duration > 0 && OnGrid(starts, roots, duration) && Rising(starts)
    requires root <= i < |starts| && forall k :: root < k <= i ==> k !in roots
    ensures starts[root] <= starts[i] && (starts[i] - starts[root]) % duration == 0
  {
    if root < i {
      GridOfRoot(starts, roots, duration, root, i - 1);
      assert Follows(starts, i, duration);
      RisingPair(starts, i - 1, i);
      ModAdd(starts[i - 1] - starts[root], starts[i] - starts[i - 1], duration);
    }
  }

  /** Whether slot `i` is on the grid of the very first slot. */
  ghost predicate OnFirstGrid(starts: seq<Time>, i: nat, duration: nat)
    requires duration > 0 && i < |starts|
  {
    (starts[i] as int - starts[0]) % duration == 0
  }

  /** All slots share the grid of the very first one exactly when those opened on an empty ring do. */
  lemma {:induction false} GridOfFirst(starts: seq<Time>, roots: set<nat>, duration: nat, n: nat)
    requires duration > 0 && OnGrid(starts, roots, duration) && Rising(starts) && n <= |starts|
    ensures (forall i: nat :: i < n ==> OnFirstGrid(starts, i, duration))
       <==> (forall i: nat :: i < n && i in roots ==> OnFirstGrid(starts, i, duration))
  {
    if n > 0 {
      GridOfFirst(starts, roots, duration, n - 1);
      if n > 1 && n - 1 !in roots {
        assert Follows(starts, n - 1, duration);
        RisingPair(starts, n - 2, n - 1);
        RisingPair(starts, 0, n - 2);
        ModAdd(starts[n - 1] - starts[n - 2], starts[n - 2] - starts[0], duration);
        assert OnFirstGrid(starts, n - 1, duration) <==> OnFirstGrid(starts, n - 2, duration);
      } else if n == 1 {
        assert OnFirstGrid(starts, 0, duration);
      }
    }
  }

  predicate LogInRange(log: seq<Request>, slots: nat) { forall i :: 0 <= i < |log| ==> log[i].slot < slots }

  /**
   Requests are recorded in slots that started before them; while boundaries are exact, in the
   slot that contains them.
   */
  ghost predicate TimesRight(log: seq<Request>, starts: seq<Time>, duration: nat, exact: bool) {
    forall i :: 0 <= i < |log| ==>
      && log[i].slot < |starts| && starts[log[i].slot] <= log[i].at
      && (exact ==> log[i].at < starts[log[i].slot] + duration)
  }

  /** Slots before the back one: the part that `merged` covers. */
  function Finalized(base: nat, slots: nat): nat { if slots == 0 then base else base + slots - 1 }

  /** Appending a request to the back slot leaves the other slots alone. */
  lemma AppendOther(log: seq<Request>, r: Request, lo: nat, hi: nat, j: nat)
    requires !(lo <= r.slot < hi)
    ensures MaxRank(log + [r], lo, hi, j) == MaxRank(log, lo, hi, j)
    ensures CountIn(log + [r], lo, hi) == CountIn(log, lo, hi)
  {
    assert (log + [r])[..|log|] == log;
  }

  lemma AppendOwn(log: seq<Request>, r: Request, lo: nat, hi: nat, j: nat)
    requires lo <= r.slot < hi
    ensures MaxRank(log + [r], lo, hi, j) == Max(MaxRank(log, lo, hi, j), if r.bucket == j then r.rank else 0)
    ensures CountIn(log + [r], lo, hi) == CountIn(log, lo, hi) + 1
  {
    assert (log + [r])[..|log|] == log;
  }

  lemma MergedUnaffected(merged: seq<nat>, log: seq<Request>, r: Request, lo: nat, hi: nat, b: nat)
    requires b <= 32 && r.slot >= hi && MergedRight(merged, log, lo, hi, b)
    ensures MergedRight(merged, log + [r], lo, hi, b)
  {
    forall j | 0 <= j < |merged| ensures merged[j] == MaxRank(log + [r], lo, hi, j) {
      AppendOther(log, r, lo, hi, j);
    }
  }

  lemma RecordKeepsSlots(slots: seq<Slot>, log: seq<Request>, starts: seq<Time>, base: nat, b: nat, r: Request,
                         back: Slot)
    requires b <= 32 && SlotsRight(slots, log, starts, base, b) && slots != [] && r.slot == |starts| - 1
    requires back.start == slots[|slots| - 1].start && SlotRight(back, log + [r], |starts| - 1, b)
    ensures SlotsRight(slots[|slots| - 1 := back], log + [r], starts, base, b)
  {
    var n := |slots| - 1;
    var updated := slots[n := back];
    forall i | 0 <= i < |slots| ensures SlotRight(updated[i], log + [r], base + i, b) {
      assert SlotRight(slots[i], log, base + i, b);
      if i < n {
        OtherSlotRight(slots[i], log, r, base + i, b);
      }
    }
  }

  lemma OtherSlotRight(s: Slot, log: seq<Request>, r: Request, id: nat, b: nat)
    requires b <= 32 && SlotRight(s, log, id, b) && r.slot != id
    ensures SlotRight(s, log + [r], id, b)
  {
    AppendOther(log, r, id, id + 1, 0);
    forall j | 0 <= j < |s.registers| ensures s.registers[j] == MaxRank(log + [r], id, id + 1, j) {
      AppendOther(log, r, id, id + 1, j);
    }
  }

  lemma BackSlotRight(s: Slot, back: Slot, log: seq<Request>, r: Request, id: nat, b: nat)
    requires b <= 32 && SlotRight(s, log, id, b) && r.slot == id
    requires back.count == s.count + 1 && |back.registers| == Pow2(b)
    requires forall j :: 0 <= j < |back.registers| ==>
      back.registers[j] == if j == r.bucket then Max(s.registers[j], r.rank) else s.registers[j]
    ensures SlotRight(back, log + [r], id, b)
  {
    AppendOwn(log, r, id, id + 1, 0);
    forall j | 0 <= j < |back.registers| ensures back.registers[j] == MaxRank(log + [r], id, id + 1, j) {
      AppendOwn(log, r, id, id + 1, j);
    }
  }

  lemma NewSlotRight(log: seq<Request>, id: nat, start: Time, b: nat)
    requires b <= 32 && LogInRange(log, id)
    ensures SlotRight(Slot(Zeros(b), start, 0), log, id, b)
  {
    var zeros := Zeros(b);
    forall j | 0 <= j < |zeros| ensures zeros[j] == MaxRank(log, id, id + 1, j) {
      NothingIn(log, id, id + 1, j);
    }
    NothingIn(log, id, id + 1, 0);
  }

  lemma NextStartCovers(slots: seq<Slot>, now: Time, duration: nat, start: Time)
    requires duration > 0 && (slots != [] ==> slots[|slots| - 1].start <= now)
    requires start == if slots == [] then now else AlignedStart(slots[|slots| - 1].start, now, duration)
    ensures start <= now && (slots != [] ==> slots[|slots| - 1].start <= start)
    ensures slots != [] ==> (start as int - slots[|slots| - 1].start) % duration == 0
    ensures slots == [] || (now - slots[|slots| - 1].start) / duration < U32_RANGE ==> now < start + duration
  {
    if slots != [] { AlignedExactly(slots[|slots| - 1].start, now, duration); }
  }

  /** Add a request to a slot. */
  method BumpSlot(s: Slot, h: Digest, b: nat, ghost log: seq<Request>, ghost id: nat, ghost now: Time)
    returns (out: Option<Slot>, ghost r: Request)
    requires BucketBits(b) && SlotRight(s, log, id, b) && Faithful(log, b)
    ensures out.Some? <==> Rank(h, b) <= U8_MAX
    ensures r.hash == h && r.slot == id && r.at == now && Faithful(log + [r], b)
    ensures out.Some? ==> out.value.start == s.start && SlotRight(out.value, log + [r], id, b)
  {
    var registers := InsertHash(s.registers, h, b);
    r := Request(h, Index(h, b), Rank(h, b), id, now);
    if registers.None? {
      return None, r;
    }
    out := Some(Slot(registers.value, s.start, s.count + 1));
    BackSlotRight(s, out.value, log, r, id, b);
  }

  lemma OpenKeepsSlots(slots: seq<Slot>, log: seq<Request>, starts: seq<Time>, base: nat, b: nat, start: Time)
    requires b <= 32 && SlotsRight(slots, log, starts, base, b) && LogInRange(log, |starts|)
    ensures SlotsRight(slots + [Slot(Zeros(b), start, 0)], log, starts + [start], base, b)
  {
    NewSlotRight(log, |starts|, start, b);
  }

  lemma OpenKeepsTimes(log: seq<Request>, starts: seq<Time>, base: nat, clock: Time, now: Time, window: nat,
                       duration: nat, exact: bool, exact': bool, start: Time)
    requires StartsRight(starts, base, clock, window) && clock <= now && LogInRange(log, |starts|)
    requires TimesRight(log, starts, duration, exact) && (exact' ==> exact)
    requires start <= now && (starts != [] ==> starts[|starts| - 1] <= start)
    ensures StartsRight(starts + [start], base, now, window) && TimesRight(log, starts + [start], duration, exact')
    ensures LogInRange(log, |starts| + 1)
  {
    assert (starts + [start])[..|starts|] == starts;
    forall i | 0 <= i < |log| ensures (starts + [start])[log[i].slot] == starts[log[i].slot] {
      assert log[i].slot < |starts|;
    }
  }

  /** The tracker's fields agree with the requests ever recorded and the slots ever opened. */
  ghost predicate Consistent(slots: seq<Slot>, merged: seq<nat>, dirty: bool, log: seq<Request>, starts: seq<Time>,
                             roots: set<nat>, base: nat, clock: Time, exact: bool, window: nat, duration: nat, b: nat)
  {
    && BucketBits(b) && duration > 0
    && SlotsRight(slots, log, starts, base, b) && StartsRight(starts, base, clock, window)
    && OnGrid(starts, roots, duration)
    && LogInRange(log, |starts|)
    && TimesRight(log, starts, duration, exact) && Faithful(log, b)
    && |merged| == Pow2(b) && (!dirty ==> MergedRight(merged, log, base, Finalized(base, |slots|), b))
  }

  /** Opening a slot keeps slots, times and grid in order. */
  lemma OpenKeeps(slots: seq<Slot>, merged: seq<nat>, dirty: bool, log: seq<Request>, starts: seq<Time>,
                  roots: set<nat>, base: nat, clock: Time, exact: bool, window: nat, duration: nat, b: nat,
                  now: Time, still: bool, start: Time)
    requires Consistent(slots, merged, dirty, log, starts, roots, base, clock, exact, window, duration, b)
    requires clock <= now
    requires still ==> exact && (slots == [] || (now - slots[|slots| - 1].start) / duration < U32_RANGE)
    requires start == if slots == [] then now else AlignedStart(slots[|slots| - 1].start, now, duration)
    ensures Consistent(slots + [Slot(Zeros(b), start, 0)], merged, true, log, starts + [start],
                       if slots == [] then roots + {|starts|} else roots, base, now, still, window, duration, b)
    ensures start <= now && (still ==> now < start + duration)
    ensures slots != [] ==> Follows(starts + [start], |starts|, duration)
  {
    NextStartCovers(slots, now, duration, start);
    OpenKeepsSlots(slots, log, starts, base, b, start);
    OpenKeepsTimes(log, starts, base, clock, now, window, duration, exact, still, start);
    OpenKeepsGrid(starts, roots, duration, slots == [], start);
  }

  lemma PopKeepsSlots(slots: seq<Slot>, log: seq<Request>, starts: seq<Time>, base: nat, b: nat)
    requires b <= 32 && SlotsRight(slots, log, starts, base, b) && slots != []
    ensures SlotsRight(slots[1..], log, starts, base + 1, b)
  {
    forall i | 0 <= i < |slots[1..]|
      ensures slots[1..][i].start == starts[base + 1 + i] && SlotRight(slots[1..][i], log, base + 1 + i, b)
    {
      assert slots[1..][i] == slots[i + 1] && SlotRight(slots[i + 1], log, base + (i + 1), b);
    }
  }

  lemma PopKeepsStarts(starts: seq<Time>, base: nat, clock: Time, window: nat)
    requires StartsRight(starts, base, clock, window) && base < |starts| && starts[base] + window <= clock
    ensures StartsRight(starts, base + 1, clock, window)
  {
  }

  lemma RecordKeepsTimes(log: seq<Request>, starts: seq<Time>, duration: nat, exact: bool, r: Request)
    requires TimesRight(log, starts, duration, exact) && LogInRange(log, |starts|)
    requires r.slot < |starts| && starts[r.slot] <= r.at && (exact ==> r.at < starts[r.slot] + duration)
    ensures TimesRight(log + [r], starts, duration, exact) && LogInRange(log + [r], |starts|)
  {
  }

  /** Adding a request to the back slot keeps slots, times and merge in order. */
  lemma RecordKeeps(slots: seq<Slot>, merged: seq<nat>, dirty: bool, log: seq<Request>, starts: seq<Time>, base: nat,
                    b: nat, duration: nat, exact: bool, r: Request, back: Slot)
    requires b <= 32 && SlotsRight(slots, log, starts, base, b) && slots != [] && r.slot == |starts| - 1
    requires back.start == slots[|slots| - 1].start && SlotRight(back, log + [r], |starts| - 1, b)
    requires TimesRight(log, starts, duration, exact) && LogInRange(log, |starts|)
    requires starts[r.slot] <= r.at && (exact ==> r.at < starts[r.slot] + duration)
    requires !dirty ==> MergedRight(merged, log, base, Finalized(base, |slots|), b)
    ensures SlotsRight(slots[|slots| - 1 := back], log + [r], starts, base, b)
    ensures TimesRight(log + [r], starts, duration, exact) && LogInRange(log + [r], |starts|)
    ensures !dirty ==> MergedRight(merged, log + [r], base, Finalized(base, |slots|), b)
  {
    RecordKeepsSlots(slots, log, starts, base, b, r, back);
    RecordKeepsTimes(log, starts, duration, exact, r);
    if !dirty {
      MergedUnaffected(merged, log, r, base, Finalized(base, |slots|), b);
    }
  }

  /** The log grew by one request, recorded in the last slot. */
  ghost predicate Appended(before: seq<Request>, log: seq<Request>, h: Digest, slots: nat, now: Time) {
    && slots > 0 && |log| == |before| + 1 && log[..|before|] == before
    && log[|before|].hash == h && log[|before|].slot == slots - 1 && log[|before|].at == now
  }

  /** Add a request to the back slot. */
  method BumpBack(slots: seq<Slot>, h: Digest, b: nat, ghost now: Time, ghost merged: seq<nat>, ghost dirty: bool,
                  ghost log: seq<Request>, ghost starts: seq<Time>, ghost base: nat, ghost duration: nat,
                  ghost exact: bool)
    returns (ok: bool, out: seq<Slot>, ghost log': seq<Request>)
    requires BucketBits(b) && SlotsRight(slots, log, starts, base, b) && slots != [] && Faithful(log, b)
    requires TimesRight(log, starts, duration, exact) && LogInRange(log, |starts|)
    requires slots[|slots| - 1].start <= now && (exact ==> now < slots[|slots| - 1].start + duration)
    requires !dirty ==> MergedRight(merged, log, base, Finalized(base, |slots|), b)
    ensures ok <==> Rank(h, b) <= U8_MAX
    ensures |out| == |slots| && SlotsRight(out, log', starts, base, b) && Faithful(log', b)
    ensures TimesRight(log', starts, duration, exact) && LogInRange(log', |starts|)
    ensures !dirty ==> MergedRight(merged, log', base, Finalized(base, |slots|), b)
    ensures if ok then Appended(log, log', h, |starts|, now) else out == slots && log' == log
  {
    var back := slots[|slots| - 1];
    assert SlotRight(back, log, base + (|slots| - 1), b);
    var updated;
    ghost var r;
    updated, r := BumpSlot(back, h, b, log, |starts| - 1, now);
    if updated.None? {
      return false, slots, log;
    }
    RecordKeeps(slots, merged, dirty, log, starts, base, b, duration, exact, r, updated.value);
    return true, slots[|slots| - 1 := updated.value], log + [r];
  }

  /** Merge the first `n` slots from scratch. */
  method MergeSlots(slots: seq<Slot>, n: nat, b: nat, ghost log: seq<Request>, ghost starts: seq<Time>,
                    ghost base: nat) returns (merged: seq<nat>)
    requires BucketBits(b) && n <= |slots| && SlotsRight(slots, log, starts, base, b)
    ensures MergedRight(merged, log, base, base + n, b)
  {
    merged := Zeros(b);
    EmptyRange(log, base, b);
    for i := 0 to n
      invariant MergedRight(merged, log, base, base + i, b)
    {
      ghost var before := merged;
      assert SlotRight(slots[i], log, base + i, b);
      merged := MergeInto(merged, slots[i].registers);
      MergeStep(before, slots[i].registers, merged, log, base, base + i, b);
    }
  }

  class HllTracker {
    const slotDuration: nat
    const window: nat
    const b: nat

    var slots: seq<Slot>
    var merged: seq<nat>
    var dirty: bool

    /**
     All requests ever recorded, the starts of all slots ever opened, how many of those have
     expired, and the last clock reading.
     */
    ghost var log: seq<Request>
    ghost var starts: seq<Time>
    ghost var base: nat
    ghost var clock: Time

    /** The numbers of the slots that were opened on an empty ring. */
    ghost var roots: set<nat>

    /** No gap between requests has reached 2^32 slots. */
    ghost var exact: bool

    ghost predicate Valid()
      reads this
    {
      Consistent(slots, merged, dirty, log, starts, roots, base, clock, exact, window, slotDuration, b)
    }

    constructor (slotDuration: nat, window: nat, b: nat)
      requires BucketBits(b) && slotDuration > 0
      ensures Valid() && log == [] && starts == [] && roots == {} && clock == 0 && exact
      ensures this.slotDuration == slotDuration && this.window == window && this.b == b
    {
      this.slotDuration, this.window, this.b := slotDuration, window, b;
      slots, merged, dirty := [], Zeros(b), false;
      log, starts, roots, base, clock, exact := [], [], {}, 0, 0, true;
    }

    predicate NeedsSlot(now: Time)
      reads this
    {
      slots == [] || now >= slots[|slots| - 1].start + slotDuration
    }

    /** The gap since the back slot does not fit the `u32` period count. */
    ghost predicate WideGap(now: Time)
      requires Valid() && now >= clock
      reads this
    {
      slots != [] && (now - slots[|slots| - 1].start) / slotDuration >= U32_RANGE
    }

    /** The back slot contains a time, as far as its start allows. */
    ghost predicate BackCovers(now: Time)
      reads this
    {
      slots != [] && slots[|slots| - 1].start <= now && (exact ==> now < slots[|slots| - 1].start + slotDuration)
    }

    /** A first slot starts now; later ones start on the grid of the one before. */
    function NextStart(now: Time): Time
      requires Valid() && now >= clock
      reads this
    {
      if slots == [] then now else AlignedStart(slots[|slots| - 1].start, now, slotDuration)
    }

    /** Open a new slot on the grid of the last one. */
    method OpenSlot(now: Time)
      requires Valid() && now >= clock && NeedsSlot(now)
      modifies this
      ensures Valid() && BackCovers(now) && log == old(log) && clock == now
      ensures starts == old(starts) + [old(NextStart(now))] && exact == old(exact && !WideGap(now))
      ensures roots == if old(slots) == [] then old(roots) + {|old(starts)|} else old(roots)
      ensures if old(slots) == [] then starts[|starts| - 1] == now else Follows(starts, |starts| - 1, slotDuration)
    {
      var start := NextStart(now);
      ghost var still := exact && !WideGap(now);
      OpenKeeps(slots, merged, dirty, log, starts, roots, base, clock, exact, window, slotDuration, b, now, still,
                start);
      ghost var anchors := if slots == [] then roots + {|starts|} else roots;
      slots, dirty, starts, roots, clock, exact :=
        slots + [Slot(Zeros(b), start, 0)], true, starts + [start], anchors, now, still;
    }

    /** Record a request in the back slot. */
    method RecordInBack(h: Digest, now: Time) returns (ok: bool)
      requires Valid() && now >= clock && BackCovers(now)
      modifies this
      ensures Valid() && clock == now && exact == old(exact) && starts == old(starts) && roots == old(roots)
      ensures ok <==> Rank(h, b) <= U8_MAX
      ensures if ok then Appended(old(log), log, h, |starts|, now) else log == old(log)
    {
      ok, slots, log := BumpBack(slots, h, b, now, merged, dirty, log, starts, base, slotDuration, exact);
      clock := now;
    }

    /**
     Record a request, opening a slot first where needed. A hash whose rank
     overflows `u8` is not recorded; the slot is opened all the same.
     */
    method Record(h: Digest, now: Time) returns (ok: bool)
      requires Valid() && now >= clock
      modifies this
      ensures Valid() && clock == now
      ensures starts == old(starts) + (if old(NeedsSlot(now)) then [old(NextStart(now))] else [])
      ensures |starts| == |old(starts)| +
        (if old(slots == [] || now >= slots[|slots| - 1].start + slotDuration) then 1 else 0)
      ensures roots == if old(slots) == [] then old(roots) + {|old(starts)|} else old(roots)
      ensures |old(starts)| < |starts| ==>
        if old(slots) == [] then starts[|starts| - 1] == now else Follows(starts, |starts| - 1, slotDuration)
      ensures ok <==> Rank(h, b) <= U8_MAX
      ensures if ok then Appended(old(log), log, h, |starts|, now) else log == old(log)
      ensures exact == old(exact && !(NeedsSlot(now) && WideGap(now)))
    {
      if NeedsSlot(now) {
        OpenSlot(now);
      }
      ok := RecordInBack(h, now);
    }

    /** Pop the slots that have left the window. */
    method ExpireOldSlots(now: Time)
      requires Valid() && now >= clock
      modifies this
      ensures Valid() && clock == now && log == old(log) && starts == old(starts) && roots == old(roots)
      ensures exact == old(exact)
      ensures slots != [] ==> now < slots[0].start + window
    {
      clock := now;
      while slots != [] && now >= slots[0].start + window
        invariant Valid() && clock == now && log == old(log) && starts == old(starts) && roots == old(roots)
        invariant exact == old(exact)
        decreases |slots|
      {
        PopKeepsSlots(slots, log, starts, base, b);
        PopKeepsStarts(starts, base, clock, window);
        slots, base, dirty := slots[1..], base + 1, true;
      }
    }

    /** Rebuild the merge of the finalized slots when it is out of date. */
    method EnsureMerged()
      requires Valid()
      modifies this`merged, this`dirty
      ensures Valid() && !dirty
    {
      if !dirty {
        return;
      }
      var finalized := if slots == [] then 0 else |slots| - 1;
      merged := MergeSlots(slots, finalized, b, log, starts, base);
      dirty := false;
    }

    /** The sum of the slot counters. */
    method TotalRequests() returns (total: nat)
      requires Valid()
      ensures total == CountIn(log, base, |starts|)
    {
      total := 0;
      EmptyRange(log, base, b);
      for i := 0 to |slots|
        invariant total == CountIn(log, base, base + i)
      {
        assert SlotRight(slots[i], log, base + i, b);
        CountSplit(log, base, base + i, base + i + 1);
        total := total + slots[i].count;
      }
    }

    /**
     The metric, up to the floating-point estimate: the registers it estimates
     from and the request count are exactly those of the live requests.
     */
    method ComputeMetric(now: Time) returns (m: Metric)
      requires Valid() && now >= clock
      modifies this
      ensures Valid() && clock == now && log == old(log) && starts == old(starts) && roots == old(roots)
      ensures exact == old(exact)
      ensures m.total == LiveCount(log, starts, now, window) == |LiveRequests(log, starts, now, window)|
      ensures m.slotCount == |LiveSlots(starts, now, window)|
      ensures m.registers.Some? <==> exists i: nat :: LiveSlot(starts, i, now, window)
      ensures m.registers.Some? ==> |m.registers.value| == Pow2(b)
      ensures m.registers.Some? ==> forall j :: 0 <= j < Pow2(b) ==>
        m.registers.value[j] == LiveRank(log, starts, now, window, j)
    {
      ExpireOldSlots(now);
      EnsureMerged();
      var total := TotalRequests();
      LiveFrom(starts, base, now, window, slots);
      LiveIsRange(log, starts, now, window, base, 0);
      LiveSetSize(starts, base, now, window);
      LiveCountIsSize(log, starts, now, window);
      if slots == [] {
        return Metric(None, total, 0);
      }
      var union := UnionWithBack();
      LiveRegisters(union, log, starts, now, window, base, b);
      assert LiveSlot(starts, base, now, window);
      return Metric(Some(union), total, |slots|);
    }

    /** The cached merge and the back slot together. */
    method UnionWithBack() returns (union: seq<nat>)
      requires Valid() && !dirty && slots != []
      ensures MergedRight(union, log, base, |starts|, b)
    {
      var n := |slots| - 1;
      assert SlotRight(slots[n], log, base + n, b);
      union := MergeInto(merged, slots[n].registers);
      MergeStep(merged, slots[n].registers, union, log, base, base + n, b);
    }
  }

  /** A ring that has run empty starts a new grid: the second slot is not a whole number of slots after the first. */
  method GridRestarts(h: Digest, b: nat) returns (tracker: HllTracker)
    requires BucketBits(b)
    ensures fresh(tracker) && tracker.Valid() && |tracker.starts| == 2
    ensures !OnFirstGrid(tracker.starts, 1, tracker.slotDuration)
  {
    tracker := new HllTracker(10, 20, b);
    var _ := tracker.Record(h, 0);
    tracker.ExpireOldSlots(20);
    var _ := tracker.Record(h, 25);
  }

  lemma LiveRegisters(registers: seq<nat>, log: seq<Request>, starts: seq<Time>, now: Time, window: nat, lo: nat,
                      b: nat)
    requires b <= 32 && lo <= |starts| && MergedRight(registers, log, lo, |starts|, b)
    requires forall i: nat :: LiveSlot(starts, i, now, window) <==> lo <= i < |starts|
    ensures forall j :: 0 <= j < |registers| ==> registers[j] == LiveRank(log, starts, now, window, j)
  {
    forall j | 0 <= j < |registers| ensures registers[j] == LiveRank(log, starts, now, window, j) {
      LiveIsRange(log, starts, now, window, lo, j);
    }
  }

  lemma EmptyRange(log: seq<Request>, lo: nat, b: nat)
    requires b <= 32
    ensures MergedRight(Zeros(b), log, lo, lo, b) && CountIn(log, lo, lo) == 0
  {
    var zeros := Zeros(b);
    forall j | 0 <= j < |zeros| ensures zeros[j] == MaxRank(log, lo, lo, j) {
      NothingIn(log, lo, lo, j);
    }
    NothingIn(log, lo, lo, 0);
  }

  lemma MergeStep(a: seq<nat>, c: seq<nat>, out: seq<nat>, log: seq<Request>, lo: nat, mid: nat, b: nat)
    requires b <= 32 && lo <= mid && MergedRight(a, log, lo, mid, b) && |c| == Pow2(b)
    requires forall j :: 0 <= j < |c| ==> c[j] == MaxRank(log, mid, mid + 1, j)
    requires |out| == |a| && forall j :: 0 <= j < |a| ==> out[j] == Max(a[j], c[j])
    ensures MergedRight(out, log, lo, mid + 1, b)
  {
    forall j | 0 <= j < |out| ensures out[j] == MaxRank(log, lo, mid + 1, j) {
      MaxRankSplit(log, lo, mid, mid + 1, j);
    }
  }

  /** After expiry, live slots are exactly the retained ones. */
  lemma LiveFrom(starts: seq<Time>, base: nat, now: Time, window: nat, slots: seq<Slot>)
    requires StartsRight(starts, base, now, window) && base + |slots| == |starts|
    requires slots != [] ==> slots[0].start == starts[base] && now < slots[0].start + window
    ensures forall i: nat :: LiveSlot(starts, i, now, window) <==> base <= i < |starts|
  {
    forall i: nat | i < |starts| ensures LiveSlot(starts, i, now, window) <==> base <= i {
      if i < base { RisingPair(starts, i, base - 1); } else { RisingPair(starts, base, i); }
    }
  }

  lemma LiveSetSize(starts: seq<Time>, base: nat, now: Time, window: nat)
    requires base <= |starts| && forall i: nat :: LiveSlot(starts, i, now, window) <==> base <= i < |starts|
    ensures |LiveSlots(starts, now, window)| == |starts| - base
  {
    assert LiveSlots(starts, now, window) == Span(base, |starts|);
  }

  /**
   What the window means in time: a request is dropped once it is as old as the
   window and, while boundaries are exact, kept as long as it is younger than the
   window less one slot.
   */
  lemma WindowContract(log: seq<Request>, starts: seq<Time>, duration: nat, exact: bool, now: Time, window: nat, i: nat)
    requires TimesRight(log, starts, duration, exact) && i < |log| && log[i].at <= now
    ensures now - log[i].at >= window ==> !LiveSlot(starts, log[i].slot, now, window)
    ensures exact && now - log[i].at + duration <= window ==> LiveSlot(starts, log[i].slot, now, window)
  {
    assert log[i].slot < |starts|;
  }
}
