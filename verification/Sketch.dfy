/**
 TinyLFU admission (pegaflow-core/src/cache.rs): a count-min sketch of saturating,
 aging counters against an ideal counter per key, and the cache that consults it.
 Hash functions are arbitrary.
 */
module Sketch {
  import opened Prelude
  import opened Blocks
  import opened InsertEntries

  type Key = BlockKey

  /** Row and key to hash value. */
  type Hashing = (nat, Key) -> nat

  datatype Access = Touch(key: Key) | Halve

  function SaturatingInc(x: nat): nat { if x < U8_MAX then x + 1 else x }

  function Min(a: nat, b: nat): nat { if a <= b then a else b }

  // ---------------------------------------------------------------------------
  // Ideal counters and shared counters
  // ---------------------------------------------------------------------------

  /** A private counter for one key: saturating at 255, halved whenever the sketch ages. */
  function Ideal(trace: seq<Access>, key: Key): (r: nat)
    ensures r <= U8_MAX
  {
    if trace == [] then 0
    else
      var before := Ideal(trace[..|trace| - 1], key);
      match trace[|trace| - 1]
      case Touch(k) => if k == key then SaturatingInc(before) else before
      case Halve => before / 2
  }

  function Column(hash: Hashing, slots: nat, row: nat, key: Key): nat
    requires slots > 0
  {
    hash(row, key) % slots
  }

  /** The counter of one cell, shared by all keys that fall into it. */
  function Cell(trace: seq<Access>, hash: Hashing, slots: nat, row: nat, column: nat): (r: nat)
    requires slots > 0
    ensures r <= U8_MAX
  {
    if trace == [] then 0
    else
      var before := Cell(trace[..|trace| - 1], hash, slots, row, column);
      match trace[|trace| - 1]
      case Touch(k) => if Column(hash, slots, row, k) == column then SaturatingInc(before) else before
      case Halve => before / 2
  }

  /** The smallest of a key's cells in the first `rows` rows. */
  function Estimate(trace: seq<Access>, hash: Hashing, slots: nat, rows: nat, key: Key): (r: nat)
    requires slots > 0
    ensures r <= U8_MAX
  {
    if rows == 0 then U8_MAX
    else Min(Estimate(trace, hash, slots, rows - 1, key),
             Cell(trace, hash, slots, rows - 1, Column(hash, slots, rows - 1, key)))
  }

  /** No other key of the trace shares the key's cell in a row. */
  predicate Alone(trace: seq<Access>, hash: Hashing, slots: nat, row: nat, key: Key)
    requires slots > 0
  {
    forall i :: 0 <= i < |trace| && trace[i].Touch? ==>
      Column(hash, slots, row, trace[i].key) == Column(hash, slots, row, key) ==> trace[i].key == key
  }

  lemma {:induction false} CellCovers(trace: seq<Access>, hash: Hashing, slots: nat, row: nat, key: Key)
    requires slots > 0
    ensures Cell(trace, hash, slots, row, Column(hash, slots, row, key)) >= Ideal(trace, key)
    ensures Alone(trace, hash, slots, row, key) ==>
      Cell(trace, hash, slots, row, Column(hash, slots, row, key)) == Ideal(trace, key)
  {
    if trace != [] {
      var init := trace[..|trace| - 1];
      CellCovers(init, hash, slots, row, key);
      assert forall i :: 0 <= i < |init| ==> init[i] == trace[i];
    }
  }

  lemma {:induction false} EstimateBelow(trace: seq<Access>, hash: Hashing, slots: nat, rows: nat, key: Key, row: nat)
    requires slots > 0 && row < rows
    ensures Estimate(trace, hash, slots, rows, key) <= Cell(trace, hash, slots, row, Column(hash, slots, row, key))
  {
    if row < rows - 1 { EstimateBelow(trace, hash, slots, rows - 1, key, row); }
  }

  /** Over any run of accesses and agings, the sketch never reports less than the ideal counter. */
  lemma {:induction false} NeverUnderReports(trace: seq<Access>, hash: Hashing, slots: nat, rows: nat, key: Key)
    requires slots > 0
    ensures Estimate(trace, hash, slots, rows, key) >= Ideal(trace, key)
  {
    if rows > 0 {
      NeverUnderReports(trace, hash, slots, rows - 1, key);
      CellCovers(trace, hash, slots, rows - 1, key);
    }
  }

  /** One row in which the key is alone makes the estimate exact. */
  lemma ExactWhenAlone(trace: seq<Access>, hash: Hashing, slots: nat, rows: nat, key: Key, row: nat)
    requires slots > 0 && row < rows && Alone(trace, hash, slots, row, key)
    ensures Estimate(trace, hash, slots, rows, key) == Ideal(trace, key)
  {
    NeverUnderReports(trace, hash, slots, rows, key);
    EstimateBelow(trace, hash, slots, rows, key, row);
    CellCovers(trace, hash, slots, row, key);
  }

  // ---------------------------------------------------------------------------
  // Counting in numbers
  // ---------------------------------------------------------------------------

  /** Between two agings the ideal counter is the number of touches on top of what was there, capped at 255. */
  lemma {:induction false} IdealCounts(trace: seq<Access>, mid: seq<Access>, key: Key)
    requires Halve !in mid
    ensures var total := Ideal(trace, key) + multiset(mid)[Touch(key)];
            Ideal(trace + mid, key) == if total <= 255 then total else 255
  {
    if mid == [] {
      assert trace + mid == trace;
    } else {
      var n := |mid| - 1;
      IdealCounts(trace, mid[..n], key);
      assert (trace + mid)[..|trace + mid| - 1] == trace + mid[..n] && mid == mid[..n] + [mid[n]];
    }
  }

  lemma IdealSnoc(trace: seq<Access>, a: Access, key: Key)
    ensures var before := Ideal(trace, key);
            Ideal(trace + [a], key)
            == match a
               case Touch(k) => if k == key then SaturatingInc(before) else before
               case Halve => before / 2
  {
    assert (trace + [a])[..|trace|] == trace;
  }

  /** An aging leaves the floor of half the count. */
  lemma IdealHalves(trace: seq<Access>, key: Key)
    ensures var half := Ideal(trace + [Halve], key);
            2 * half <= Ideal(trace, key) <= 2 * half + 1
  {
    IdealSnoc(trace, Halve, key);
  }

  /** A touch moves the key's own estimate up by one, capped at 255. */
  lemma {:induction false} EstimateTouched(trace: seq<Access>, hash: Hashing, slots: nat, rows: nat, key: Key)
    requires slots > 0
    ensures var before := Estimate(trace, hash, slots, rows, key);
            Estimate(trace + [Touch(key)], hash, slots, rows, key) == if before < 255 then before + 1 else 255
  {
    if rows > 0 {
      EstimateTouched(trace, hash, slots, rows - 1, key);
      CellSnoc(trace, Touch(key), hash, slots, rows - 1, Column(hash, slots, rows - 1, key));
    }
  }

  /** An aging halves every estimate. */
  lemma {:induction false} EstimateHalved(trace: seq<Access>, hash: Hashing, slots: nat, rows: nat, key: Key)
    requires slots > 0 && rows > 0
    ensures var half := Estimate(trace + [Halve], hash, slots, rows, key);
            2 * half <= Estimate(trace, hash, slots, rows, key) <= 2 * half + 1
  {
    CellSnoc(trace, Halve, hash, slots, rows - 1, Column(hash, slots, rows - 1, key));
    if rows > 1 { EstimateHalved(trace, hash, slots, rows - 1, key); }
  }

  lemma CellSnoc(trace: seq<Access>, a: Access, hash: Hashing, slots: nat, row: nat, column: nat)
    requires slots > 0
    ensures var before := Cell(trace, hash, slots, row, column);
            Cell(trace + [a], hash, slots, row, column)
            == match a
               case Touch(k) => if Column(hash, slots, row, k) == column then SaturatingInc(before) else before
               case Halve => before / 2
  {
    assert (trace + [a])[..|trace|] == trace;
  }

  lemma CellsTouched(trace: seq<Access>, key: Key, hash: Hashing, slots: nat, row: nat)
    requires slots > 0
    ensures forall c :: 0 <= c < slots ==>
      Cell(trace + [Touch(key)], hash, slots, row, c)
      == if c == Column(hash, slots, row, key) then SaturatingInc(Cell(trace, hash, slots, row, c))
         else Cell(trace, hash, slots, row, c)
  {
    forall c | 0 <= c < slots
      ensures Cell(trace + [Touch(key)], hash, slots, row, c)
           == if c == Column(hash, slots, row, key) then SaturatingInc(Cell(trace, hash, slots, row, c))
              else Cell(trace, hash, slots, row, c)
    {
      CellSnoc(trace, Touch(key), hash, slots, row, c);
    }
  }

  // ---------------------------------------------------------------------------
  // The estimator
  // ---------------------------------------------------------------------------

  class Estimator {
    const hash: Hashing
    const counters: array2<nat>
    ghost var trace: seq<Access>

    ghost predicate Valid()
      reads this, counters
    {
      && counters.Length1 > 0
      && forall r, c :: 0 <= r < counters.Length0 && 0 <= c < counters.Length1 ==>
           counters[r, c] == Cell(trace, hash, counters.Length1, r, c)
    }

    ghost function EstimateOf(key: Key): nat
      requires Valid()
      reads this, counters
    {
      Estimate(trace, hash, counters.Length1, counters.Length0, key)
    }

    constructor (rows: nat, slots: nat, hash: Hashing)
      requires slots > 0
      ensures Valid() && trace == [] && fresh(counters) && counters.Length0 == rows && counters.Length1 == slots
      ensures this.hash == hash
    {
      this.hash := hash;
      counters := new nat[rows, slots]((_, _) => 0);
      trace := [];
    }

    /** Count an access in every row; the result is the new estimate. */
    method Incr(key: Key) returns (min: nat)
      requires Valid()
      modifies this, counters
      ensures Valid() && trace == old(trace) + [Touch(key)] && min == EstimateOf(key)
      ensures min == if old(EstimateOf(key)) < 255 then old(EstimateOf(key)) + 1 else 255
    {
      min := U8_MAX;
      ghost var after := trace + [Touch(key)];
      var slots := counters.Length1;
      for r := 0 to counters.Length0
        invariant trace == old(trace)
        invariant forall q, c :: 0 <= q < counters.Length0 && 0 <= c < slots ==>
          counters[q, c] == Cell(if q < r then after else trace, hash, slots, q, c)
        invariant min == Estimate(after, hash, slots, r, key)
      {
        var column := hash(r, key) % slots;
        CellsTouched(trace, key, hash, slots, r);
        counters[r, column] := SaturatingInc(counters[r, column]);
        min := Min(min, counters[r, column]);
      }
      EstimateTouched(trace, hash, slots, counters.Length0, key);
      trace := after;
    }

    method Get(key: Key) returns (min: nat)
      requires Valid()
      ensures min == EstimateOf(key)
    {
      min := U8_MAX;
      for r := 0 to counters.Length0
        invariant min == Estimate(trace, hash, counters.Length1, r, key)
      {
        min := Min(min, counters[r, hash(r, key) % counters.Length1]);
      }
    }

    /** Halve every counter. */
    method Age()
      requires Valid()
      modifies this, counters
      ensures Valid() && trace == old(trace) + [Halve]
      ensures counters.Length0 > 0 ==> forall key :: EstimateOf(key) == old(EstimateOf(key)) / 2
    {
      ghost var after := trace + [Halve];
      var slots := counters.Length1;
      for r := 0 to counters.Length0
        invariant trace == old(trace)
        invariant forall q, c :: 0 <= q < counters.Length0 && 0 <= c < slots ==>
          counters[q, c] == Cell(if q < r then after else trace, hash, slots, q, c)
      {
        AgeRow(r, after);
      }
      forall key | counters.Length0 > 0
        ensures Estimate(after, hash, slots, counters.Length0, key)
             == Estimate(trace, hash, slots, counters.Length0, key) / 2
      {
        EstimateHalved(trace, hash, slots, counters.Length0, key);
      }
      trace := after;
    }

    method AgeRow(r: nat, ghost after: seq<Access>)
      requires counters.Length1 > 0 && r < counters.Length0 && after == trace + [Halve]
      requires forall c :: 0 <= c < counters.Length1 ==> counters[r, c] == Cell(trace, hash, counters.Length1, r, c)
      modifies counters
      ensures forall c :: 0 <= c < counters.Length1 ==> counters[r, c] == Cell(after, hash, counters.Length1, r, c)
      ensures forall q, c :: 0 <= q < counters.Length0 && q != r && 0 <= c < counters.Length1 ==>
        counters[q, c] == old(counters[q, c])
    {
      for c := 0 to counters.Length1
        invariant forall d :: 0 <= d < counters.Length1 ==>
          counters[r, d] == Cell(if d < c then after else trace, hash, counters.Length1, r, d)
        invariant forall q, d :: 0 <= q < counters.Length0 && q != r && 0 <= d < counters.Length1 ==>
          counters[q, d] == old(counters[q, d])
      {
        CellSnoc(trace, Halve, hash, counters.Length1, r, c);
        counters[r, c] := counters[r, c] / 2;
      }
    }
  }

  // ---------------------------------------------------------------------------
  // Aging
  // ---------------------------------------------------------------------------

  /** The accesses of a run of increments: an aging comes with every `limit + 1`-st one. */
  function Aged(keys: seq<Key>, limit: nat): seq<Access> {
    if keys == [] then []
    else
      Aged(keys[..|keys| - 1], limit)
      + (if |keys| % (limit + 1) == 0 then [Halve] else []) + [Touch(keys[|keys| - 1])]
  }

  lemma NextInCycle(n: nat, limit: nat)
    ensures (n + 1) % (limit + 1) == if n % (limit + 1) == limit then 0 else n % (limit + 1) + 1
  {
    var m := limit + 1;
    var q, r := n / m, n % m;
    assert n == m * q + r;
    if r == limit {
      SplitDivMod(n + 1, q + 1, m, 0);
    } else {
      SplitDivMod(n + 1, q, m, r + 1);
    }
  }

  function Halvings(trace: seq<Access>): nat {
    if trace == [] then 0 else Halvings(trace[..|trace| - 1]) + (if trace[|trace| - 1].Halve? then 1 else 0)
  }

  lemma HalvingsSnoc(trace: seq<Access>, a: Access)
    ensures Halvings(trace + [a]) == Halvings(trace) + (if a.Halve? then 1 else 0)
  {
    assert (trace + [a])[..|trace|] == trace;
  }

  lemma NextQuotient(n: nat, limit: nat)
    ensures (n + 1) / (limit + 1) == n / (limit + 1) + (if (n + 1) % (limit + 1) == 0 then 1 else 0)
  {
    var m := limit + 1;
    NextInCycle(n, limit);
    var q, r, p, s := n / m, n % m, (n + 1) / m, (n + 1) % m;
    assert n == m * q + r && n + 1 == m * p + s;
    EqualFactor(p, if r == limit then q + 1 else q, m);
  }

  /** In a sequential run the sketch has aged once per `limit + 1` increments, no more and no less. */
  lemma {:induction false} AgesOncePerWindow(keys: seq<Key>, limit: nat)
    ensures Halvings(Aged(keys, limit)) == |keys| / (limit + 1)
  {
    if keys != [] {
      var n := |keys| - 1;
      AgesOncePerWindow(keys[..n], limit);
      NextQuotient(n, limit);
      var before := Aged(keys[..n], limit);
      if |keys| % (limit + 1) == 0 {
        HalvingsSnoc(before, Halve);
        HalvingsSnoc(before + [Halve], Touch(keys[n]));
      } else {
        assert before + [] == before;
        HalvingsSnoc(before, Touch(keys[n]));
      }
    }
  }

  lemma TouchedOnce(trace: seq<Access>, key: Key, other: Key, ages: bool)
    ensures var aged := if ages then Ideal(trace, other) / 2 else Ideal(trace, other);
            Ideal(if ages then trace + [Halve] + [Touch(key)] else trace + [Touch(key)], other)
            == if other == key && aged < 255 then aged + 1 else aged
  {
    if ages {
      IdealSnoc(trace, Halve, other);
      IdealSnoc(trace + [Halve], Touch(key), other);
    } else {
      IdealSnoc(trace, Touch(key), other);
    }
  }

  lemma AgedSnoc(keys: seq<Key>, key: Key, limit: nat)
    ensures Aged(keys + [key], limit)
         == if (|keys| + 1) % (limit + 1) == 0 then Aged(keys, limit) + [Halve] + [Touch(key)]
            else Aged(keys, limit) + [Touch(key)]
  {
    assert (keys + [key])[..|keys|] == keys;
    assert Aged(keys, limit) + [] == Aged(keys, limit);
  }

  /**
   What one more increment of a sequential run does to the ideal counters: every `limit + 1`-st one
   halves all of them first, and then the key's own goes up by one.
   */
  lemma AgedInNumbers(keys: seq<Key>, key: Key, other: Key, limit: nat)
    ensures var was, now := Ideal(Aged(keys, limit), other), Ideal(Aged(keys + [key], limit), other);
            var aged := if (|keys| + 1) % (limit + 1) == 0 then was / 2 else was;
            now == if other == key && aged < 255 then aged + 1 else aged
  {
    AgedSnoc(keys, key, limit);
    TouchedOnce(Aged(keys, limit), key, other, (|keys| + 1) % (limit + 1) == 0);
  }

  class TinyLfu {
    const estimator: Estimator
    const limit: nat
    var counter: nat

    /** All increments so far. */
    ghost var keys: seq<Key>

    ghost predicate Valid()
      reads this, estimator, estimator.counters
    {
      && estimator.Valid() && estimator.trace == Aged(keys, limit) && counter == |keys| % (limit + 1)
    }

    constructor (limit: nat, rows: nat, slots: nat, hash: Hashing)
      requires slots > 0
      ensures Valid() && keys == [] && fresh(estimator) && fresh(estimator.counters)
    {
      estimator := new Estimator(rows, slots, hash);
      this.limit, counter, keys := limit, 0, [];
    }

    /** Count an access, aging first when the window is full; the second reset condition never holds. */
    method Incr(key: Key) returns (min: nat)
      requires Valid()
      modifies this, estimator, estimator.counters
      ensures Valid() && keys == old(keys) + [key] && min == estimator.EstimateOf(key)
    {
      NextInCycle(|keys|, limit);
      assert (keys + [key])[..|keys|] == keys;
      var size := counter;
      counter := counter + 1;
      if size == limit || size > limit * 2 {
        counter := 0;
        estimator.Age();
      }
      min := estimator.Incr(key);
      keys := keys + [key];
    }
  }

  // ---------------------------------------------------------------------------
  // The cache
  // ---------------------------------------------------------------------------

  datatype InsertOutcome = InsertedNew | AlreadyExists | Rejected

  /** Drop a key from the recency order. */
  function Without(keys: seq<Key>, key: Key): seq<Key> {
    if keys == [] then []
    else if keys[0] == key then Without(keys[1..], key)
    else [keys[0]] + Without(keys[1..], key)
  }

  lemma {:induction false} WithoutMembers(keys: seq<Key>, key: Key)
    ensures forall k :: k in Without(keys, key) <==> k in keys && k != key
    ensures NoRepeats(keys) ==> NoRepeats(Without(keys, key))
    ensures key !in keys ==> Without(keys, key) == keys
  {
    if keys != [] {
      WithoutMembers(keys[1..], key);
      assert keys == [keys[0]] + keys[1..];
      assert NoRepeats(keys) ==> NoRepeats(keys[1..]) && keys[0] !in keys[1..];
    }
  }

  /** Dropping a key leaves the others in their order. */
  lemma {:induction false} WithoutKeepsOrder(before: seq<Key>, key: Key, behind: seq<Key>)
    requires key !in before && key !in behind
    ensures Without(before + [key] + behind, key) == before + behind
  {
    var keys := before + [key] + behind;
    if before == [] {
      assert keys[1..] == behind;
      WithoutMembers(behind, key);
    } else {
      assert keys[1..] == before[1..] + [key] + behind;
      WithoutKeepsOrder(before[1..], key, behind);
      assert before == [before[0]] + before[1..];
    }
  }

  lemma NoRepeatsAround(before: seq<Key>, key: Key, behind: seq<Key>)
    requires NoRepeats(before + [key] + behind)
    ensures key !in before && key !in behind
  {
    var keys, n := before + [key] + behind, |before|;
    assert keys[n] == key && forall i :: 0 <= i < n ==> keys[i] == before[i];
    assert forall i :: 0 <= i < |behind| ==> keys[n + 1 + i] == behind[i];
  }

  /** An LRU cache, least recent first, with an optional frequency sketch in front. */
  class TinyLfuCache {
    const freq: TinyLfu?
    var order: seq<Key>
    var values: map<Key, SealedBlock>

    ghost predicate Valid()
      reads this, freq, if freq != null then {freq.estimator, freq.estimator.counters} else {}
    {
      && NoRepeats(order) && (forall k :: k in order <==> k in values)
      && (freq != null ==> freq.Valid())
    }

    constructor (freq: TinyLfu?)
      requires freq != null ==> freq.Valid()
      ensures Valid() && values == map[] && this.freq == freq
    {
      this.freq, order, values := freq, [], map[];
    }

    /** A hit moves the key to the recent end and counts as an access. */
    method Get(key: Key) returns (r: Option<SealedBlock>)
      requires Valid()
      modifies this, freq, if freq != null then {freq.estimator, freq.estimator.counters} else {}
      ensures Valid() && values == old(values)
      ensures r == if key in values then Some(values[key]) else None
      ensures key !in values ==> order == old(order)
      ensures forall before, behind :: old(order) == before + [key] + behind ==> order == before + behind + [key]
      ensures freq != null ==> freq.keys == old(freq.keys) + (if key in values then [key] else [])
    {
      if key !in values {
        return None;
      }
      WithoutMembers(order, key);
      forall before, behind | order == before + [key] + behind
        ensures Without(order, key) == before + behind
      {
        NoRepeatsAround(before, key, behind);
        WithoutKeepsOrder(before, key, behind);
      }
      order := Without(order, key) + [key];
      if freq != null {
        var _ := freq.Incr(key);
      }
      return Some(values[key]);
    }

    /** Insert with admission; a resident key is never overwritten. */
    method Insert(key: Key, value: SealedBlock) returns (r: InsertOutcome)
      requires Valid()
      modifies this, freq, if freq != null then {freq.estimator, freq.estimator.counters} else {}
      ensures Valid() && (freq != null ==> freq.keys == old(freq.keys) + [key])
      ensures r.AlreadyExists? <==> key in old(values)
      ensures r.Rejected? <==> key !in old(values) && freq != null && old(order) != []
                               && freq.estimator.EstimateOf(key) < freq.estimator.EstimateOf(old(order)[0])
      ensures values == if r.InsertedNew? then old(values)[key := value] else old(values)
      ensures order == if r.InsertedNew? then old(order) + [key] else old(order)
    {
      if freq != null {
        var _ := freq.Incr(key);
      }
      if key in values {
        return AlreadyExists;
      }
      if freq != null && order != [] {
        var candidate := freq.estimator.Get(key);
        var victim := freq.estimator.Get(order[0]);
        if candidate < victim {
          return Rejected;
        }
      }
      assert key !in order;
      order, values := order + [key], values[key := value];
      return InsertedNew;
    }

    /** Evict the least recently used entry. */
    method RemoveLru() returns (r: Option<(Key, SealedBlock)>)
      requires Valid()
      modifies this
      ensures Valid()
      ensures r == if old(order) == [] then None else Some((old(order)[0], old(values)[old(order)[0]]))
      ensures r.Some? ==> order == old(order)[1..] && values == old(values) - {old(order)[0]}
      ensures r.None? ==> order == old(order) && values == old(values)
    {
      if order == [] {
        return None;
      }
      var victim := order[0];
      r := Some((victim, values[victim]));
      assert order == [victim] + order[1..];
      order, values := order[1..], values - {victim};
    }
  }

  /**
   Admission is fair to the candidate: it is turned away only for a victim that
   was really used more often, as long as some row holds the victim alone.
   */
  lemma RejectionIsEarned(trace: seq<Access>, hash: Hashing, slots: nat, rows: nat, candidate: Key, victim: Key,
                          row: nat)
    requires slots > 0 && row < rows && Alone(trace, hash, slots, row, victim)
    requires Estimate(trace, hash, slots, rows, candidate) < Estimate(trace, hash, slots, rows, victim)
    ensures Ideal(trace, candidate) < Ideal(trace, victim)
  {
    NeverUnderReports(trace, hash, slots, rows, candidate);
    ExactWhenAlone(trace, hash, slots, rows, victim, row);
  }
}
