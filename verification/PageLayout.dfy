/**
 Page-first placement (pegaflow-core/src/instance.rs, `build_page_layout`).

 Each distinct set of layers that some worker registered is a shard, stored as
 one contiguous page. The reference meaning below speaks only about the *set* of
 registered sets, so agreeing with it makes the placement independent of worker
 order, repetition and device ids.
 */
module PageLayout {
  import opened Prelude

  datatype PageLayout = PageLayout(
    layerShard: seq<nat>,
    layerOffsets: seq<nat>,
    layerBytes: seq<nat>,
    shardPageSizes: seq<nat>)

  datatype PageError = ClaimedTwice | Unowned

  // ---------------------------------------------------------------------------
  // Reference meaning
  // ---------------------------------------------------------------------------

  function Distinct(workers: seq<set<nat>>): set<set<nat>> {
    set s | s in workers
  }

  predicate LayersBelow(shards: set<set<nat>>, n: nat) {
    forall s, l :: s in shards && l in s ==> l < n
  }

  predicate PairwiseDisjoint(shards: set<set<nat>>) {
    forall s, t :: s in shards && t in shards && s != t ==> s !! t
  }

  predicate Owned(shards: set<set<nat>>, l: nat) { exists s :: s in shards && l in s }

  predicate Covered(shards: set<set<nat>>, n: nat) {
    forall l: nat :: l < n ==> Owned(shards, l)
  }

  /** Sort key of a shard: its least layer, or past every layer when it is empty. */
  function Key(s: set<nat>, n: nat): (k: nat)
    requires forall l :: l in s ==> l < n
    ensures s == {} ==> k == n
    ensures s != {} ==> k in s && forall l :: l in s ==> k <= l
  {
    if s == {} then n else LeastOf(s)
  }

  predicate IsLeast(s: set<nat>, k: nat) { k in s && forall l :: l in s ==> k <= l }

  function LeastOf(s: set<nat>): (k: nat)
    requires s != {}
    ensures IsLeast(s, k)
  {
    LeastExists(s);
    var k :| IsLeast(s, k);
    k
  }

  lemma {:induction false} FindLeast(s: set<nat>) returns (k: nat)
    requires s != {}
    ensures IsLeast(s, k)
  {
    var x :| x in s;
    if s == {x} {
      k := x;
    } else {
      var y := FindLeast(s - {x});
      k := if y < x then y else x;
      forall l | l in s ensures k <= l {
        if l != x { assert l in s - {x}; }
      }
    }
  }

  lemma LeastExists(s: set<nat>)
    requires s != {}
    ensures exists k :: IsLeast(s, k)
  {
    var k := FindLeast(s);
  }

  /** Bytes that the layers of `s` numbered below `upTo` occupy. */
  function BytesBelow(padded: seq<nat>, s: set<nat>, upTo: nat): nat
    requires upTo <= |padded|
  {
    if upTo == 0 then 0
    else BytesBelow(padded, s, upTo - 1) + (if upTo - 1 in s then padded[upTo - 1] else 0)
  }

  predicate SetsBelow(shards: seq<set<nat>>, n: nat) {
    forall i, l :: 0 <= i < |shards| && l in shards[i] ==> l < n
  }

  /** The shards listed by strictly increasing key. */
  ghost predicate InKeyOrder(ordered: seq<set<nat>>, shards: set<set<nat>>, n: nat) {
    && SetsBelow(ordered, n)
    && Distinct(ordered) == shards
    && forall i, j :: 0 <= i < j < |ordered| ==> Key(ordered[i], n) < Key(ordered[j], n)
  }

  /** Layers are numbered by their shard and packed within it in layer order. */
  predicate PacksInto(p: PageLayout, ordered: seq<set<nat>>, padded: seq<nat>)
    requires SetsBelow(ordered, |padded|)
  {
    && |p.layerShard| == |p.layerOffsets| == |padded|
    && p.layerBytes == padded
    && |p.shardPageSizes| == |ordered|
    && (forall i, l :: 0 <= i < |ordered| && l in ordered[i] ==>
          p.layerShard[l] == i && p.layerOffsets[l] == BytesBelow(padded, ordered[i], l))
    && (forall i :: 0 <= i < |ordered| ==> p.shardPageSizes[i] == BytesBelow(padded, ordered[i], |padded|))
  }

  /** The placement of a set of shards. */
  ghost predicate Places(p: PageLayout, shards: set<set<nat>>, padded: seq<nat>) {
    exists ordered :: InKeyOrder(ordered, shards, |padded|) && PacksInto(p, ordered, padded)
  }

  // ---------------------------------------------------------------------------
  // Key order
  // ---------------------------------------------------------------------------

  lemma DisjointKeys(s: set<nat>, t: set<nat>, n: nat)
    requires (forall l :: l in s ==> l < n) && (forall l :: l in t ==> l < n)
    requires s !! t && s != t
    ensures Key(s, n) != Key(t, n)
  {
  }

  /** There is only one way to list a set of shards by increasing key. */
  lemma {:induction false} KeyOrderUnique(xs: seq<set<nat>>, ys: seq<set<nat>>, shards: set<set<nat>>, n: nat)
    requires InKeyOrder(xs, shards, n) && InKeyOrder(ys, shards, n)
    ensures xs == ys
  {
    assert ys != [] ==> ys[0] in Distinct(ys);
    if xs != [] {
      assert xs[0] in Distinct(xs);
      var j :| 0 <= j < |ys| && ys[j] == xs[0];
      assert ys[0] in Distinct(ys);
      var i :| 0 <= i < |xs| && xs[i] == ys[0];
      assert i == 0 && j == 0;
      TailMembers(xs, shards, n);
      TailMembers(ys, shards, n);
      KeyOrderUnique(xs[1..], ys[1..], shards - {xs[0]}, n);
      assert xs == [xs[0]] + xs[1..] && ys == [ys[0]] + ys[1..];
    }
  }

  lemma TailMembers(xs: seq<set<nat>>, shards: set<set<nat>>, n: nat)
    requires InKeyOrder(xs, shards, n) && xs != []
    ensures InKeyOrder(xs[1..], shards - {xs[0]}, n)
  {
    forall s ensures s in Distinct(xs[1..]) <==> s in shards - {xs[0]} {
      if s in shards - {xs[0]} {
        assert s in Distinct(xs);
        var i :| 0 <= i < |xs| && xs[i] == s;
        assert xs[1..][i - 1] == s;
      }
      if s in Distinct(xs[1..]) {
        var i :| 0 <= i < |xs[1..]| && xs[1..][i] == s;
        assert xs[i + 1] == s && s in Distinct(xs);
      }
    }
    assert Distinct(xs[1..]) == shards - {xs[0]};
  }

  // ---------------------------------------------------------------------------
  // The code
  // ---------------------------------------------------------------------------

  predicate KeySorted(shards: seq<set<nat>>, n: nat)
    requires SetsBelow(shards, n)
  {
    forall i, j :: 0 <= i < j < |shards| ==> Key(shards[i], n) <= Key(shards[j], n)
  }

  /** Keep the first occurrence of each registered set. */
  method DedupSets(workers: seq<set<nat>>) returns (shards: seq<set<nat>>)
    ensures Distinct(shards) == Distinct(workers) && NoRepeats(shards)
  {
    shards := [];
    for i := 0 to |workers|
      invariant NoRepeats(shards) && Distinct(shards) == Distinct(workers[..i])
    {
      assert workers[..i + 1] == workers[..i] + [workers[i]];
      if workers[i] !in shards {
        ghost var before := shards;
        shards := shards + [workers[i]];
        assert Distinct(shards) == Distinct(before) + {workers[i]};
      }
    }
    assert workers[..|workers|] == workers;
  }

  /** Where a stable sort inserts `s`: behind every shard whose key is not larger. */
  method InsertionPoint(out: seq<set<nat>>, s: set<nat>, n: nat) returns (at: nat)
    requires SetsBelow(out, n) && (forall l :: l in s ==> l < n) && KeySorted(out, n)
    ensures at <= |out|
    ensures forall k :: 0 <= k < at ==> Key(out[k], n) <= Key(s, n)
    ensures forall k :: at <= k < |out| ==> Key(out[k], n) > Key(s, n)
  {
    at := |out|;
    while at > 0 && Key(out[at - 1], n) > Key(s, n)
      invariant 0 <= at <= |out|
      invariant forall k :: at <= k < |out| ==> Key(out[k], n) > Key(s, n)
    {
      at := at - 1;
    }
  }

  method SortByKey(shards: seq<set<nat>>, n: nat) returns (out: seq<set<nat>>)
    requires NoRepeats(shards) && SetsBelow(shards, n)
    ensures Distinct(out) == Distinct(shards) && NoRepeats(out)
    ensures SetsBelow(out, n) && KeySorted(out, n)
  {
    out := [];
    for i := 0 to |shards|
      invariant Distinct(out) == Distinct(shards[..i]) && NoRepeats(out)
      invariant SetsBelow(out, n) && KeySorted(out, n)
    {
      var s := shards[i];
      var at := InsertionPoint(out, s, n);
      assert s !in out by {
        assert s !in shards[..i];
        assert forall t :: t in out ==> t in Distinct(out);
      }
      InsertMembers(out, at, s);
      out := out[..at] + [s] + out[at..];
      assert shards[..i + 1] == shards[..i] + [s];
    }
    assert shards[..|shards|] == shards;
  }

  lemma InsertMembers(before: seq<set<nat>>, at: nat, s: set<nat>)
    requires at <= |before|
    ensures Distinct(before[..at] + [s] + before[at..]) == Distinct(before) + {s}
  {
    var after := before[..at] + [s] + before[at..];
    forall t ensures t in after <==> t in before || t == s {
      if t in before {
        var j :| 0 <= j < |before| && before[j] == t;
        assert after[if j < at then j else j + 1] == t;
      }
      assert after[at] == s;
    }
  }

  /** Which shards, of the first `k`, have claimed a layer. */
  ghost predicate ClaimsOf(owner: seq<Option<nat>>, shards: seq<set<nat>>, k: nat)
    requires k <= |shards|
  {
    && (forall l :: 0 <= l < |owner| && owner[l].Some? ==> owner[l].value < k && l in shards[owner[l].value])
    && (forall i: nat,
        l: nat {:trigger l in shards[i]} :: i < k && l in shards[i] ==> l < |owner| && owner[l] == Some(i))
  }

  /** Record every shard's claim on its layers; a second claim is an error. */
  method ClaimLayers(shards: seq<set<nat>>, n: nat) returns (r: Result<seq<Option<nat>>, PageError>)
    requires NoRepeats(shards) && SetsBelow(shards, n)
    ensures r.Ok? <==> PairwiseDisjoint(Distinct(shards))
    ensures r.Err? ==> r.error == ClaimedTwice
    ensures r.Ok? ==> |r.value| == n && ClaimsOf(r.value, shards, |shards|)
  {
    var owner: seq<Option<nat>> := seq(n, _ => None);
    for k := 0 to |shards|
      invariant |owner| == n && ClaimsOf(owner, shards, k)
    {
      var rest := shards[k];
      while rest != {}
        invariant |owner| == n && rest <= shards[k]
        invariant forall l :: 0 <= l < n && owner[l].Some? ==> owner[l].value <= k && l in shards[owner[l].value]
        invariant forall i, l :: 0 <= i < k && l in shards[i] ==> owner[l] == Some(i)
        invariant forall l :: l in shards[k] - rest ==> owner[l] == Some(k)
        invariant forall l :: l in rest ==> owner[l] != Some(k)
        decreases rest
      {
        var l: nat :| l in rest;
        if owner[l].Some? {
          var other := owner[l].value;
          assert l in shards[other] && l in shards[k] && shards[other] != shards[k];
          assert shards[other] in Distinct(shards) && shards[k] in Distinct(shards);
          return Err(ClaimedTwice);
        }
        owner := owner[l := Some(k)];
        rest := rest - {l};
      }
    }
    ClaimsMeanDisjoint(owner, shards);
    r := Ok(owner);
  }

  lemma ClaimsMeanDisjoint(owner: seq<Option<nat>>, shards: seq<set<nat>>)
    requires ClaimsOf(owner, shards, |shards|)
    ensures PairwiseDisjoint(Distinct(shards))
  {
    forall s, t | s in Distinct(shards) && t in Distinct(shards) && s != t
      ensures s !! t
    {
      var i :| 0 <= i < |shards| && shards[i] == s;
      var j :| 0 <= j < |shards| && shards[j] == t;
      assert forall l: nat :: l in shards[i] ==> l < |owner| && owner[l] == Some(i);
      assert forall l: nat :: l in shards[j] ==> l < |owner| && owner[l] == Some(j);
    }
  }

  /** First layer nobody owns, if any. */
  method FindUnowned(owner: seq<Option<nat>>) returns (found: bool)
    ensures found <==> exists l :: 0 <= l < |owner| && owner[l].None?
  {
    for l := 0 to |owner|
      invariant forall k :: 0 <= k < l ==> owner[k].Some?
    {
      if owner[l].None? {
        return true;
      }
    }
    return false;
  }

  /** Pack each shard's layers in layer order. */
  method PackPages(owner: seq<Option<nat>>, shards: seq<set<nat>>, padded: seq<nat>) returns (p: PageLayout)
    requires |owner| == |padded| && ClaimsOf(owner, shards, |shards|)
    requires forall l :: 0 <= l < |owner| ==> owner[l].Some?
    ensures SetsBelow(shards, |padded|) && PacksInto(p, shards, padded)
  {
    assert forall i: nat, l: nat :: i < |shards| && l in shards[i] ==> l < |owner|;
    var shardOf: seq<nat>, offsets: seq<nat>, bytes: seq<nat> := [], [], [];
    var sizes: seq<nat> := seq(|shards|, _ => 0);
    for l := 0 to |padded|
      invariant |shardOf| == |offsets| == |bytes| == l && |sizes| == |shards|
      invariant forall k :: 0 <= k < l ==> shardOf[k] == owner[k].value
      invariant forall k :: 0 <= k < l ==> offsets[k] == BytesBelow(padded, shards[owner[k].value], k)
      invariant forall k :: 0 <= k < l ==> bytes[k] == padded[k]
      invariant forall i :: 0 <= i < |shards| ==> sizes[i] == BytesBelow(padded, shards[i], l)
    {
      var shard := owner[l].value;
      offsets := offsets + [sizes[shard]];
      bytes := bytes + [padded[l]];
      shardOf := shardOf + [shard];
      assert forall i :: 0 <= i < |shards| ==> (l in shards[i] <==> i == shard);
      sizes := sizes[shard := sizes[shard] + padded[l]];
    }
    p := PageLayout(shardOf, offsets, bytes, sizes);
  }

  /**
   Succeeds exactly when the distinct registered sets partition the layers;
   overlaps are reported before gaps, and the result places every shard.
   */
  method BuildPageLayout(workers: seq<set<nat>>, padded: seq<nat>) returns (r: Result<PageLayout, PageError>)
    requires LayersBelow(Distinct(workers), |padded|)
    ensures r.Ok? <==> PairwiseDisjoint(Distinct(workers)) && Covered(Distinct(workers), |padded|)
    ensures r == Err(ClaimedTwice) <==> !PairwiseDisjoint(Distinct(workers))
    ensures r.Ok? ==> Places(r.value, Distinct(workers), padded)
  {
    var n := |padded|;
    var dedup := DedupSets(workers);
    MembersBelow(dedup, n);
    var shards := SortByKey(dedup, n);
    var claims := ClaimLayers(shards, n);
    if claims.Err? {
      return Err(claims.error);
    }
    var gap := FindUnowned(claims.value);
    CoverageExact(claims.value, shards, n);
    if gap {
      return Err(Unowned);
    }
    var p := PackPages(claims.value, shards, padded);
    StrictKeys(shards, n);
    assert InKeyOrder(shards, Distinct(workers), n);
    r := Ok(p);
  }

  lemma MembersBelow(shards: seq<set<nat>>, n: nat)
    requires LayersBelow(Distinct(shards), n)
    ensures SetsBelow(shards, n)
  {
    assert forall i :: 0 <= i < |shards| ==> shards[i] in Distinct(shards);
  }

  lemma StrictKeys(shards: seq<set<nat>>, n: nat)
    requires SetsBelow(shards, n) && NoRepeats(shards) && KeySorted(shards, n) && PairwiseDisjoint(Distinct(shards))
    ensures InKeyOrder(shards, Distinct(shards), n)
  {
    forall i, j | 0 <= i < j < |shards|
      ensures Key(shards[i], n) < Key(shards[j], n)
    {
      assert shards[i] in Distinct(shards) && shards[j] in Distinct(shards);
      DisjointKeys(shards[i], shards[j], n);
    }
  }

  lemma CoverageExact(owner: seq<Option<nat>>, shards: seq<set<nat>>, n: nat)
    requires |owner| == n && ClaimsOf(owner, shards, |shards|)
    ensures Covered(Distinct(shards), n) <==> forall l :: 0 <= l < n ==> owner[l].Some?
  {
    forall l: nat | l < n
      ensures Owned(Distinct(shards), l) <==> owner[l].Some?
    {
      if Owned(Distinct(shards), l) {
        var s :| s in Distinct(shards) && l in s;
        var i :| 0 <= i < |shards| && shards[i] == s;
      }
      if owner[l].Some? {
        assert shards[owner[l].value] in Distinct(shards);
      }
    }
  }

  // ---------------------------------------------------------------------------
  // Consequences
  // ---------------------------------------------------------------------------

  /** In a partition every layer sits in one of the listed shards. */
  lemma OwnerListed(ordered: seq<set<nat>>, shards: set<set<nat>>, n: nat, l: nat) returns (i: nat)
    requires InKeyOrder(ordered, shards, n) && Covered(shards, n) && l < n
    ensures i < |ordered| && l in ordered[i]
  {
    assert Owned(shards, l);
    var s :| s in shards && l in s;
    assert s in Distinct(ordered);
    i :| 0 <= i < |ordered| && ordered[i] == s;
  }

  lemma PlacesBytes(p: PageLayout, shards: set<set<nat>>, padded: seq<nat>)
    requires Places(p, shards, padded)
    ensures p.layerBytes == padded
  {
    var ordered :| InKeyOrder(ordered, shards, |padded|) && PacksInto(p, ordered, padded);
  }

  /** A set of shards has at most one placement. */
  lemma SamePlacement(p: PageLayout, q: PageLayout, shards: set<set<nat>>, padded: seq<nat>)
    requires Covered(shards, |padded|) && Places(p, shards, padded) && Places(q, shards, padded)
    ensures p == q
  {
    var n := |padded|;
    var xs :| InKeyOrder(xs, shards, n) && PacksInto(p, xs, padded);
    var ys :| InKeyOrder(ys, shards, n) && PacksInto(q, ys, padded);
    KeyOrderUnique(xs, ys, shards, n);
    forall l | 0 <= l < n
      ensures p.layerShard[l] == q.layerShard[l] && p.layerOffsets[l] == q.layerOffsets[l]
    {
      var i := OwnerListed(xs, shards, n, l);
    }
    assert p.layerShard == q.layerShard && p.layerOffsets == q.layerOffsets && p.shardPageSizes == q.shardPageSizes;
  }

  /**
   Order and device-id independence: two worker lists that register the same
   sets, in any order and with any repetition, get the same placement.
   */
  lemma PlacementIndependent(p: PageLayout, q: PageLayout, workers: seq<set<nat>>, workers': seq<set<nat>>,
                             padded: seq<nat>)
    requires (forall s :: s in workers <==> s in workers') && Covered(Distinct(workers), |padded|)
    requires Places(p, Distinct(workers), padded) && Places(q, Distinct(workers'), padded)
    ensures p == q
  {
    assert Distinct(workers) == Distinct(workers');
    SamePlacement(p, q, Distinct(workers), padded);
  }

  lemma {:induction false} BytesBelowSteps(padded: seq<nat>, s: set<nat>, l: nat, k: nat)
    requires l < k <= |padded| && l in s
    ensures BytesBelow(padded, s, l) + padded[l] <= BytesBelow(padded, s, k)
  {
    if l + 1 < k { BytesBelowSteps(padded, s, l, k - 1); }
  }

  /** The slice of page `shard` that belongs to byte position `at`. */
  lemma {:induction false} SliceAt(padded: seq<nat>, s: set<nat>, upTo: nat, at: nat) returns (l: nat)
    requires upTo <= |padded| && at < BytesBelow(padded, s, upTo)
    ensures l < upTo && l in s && BytesBelow(padded, s, l) <= at < BytesBelow(padded, s, l) + padded[l]
  {
    if at < BytesBelow(padded, s, upTo - 1) {
      l := SliceAt(padded, s, upTo - 1, at);
    } else {
      l := upTo - 1;
    }
  }

  predicate InSlice(p: PageLayout, l: nat, at: nat)
    requires l < |p.layerOffsets| == |p.layerBytes|
  {
    p.layerOffsets[l] <= at < p.layerOffsets[l] + p.layerBytes[l]
  }

  /** A shard's layers tile its page: every byte lies in the slice of exactly one of them. */
  lemma SlicesTile(p: PageLayout, ordered: seq<set<nat>>, padded: seq<nat>, shard: nat, at: nat)
    requires SetsBelow(ordered, |padded|) && PacksInto(p, ordered, padded) && shard < |ordered|
    ensures at < p.shardPageSizes[shard] <==> exists l :: l in ordered[shard] && InSlice(p, l, at)
    ensures forall l, k :: l in ordered[shard] && k in ordered[shard] && InSlice(p, l, at) && InSlice(p, k, at) ==>
      l == k
  {
    var n, s := |padded|, ordered[shard];
    if at < BytesBelow(padded, s, n) {
      var l := SliceAt(padded, s, n, at);
      assert InSlice(p, l, at);
    }
    if l :| l in s && InSlice(p, l, at) {
      BytesBelowSteps(padded, s, l, n);
    }
    forall l, k | l in s && k in s && InSlice(p, l, at) && InSlice(p, k, at)
      ensures l == k
    {
      if l < k { BytesBelowSteps(padded, s, l, k); }
      if k < l { BytesBelowSteps(padded, s, k, l); }
    }
  }

  /** Aligned layer sizes keep every offset and page size aligned. */
  lemma {:induction false} BytesBelowAligned(padded: seq<nat>, s: set<nat>, upTo: nat, alignment: nat)
    requires alignment > 0 && upTo <= |padded| && forall l :: 0 <= l < |padded| ==> padded[l] % alignment == 0
    ensures BytesBelow(padded, s, upTo) % alignment == 0
  {
    if upTo > 0 {
      BytesBelowAligned(padded, s, upTo - 1, alignment);
      AlignedSum(BytesBelow(padded, s, upTo - 1), padded[upTo - 1], alignment);
    }
  }

  lemma AlignedSum(a: nat, b: nat, m: nat)
    requires m > 0 && a % m == 0 && b % m == 0
    ensures (a + b) % m == 0
  {
    var q := a / m + b / m;
    assert a + b == q * m;
    var r := (a + b) % m;
    assert q * m == ((a + b) / m) * m + r;
    var d := q - (a + b) / m;
    assert d * m == r;
    if d > 0 { MulMonotone(1, d, m); }
    if d < 0 { MulMonotone(1, -d, m); }
  }

  lemma OffsetsAligned(p: PageLayout, ordered: seq<set<nat>>, padded: seq<nat>, alignment: nat)
    requires SetsBelow(ordered, |padded|) && PacksInto(p, ordered, padded)
    requires alignment > 0 && forall l :: 0 <= l < |padded| ==> padded[l] % alignment == 0
    ensures forall i, l :: 0 <= i < |ordered| && l in ordered[i] ==> p.layerOffsets[l] % alignment == 0
    ensures forall i :: 0 <= i < |ordered| ==> p.shardPageSizes[i] % alignment == 0
  {
    forall i, l | 0 <= i < |ordered| && l in ordered[i]
      ensures p.layerOffsets[l] % alignment == 0
    {
      BytesBelowAligned(padded, ordered[i], l, alignment);
    }
    forall i | 0 <= i < |ordered|
      ensures p.shardPageSizes[i] % alignment == 0
    {
      BytesBelowAligned(padded, ordered[i], |padded|, alignment);
    }
  }
}
