/** The order on layer names that `sort_unstable` uses, and the sorted list of a set of names. */
module Names {

  /** Lexicographic order. */
  predicate Less(a: string, b: string) {
    if b == [] then false
    else if a == [] then true
    else if a[0] != b[0] then a[0] < b[0]
    else Less(a[1..], b[1..])
  }

  /** The names agree up to position `k`, where the first ends or has the smaller character. */
  predicate LessFrom(a: string, b: string, k: nat) {
    k <= |a| && k < |b| && a[..k] == b[..k] && (k == |a| || a[k] < b[k])
  }

  /** One name is less than another when it is a proper prefix, or smaller where they first differ. */
  lemma {:induction false} LessExactly(a: string, b: string)
    ensures Less(a, b) <==> exists k: nat :: LessFrom(a, b, k)
  {
    if a != [] && b != [] && a[0] == b[0] {
      LessExactly(a[1..], b[1..]);
      if k: nat :| LessFrom(a[1..], b[1..], k) {
        assert a[..k + 1] == [a[0]] + a[1..][..k] && b[..k + 1] == [b[0]] + b[1..][..k];
        assert LessFrom(a, b, k + 1);
      }
      if k: nat :| LessFrom(a, b, k) {
        assert k > 0 && a[1..][..k - 1] == a[..k][1..] && b[1..][..k - 1] == b[..k][1..];
        assert LessFrom(a[1..], b[1..], k - 1);
      }
    } else if b != [] {
      assert Less(a, b) ==> LessFrom(a, b, 0);
      if k: nat :| LessFrom(a, b, k) {
        assert k > 0 ==> a[..k][0] == b[..k][0];
      }
    }
  }

  lemma LessIrreflexive(a: string)
    ensures !Less(a, a)
  {
  }

  lemma LessTotal(a: string, b: string)
    ensures Less(a, b) || a == b || Less(b, a)
  {
    if a != [] && b != [] && a[0] == b[0] {
      LessTotal(a[1..], b[1..]);
      assert a == [a[0]] + a[1..] && b == [b[0]] + b[1..];
    }
  }

  lemma LessTransitive(a: string, b: string, c: string)
    requires Less(a, b) && Less(b, c)
    ensures Less(a, c)
  {
  }

  predicate StrictlySorted(s: seq<string>) {
    forall i, j :: 0 <= i < j < |s| ==> Less(s[i], s[j])
  }

  function Members(s: seq<string>): set<string> { set x | x in s }

  /** The one strictly sorted listing of a set of names. */
  ghost predicate Lists(s: seq<string>, names: set<string>) {
    StrictlySorted(s) && Members(s) == names
  }

  lemma StrictNoRepeats(s: seq<string>, i: nat, j: nat)
    requires StrictlySorted(s) && i < |s| && j < |s| && s[i] == s[j]
    ensures i == j
  {
    LessIrreflexive(s[i]);
  }

  lemma {:induction false} ListingUnique(xs: seq<string>, ys: seq<string>, names: set<string>)
    requires Lists(xs, names) && Lists(ys, names)
    ensures xs == ys
  {
    assert ys != [] ==> ys[0] in Members(ys);
    if xs != [] {
      assert xs[0] in Members(xs);
      HeadsAgree(xs, ys);
      TailListing(xs, names);
      TailListing(ys, names);
      ListingUnique(xs[1..], ys[1..], names - {xs[0]});
      assert xs == [xs[0]] + xs[1..] && ys == [ys[0]] + ys[1..];
    }
  }

  lemma HeadsAgree(xs: seq<string>, ys: seq<string>)
    requires StrictlySorted(xs) && StrictlySorted(ys) && Members(xs) == Members(ys) && xs != []
    ensures ys != [] && xs[0] == ys[0]
  {
    assert xs[0] in Members(xs);
    var j :| 0 <= j < |ys| && ys[j] == xs[0];
    assert ys[0] in Members(ys);
    var i :| 0 <= i < |xs| && xs[i] == ys[0];
    if i > 0 && j > 0 {
      LessTransitive(xs[0], xs[i], ys[j]);
      LessIrreflexive(xs[0]);
    }
  }

  lemma TailListing(xs: seq<string>, names: set<string>)
    requires Lists(xs, names) && xs != []
    ensures Lists(xs[1..], names - {xs[0]})
  {
    forall x ensures x in Members(xs[1..]) <==> x in names - {xs[0]} {
      if x in names - {xs[0]} {
        assert x in Members(xs);
        var i :| 0 <= i < |xs| && xs[i] == x;
        assert xs[1..][i - 1] == x;
      }
      if x in Members(xs[1..]) {
        var i :| 0 <= i < |xs[1..]| && xs[1..][i] == x;
        assert xs[i + 1] == x && x in Members(xs);
        LessIrreflexive(x);
      }
    }
    assert Members(xs[1..]) == names - {xs[0]};
  }

  /** Insert a new name into a sorted list. */
  method InsertName(sorted: seq<string>, name: string) returns (out: seq<string>)
    requires StrictlySorted(sorted) && name !in sorted
    ensures StrictlySorted(out) && Members(out) == Members(sorted) + {name}
  {
    var at := 0;
    while at < |sorted| && Less(sorted[at], name)
      invariant 0 <= at <= |sorted|
      invariant forall k :: 0 <= k < at ==> Less(sorted[k], name)
    {
      at := at + 1;
    }
    forall k | at <= k < |sorted| ensures Less(name, sorted[k]) {
      LessTotal(sorted[at], name);
      if at < k { LessTransitive(name, sorted[at], sorted[k]); }
    }
    out := sorted[..at] + [name] + sorted[at..];
    forall x ensures x in Members(out) <==> x in Members(sorted) + {name} {
      if x in sorted {
        var j :| 0 <= j < |sorted| && sorted[j] == x;
        assert out[if j < at then j else j + 1] == x;
      }
      assert out[at] == name;
    }
  }

  /** Sort a set of names. */
  method SortNames(names: set<string>) returns (out: seq<string>)
    ensures Lists(out, names)
  {
    out := [];
    var rest := names;
    while rest != {}
      invariant rest <= names && Lists(out, names - rest)
      decreases rest
    {
      var name :| name in rest;
      assert name !in out by { assert forall x :: x in out ==> x in Members(out); }
      out := InsertName(out, name);
      rest := rest - {name};
      assert names - rest == names - (rest + {name}) + {name};
    }
  }

  /** Position of each name in the list. */
  function IdsOf(list: seq<string>): (ids: map<string, nat>)
    requires StrictlySorted(list)
    ensures ids.Keys == Members(list)
    ensures forall i :: 0 <= i < |list| ==> list[i] in ids && ids[list[i]] == i
    ensures |ids| == |list|
  {
    assert forall i, j :: 0 <= i < |list| && 0 <= j < |list| && list[i] == list[j] ==> i == j by {
      forall i, j | 0 <= i < |list| && 0 <= j < |list| && list[i] == list[j] ensures i == j {
        StrictNoRepeats(list, i, j);
      }
    }
    var ids := map i | 0 <= i < |list| :: list[i] := i;
    MembersCount(list);
    assert ids.Keys == Members(list);
    assert |ids| == |ids.Keys|;
    ids
  }

  lemma {:induction false} MembersCount(list: seq<string>)
    requires StrictlySorted(list)
    ensures |Members(list)| == |list|
  {
    if list == [] {
      assert Members(list) == {};
    } else {
      var init, last := list[..|list| - 1], list[|list| - 1];
      MembersCount(init);
      forall x ensures x in Members(list) <==> x in Members(init) + {last} {
        if x in list {
          var i :| 0 <= i < |list| && list[i] == x;
          if i < |init| { assert init[i] == x; }
        }
        if x in init {
          var i :| 0 <= i < |init| && init[i] == x;
          assert list[i] == x;
        }
      }
      assert Members(list) == Members(init) + {last};
      assert last !in init by { LessIrreflexive(last); }
    }
  }
}
