/**
 The prefix query of the MetaServer (pegaflow-metaserver/src/service.rs): one
 counter per node over a globally truncated list, against each node's own longest
 prefix of the full list.
 */
module MetaQuery {
  import opened Prelude
  import opened InsertEntries
  import opened MetaStore

  /** Rust's `as u32`. */
  function AsU32(i: nat): nat { i % U32_RANGE }

  datatype QueryError = EmptyRequest

  /** `m` is how many leading sets contain a node. */
  predicate LeadsBy(live: seq<set<Node>>, n: Node, m: nat) {
    m <= |live| && (forall i :: 0 <= i < m ==> n in live[i]) && (m < |live| ==> n !in live[m])
  }

  function NamedIn(live: seq<set<Node>>): set<Node> {
    if live == [] then {} else NamedIn(live[..|live| - 1]) + live[|live| - 1]
  }

  /** The counters after some entries: every node named so far, with its leading count. */
  predicate Counted(counts: map<Node, nat>, live: seq<set<Node>>) {
    counts.Keys == NamedIn(live) && forall n :: n in counts ==> LeadsBy(live, n, counts[n])
  }

  function CountOf(counts: map<Node, nat>, n: Node): nat { if n in counts then counts[n] else 0 }

  function Bumped(count: nat, i: nat): nat { if count == AsU32(i) then AsU32(count + 1) else count }

  /** One entry, `i` entries in: bump the counters that have kept up. */
  method CountEntry(counts: map<Node, nat>, nodes: set<Node>, i: nat) returns (out: map<Node, nat>)
    ensures out.Keys == counts.Keys + nodes
    ensures forall n :: n in out ==> out[n] == if n in nodes then Bumped(CountOf(counts, n), i) else CountOf(counts, n)
  {
    out := counts;
    var rest := nodes;
    while rest != {}
      invariant rest <= nodes && out.Keys == counts.Keys + (nodes - rest)
      invariant forall n :: n in out ==>
        out[n] == if n in nodes - rest then Bumped(CountOf(counts, n), i) else CountOf(counts, n)
      decreases rest
    {
      var n :| n in rest;
      rest := rest - {n};
      out := out[n := Bumped(CountOf(out, n), i)];
    }
  }

  lemma {:induction false} NotNamed(live: seq<set<Node>>, n: Node)
    ensures n !in NamedIn(live) <==> forall i :: 0 <= i < |live| ==> n !in live[i]
  {
    if live != [] { NotNamed(live[..|live| - 1], n); }
  }

  lemma LeadStep(live: seq<set<Node>>, nodes: set<Node>, n: Node, count: nat)
    requires |live| + 1 < U32_RANGE && LeadsBy(live, n, count)
    ensures LeadsBy(live + [nodes], n, if n in nodes then Bumped(count, |live|) else count)
  {
  }

  lemma CountedStep(counts: map<Node, nat>, out: map<Node, nat>, live: seq<set<Node>>, nodes: set<Node>)
    requires |live| + 1 < U32_RANGE && Counted(counts, live)
    requires out.Keys == counts.Keys + nodes
    requires forall n :: n in out ==>
      out[n] == if n in nodes then Bumped(CountOf(counts, n), |live|) else CountOf(counts, n)
    ensures Counted(out, live + [nodes])
  {
    assert (live + [nodes])[..|live|] == live;
    forall n | n in out ensures LeadsBy(live + [nodes], n, out[n]) {
      if n !in counts { NotNamed(live, n); }
      LeadStep(live, nodes, n, CountOf(counts, n));
    }
  }

  function NodeSets(entries: seq<PrefixEntry>): (r: seq<set<Node>>)
    ensures |r| == |entries| && forall i :: 0 <= i < |r| ==> r[i] == entries[i].nodes
  {
    seq(|entries|, i requires 0 <= i < |entries| => entries[i].nodes)
  }

  /** The counting loop of the service. */
  method CountPrefixes(entries: seq<PrefixEntry>) returns (counts: map<Node, nat>)
    ensures |entries| < 0x1_0000_0000 ==> Counted(counts, NodeSets(entries))
  {
    counts := map[];
    ghost var live := NodeSets(entries);
    for i := 0 to |entries|
      invariant |entries| < U32_RANGE ==> Counted(counts, live[..i])
    {
      ghost var before := counts;
      counts := CountEntry(counts, entries[i].nodes, i);
      if |entries| < U32_RANGE {
        CountedStep(before, counts, live[..i], entries[i].nodes);
        assert live[..i + 1] == live[..i] + [entries[i].nodes];
      }
    }
    assert live[..|entries|] == live;
  }

  /** Truncating at the first hash nobody owns loses nothing: each node's prefix is that of the full list. */
  lemma TruncationHarmless(live: seq<set<Node>>, cut: nat, counts: map<Node, nat>)
    requires live != [] && cut <= |live| && (cut < |live| ==> live[cut] == {}) && Counted(counts, live[..cut])
    ensures (set n | n in counts && counts[n] > 0) == live[0]
    ensures forall n :: n in counts ==> LeadsBy(live, n, counts[n])
  {
    forall n | n in counts ensures LeadsBy(live, n, counts[n]) && (counts[n] > 0 <==> n in live[0]) {
      assert LeadsBy(live[..cut], n, counts[n]);
    }
    forall n | n in live[0] ensures n in counts {
      NotNamed(live[..cut], n);
      assert cut > 0 && live[..cut][0] == live[0];
    }
  }

  /** The live owners of every queried hash. */
  ghost function LiveSets(store: BlockHashStore, ns: string, hashes: seq<Hash>, now: Time): (r: seq<set<Node>>)
    reads store
    ensures |r| == |hashes|
    ensures forall i :: 0 <= i < |hashes| ==>
      r[i] == LiveAt(store.blocks, store.nodes, store.config, ns, hashes[i], now)
  {
    seq(|hashes|,
        i requires 0 <= i < |hashes| reads store => LiveAt(store.blocks, store.nodes, store.config, ns, hashes[i], now))
  }

  /**
   Exactly the nodes that own the first hash are listed, each with the length of its own longest
   prefix of the full list.
   */
  method QueryPrefixBlocks(store: BlockHashStore, ns: string, hashes: seq<Hash>, now: Time)
    returns (r: Result<map<Node, nat>, QueryError>)
    ensures r.Err? <==> hashes == []
    ensures r.Ok? && |hashes| < 0x1_0000_0000 ==>
      var live := LiveSets(store, ns, hashes, now);
      r.value.Keys == live[0] && forall n :: n in r.value ==> LeadsBy(live, n, r.value[n])
  {
    if hashes == [] {
      return Err(EmptyRequest);
    }
    var existing := store.QueryPrefix(ns, hashes, now);
    var counts := CountPrefixes(existing);
    var nodes := map n | n in counts && counts[n] > 0 :: counts[n];
    if |hashes| < U32_RANGE {
      ghost var live := LiveSets(store, ns, hashes, now);
      assert live[..|existing|] == NodeSets(existing);
      TruncationHarmless(live, |existing|, counts);
      assert nodes.Keys == set n | n in counts && counts[n] > 0;
    }
    r := Ok(nodes);
  }
}
