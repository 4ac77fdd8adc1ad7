/**
 The MetaServer's block hash store (pegaflow-metaserver/src/store.rs): which node
 owns which block, under which session, and when records go away.
 */
module MetaStore {
  import opened Prelude
  import opened InsertEntries

  type Node = string

  /** A session id, drawn afresh by every process that serves a node URL. */
  type Session = nat

  type Time = nat

  datatype Owner = Owner(session: Session, at: Time)

  datatype NodeRecord = NodeRecord(session: Session, seen: Time)

  datatype Config = Config(stale: nat, ttl: nat)

  datatype StoreError = UnknownNode | StaleSession

  type Owners = map<Node, Owner>
  type BlockMap = map<BlockKey, Owners>
  type Nodes = map<Node, NodeRecord>

  /** Elapsed time, zero when the clock readings are out of order. */
  function Since(now: Time, then_: Time): nat { if now >= then_ then now - then_ else 0 }

  function OwnersOf(blocks: BlockMap, k: BlockKey): Owners { if k in blocks then blocks[k] else map[] }

  function OwnerAt(blocks: BlockMap, k: BlockKey, n: Node): Option<Owner> {
    if n in OwnersOf(blocks, k) then Some(OwnersOf(blocks, k)[n]) else None
  }

  function KeySet(ns: string, hashes: seq<Hash>): set<BlockKey> { set h | h in hashes :: BlockKey(ns, h) }

  // ---------------------------------------------------------------------------
  // Sessions
  // ---------------------------------------------------------------------------

  /** A write needs the node's current session. */
  function TouchOutcome(nodes: Nodes, n: Node, s: Session): Result<(), StoreError> {
    if n !in nodes then Err(UnknownNode)
    else if nodes[n].session != s then Err(StaleSession)
    else Ok(())
  }

  /** A heartbeat registers a node, renews its session, or takes over a session that went silent. */
  predicate MayBeat(nodes: Nodes, config: Config, n: Node, s: Session, now: Time) {
    n in nodes ==> nodes[n].session == s || Since(now, nodes[n].seen) > config.stale
  }

  // ---------------------------------------------------------------------------
  // Ownership
  // ---------------------------------------------------------------------------

  function Inserted(blocks: BlockMap, keys: set<BlockKey>, n: Node, owner: Owner): BlockMap {
    map k | k in blocks.Keys + keys :: if k in keys then OwnersOf(blocks, k)[n := owner] else blocks[k]
  }

  predicate Owns(owners: Owners, n: Node, s: Session) { n in owners && owners[n].session == s }

  function WithoutOwn(owners: Owners, n: Node, s: Session): Owners {
    if Owns(owners, n, s) then owners - {n} else owners
  }

  /** Drop a session's ownership of some keys; of those keys, the ownerless ones go. */
  function Removed(blocks: BlockMap, keys: set<BlockKey>, n: Node, s: Session): BlockMap {
    map k | k in blocks && (k in keys ==> WithoutOwn(blocks[k], n, s) != map[]) ::
      if k in keys then WithoutOwn(blocks[k], n, s) else blocks[k]
  }

  function OwnedKeys(blocks: BlockMap, keys: set<BlockKey>, n: Node, s: Session): set<BlockKey> {
    set k | k in keys && k in blocks && Owns(blocks[k], n, s)
  }

  lemma GrowSet<X>(a: set<X>, b: set<X>, x: X, grows: bool)
    requires x !in a && forall y :: y in b <==> y in a || (y == x && grows)
    ensures |b| == |a| + (if grows then 1 else 0)
  {
    assert b == if grows then a + {x} else a;
  }

  lemma UnionSize<X>(a: set<X>, b: set<X>, c: set<X>)
    requires (forall x :: x in a ==> x !in b) && forall x :: x in c <==> x in a || x in b
    ensures |c| == |a| + |b|
  {
    assert c == a + b && a !! b;
  }

  lemma KeySetSnoc(ns: string, hashes: seq<Hash>, i: nat)
    requires i < |hashes|
    ensures KeySet(ns, hashes[..i + 1]) == KeySet(ns, hashes[..i]) + {BlockKey(ns, hashes[i])}
  {
    assert hashes[..i + 1] == hashes[..i] + [hashes[i]];
  }

  lemma InsertedStep(blocks: BlockMap, keys: set<BlockKey>, k: BlockKey, n: Node, owner: Owner)
    ensures var before := Inserted(blocks, keys, n, owner);
            Inserted(blocks, keys + {k}, n, owner) == before[k := OwnersOf(before, k)[n := owner]]
  {
    var before := Inserted(blocks, keys, n, owner);
    var after, step := Inserted(blocks, keys + {k}, n, owner), before[k := OwnersOf(before, k)[n := owner]];
    assert after.Keys == step.Keys;
    assert OwnersOf(before, k)[n := owner] == OwnersOf(blocks, k)[n := owner];
  }

  /** Dropping one more key, the way the loop does it. */
  function DroppedKey(blocks: BlockMap, k: BlockKey, n: Node, s: Session): BlockMap {
    if k !in blocks then blocks
    else if WithoutOwn(blocks[k], n, s) == map[] then blocks - {k}
    else blocks[k := WithoutOwn(blocks[k], n, s)]
  }

  lemma RemovedStep(blocks: BlockMap, keys: set<BlockKey>, k: BlockKey, n: Node, s: Session)
    ensures Removed(blocks, keys + {k}, n, s) == DroppedKey(Removed(blocks, keys, n, s), k, n, s)
  {
    var before := Removed(blocks, keys, n, s);
    var after, step := Removed(blocks, keys + {k}, n, s), DroppedKey(before, k, n, s);
    assert after.Keys == step.Keys;
    assert forall j :: j in after ==> after[j] == step[j];
  }

  lemma OwnedStep(blocks: BlockMap, keys: set<BlockKey>, k: BlockKey, n: Node, s: Session)
    ensures |OwnedKeys(blocks, keys + {k}, n, s)|
         == |OwnedKeys(blocks, keys, n, s)| + (if Owns(OwnersOf(Removed(blocks, keys, n, s), k), n, s) then 1 else 0)
  {
    if k in keys {
      assert keys + {k} == keys;
      assert !Owns(OwnersOf(Removed(blocks, keys, n, s), k), n, s);
    } else {
      GrowSet(OwnedKeys(blocks, keys, n, s), OwnedKeys(blocks, keys + {k}, n, s), k,
              k in blocks && Owns(blocks[k], n, s));
    }
  }

  // ---------------------------------------------------------------------------
  // Visibility
  // ---------------------------------------------------------------------------

  /** The record survives a sweep. */
  predicate Keep(nodes: Nodes, config: Config, n: Node, owner: Owner, now: Time) {
    n in nodes && Since(now, owner.at) <= config.ttl && Since(now, nodes[n].seen) <= config.ttl
  }

  /** The record shows up in queries. */
  predicate Visible(nodes: Nodes, config: Config, n: Node, owner: Owner, now: Time) {
    n in nodes && nodes[n].session == owner.session && Since(now, nodes[n].seen) <= config.stale
  }

  function LiveOwners(nodes: Nodes, config: Config, owners: Owners, now: Time): set<Node> {
    set n | n in owners && Visible(nodes, config, n, owners[n], now)
  }

  datatype PrefixEntry = PrefixEntry(hash: Hash, nodes: set<Node>)

  /** The live owners of a hash. */
  function LiveAt(blocks: BlockMap, nodes: Nodes, config: Config, ns: string, h: Hash, now: Time): set<Node> {
    LiveOwners(nodes, config, OwnersOf(blocks, BlockKey(ns, h)), now)
  }

  // ---------------------------------------------------------------------------
  // Sweeping
  // ---------------------------------------------------------------------------

  function KeptOwners(nodes: Nodes, config: Config, owners: Owners, now: Time): Owners {
    map n | n in owners && Keep(nodes, config, n, owners[n], now) :: owners[n]
  }

  function SweptBlocks(blocks: BlockMap, nodes: Nodes, config: Config, now: Time): BlockMap {
    map k | k in blocks && KeptOwners(nodes, config, blocks[k],
                                      now) != map[] :: KeptOwners(nodes, config, blocks[k], now)
  }

  function SweptNodes(nodes: Nodes, config: Config, now: Time): Nodes {
    map n | n in nodes && Since(now, nodes[n].seen) <= config.ttl :: nodes[n]
  }

  datatype SweepStats = SweepStats(owners: nat, keys: nat, nodes: nat)

  datatype Snapshot = Snapshot(one: nat, two: nat, three: nat, more: nat, copies: nat)
  {
    function Record(visible: nat): Snapshot {
      var next := this.(copies := copies + visible);
      if visible == 0 then next
      else if visible == 1 then next.(one := one + 1)
      else if visible == 2 then next.(two := two + 1)
      else if visible == 3 then next.(three := three + 1)
      else next.(more := more + 1)
    }
  }

  const EMPTY_SNAPSHOT := Snapshot(0, 0, 0, 0, 0)

  /** All (key, node) ownership pairs. */
  function Pairs(blocks: BlockMap): set<(BlockKey, Node)> {
    set k, n | k in blocks && n in blocks[k] :: (k, n)
  }

  /** All pairs a query at `now` would show. */
  function LivePairs(blocks: BlockMap, nodes: Nodes, config: Config, now: Time): set<(BlockKey, Node)> {
    set k, n | k in blocks && n in LiveOwners(nodes, config, blocks[k], now) :: (k, n)
  }

  /** Keys with exactly `c` live owners, and keys with at least `c`. */
  function KeysWith(blocks: BlockMap, nodes: Nodes, config: Config, now: Time, c: nat): set<BlockKey> {
    set k | k in blocks && |LiveOwners(nodes, config, blocks[k], now)| == c
  }

  function KeysFrom(blocks: BlockMap, nodes: Nodes, config: Config, now: Time, c: nat): set<BlockKey> {
    set k | k in blocks && |LiveOwners(nodes, config, blocks[k], now)| >= c
  }

  /** The snapshot counts exactly what queries at `now` would show. */
  predicate SnapshotOf(s: Snapshot, blocks: BlockMap, nodes: Nodes, config: Config, now: Time) {
    && s.one == |KeysWith(blocks, nodes, config, now, 1)|
    && s.two == |KeysWith(blocks, nodes, config, now, 2)|
    && s.three == |KeysWith(blocks, nodes, config, now, 3)|
    && s.more == |KeysFrom(blocks, nodes, config, now, 4)|
    && s.copies == |LivePairs(blocks, nodes, config, now)|
  }

  lemma {:induction false} PairedSize(k: BlockKey, ns: set<Node>)
    ensures |set n | n in ns :: (k, n)| == |ns|
  {
    if n :| n in ns {
      PairedSize(k, ns - {n});
      assert (set m | m in ns :: (k, m)) == (set m | m in ns - {n} :: (k, m)) + {(k, n)};
    } else {
      assert (set m | m in ns :: (k, m)) == {};
    }
  }

  lemma {:induction false} KeyedSize(keys: set<BlockKey>, n: Node)
    ensures |set k | k in keys :: (k, n)| == |keys|
  {
    if k :| k in keys {
      KeyedSize(keys - {k}, n);
      assert (set j | j in keys :: (j, n)) == (set j | j in keys - {k} :: (j, n)) + {(k, n)};
    } else {
      assert (set j | j in keys :: (j, n)) == {};
    }
  }

  /** A removal takes away one ownership record per key it counts, and no other. */
  lemma RemovedCount(blocks: BlockMap, keys: set<BlockKey>, n: Node, s: Session)
    ensures |Pairs(Removed(blocks, keys, n, s))| + |OwnedKeys(blocks, keys, n, s)| == |Pairs(blocks)|
  {
    var after, gone := Pairs(Removed(blocks, keys, n, s)), set k | k in OwnedKeys(blocks, keys, n, s) :: (k, n);
    KeyedSize(OwnedKeys(blocks, keys, n, s), n);
    forall p ensures p in Pairs(blocks) <==> p in after || p in gone {
      if p.0 in blocks && p.0 in keys {
        assert p.1 in WithoutOwn(blocks[p.0], n, s) ==> WithoutOwn(blocks[p.0], n, s) != map[];
      }
    }
    UnionSize(after, gone, Pairs(blocks));
  }

  /** Adding a key adds its owners to the pairs. */
  lemma PairsAdd(blocks: BlockMap, k: BlockKey, owners: Owners)
    requires k !in blocks
    ensures |Pairs(blocks[k := owners])| == |Pairs(blocks)| + |owners|
  {
    PairedSize(k, owners.Keys);
    var mine := set n | n in owners.Keys :: (k, n);
    var after := blocks[k := owners];
    forall p ensures p in Pairs(after) <==> p in Pairs(blocks) || p in mine {
      assert p.0 in after ==> after[p.0] == if p.0 == k then owners else blocks[p.0];
    }
    UnionSize(Pairs(blocks), mine, Pairs(after));
  }

  lemma LivePairsAdd(blocks: BlockMap, nodes: Nodes, config: Config, now: Time, k: BlockKey, owners: Owners)
    requires k !in blocks
    ensures |LivePairs(blocks[k := owners], nodes, config, now)|
         == |LivePairs(blocks, nodes, config, now)| + |LiveOwners(nodes, config, owners, now)|
  {
    var live := LiveOwners(nodes, config, owners, now);
    PairedSize(k, live);
    var mine := set n | n in live :: (k, n);
    var after := blocks[k := owners];
    var all, before := LivePairs(after, nodes, config, now), LivePairs(blocks, nodes, config, now);
    forall p ensures p in all <==> p in before || p in mine {
      assert p.0 in after ==> after[p.0] == if p.0 == k then owners else blocks[p.0];
    }
    UnionSize(before, mine, all);
  }

  lemma KeysWithAdd(blocks: BlockMap, nodes: Nodes, config: Config, now: Time, k: BlockKey, owners: Owners, c: nat)
    requires k !in blocks
    ensures |KeysWith(blocks[k := owners], nodes, config, now, c)|
         == |KeysWith(blocks, nodes, config, now, c)| + (if |LiveOwners(nodes, config, owners, now)| == c then 1 else 0)
    ensures |KeysFrom(blocks[k := owners], nodes, config, now, c)|
         == |KeysFrom(blocks, nodes, config, now, c)| + (if |LiveOwners(nodes, config, owners, now)| >= c then 1 else 0)
  {
    var live := |LiveOwners(nodes, config, owners, now)|;
    var after := blocks[k := owners];
    forall j
      ensures j in KeysWith(after, nodes, config, now, c)
         <==> j in KeysWith(blocks, nodes, config, now, c) || (j == k && live == c)
      ensures j in KeysFrom(after, nodes, config, now, c)
         <==> j in KeysFrom(blocks, nodes, config, now, c) || (j == k && live >= c)
    {
      assert j in after ==> after[j] == if j == k then owners else blocks[j];
    }
    GrowSet(KeysWith(blocks, nodes, config, now, c), KeysWith(after, nodes, config, now, c), k, live == c);
    GrowSet(KeysFrom(blocks, nodes, config, now, c), KeysFrom(after, nodes, config, now, c), k, live >= c);
  }

  /** Recording one key keeps the snapshot exact. */
  lemma SnapshotAdd(s: Snapshot, blocks: BlockMap, nodes: Nodes, config: Config, now: Time, k: BlockKey, owners: Owners)
    requires SnapshotOf(s, blocks, nodes, config, now) && k !in blocks
    ensures SnapshotOf(s.Record(|LiveOwners(nodes, config, owners, now)|), blocks[k := owners], nodes, config, now)
  {
    LivePairsAdd(blocks, nodes, config, now, k, owners);
    KeysWithAdd(blocks, nodes, config, now, k, owners, 1);
    KeysWithAdd(blocks, nodes, config, now, k, owners, 2);
    KeysWithAdd(blocks, nodes, config, now, k, owners, 3);
    KeysWithAdd(blocks, nodes, config, now, k, owners, 4);
  }

  /** Retain the owners of one key, counting the live ones. */
  method RetainOwners(owners: Owners, nodes: Nodes, config: Config, now: Time) returns (kept: Owners, visible: nat)
    ensures kept == KeptOwners(nodes, config, owners, now)
    ensures visible == |LiveOwners(nodes, config, kept, now)|
  {
    kept, visible := map[], 0;
    var rest := owners.Keys;
    while rest != {}
      invariant rest <= owners.Keys
      invariant kept == map n | n in owners && n !in rest && Keep(nodes, config, n, owners[n], now) :: owners[n]
      invariant visible == |LiveOwners(nodes, config, kept, now)|
      decreases rest
    {
      var n :| n in rest;
      rest := rest - {n};
      if Keep(nodes, config, n, owners[n], now) {
        ghost var before := LiveOwners(nodes, config, kept, now);
        if Visible(nodes, config, n, owners[n], now) {
          assert LiveOwners(nodes, config, kept[n := owners[n]], now) == before + {n};
          visible := visible + 1;
        } else {
          assert LiveOwners(nodes, config, kept[n := owners[n]], now) == before;
        }
        kept := kept[n := owners[n]];
      }
    }
  }

  /** The part of a store already visited by a walk. */
  function Visited(blocks: BlockMap, rest: set<BlockKey>): BlockMap { map k | k in blocks && k !in rest :: blocks[k] }

  lemma VisitedStep(blocks: BlockMap, rest: set<BlockKey>, k: BlockKey)
    requires k in rest && k in blocks
    ensures k !in Visited(blocks, rest) && Visited(blocks, rest - {k}) == Visited(blocks, rest)[k := blocks[k]]
  {
  }

  lemma SweptStep(blocks: BlockMap, nodes: Nodes, config: Config, now: Time, k: BlockKey, owners: Owners)
    requires k !in blocks
    ensures var before, kept := SweptBlocks(blocks, nodes, config, now), KeptOwners(nodes, config, owners, now);
            && k !in before
            && SweptBlocks(blocks[k := owners], nodes, config, now)
              == if kept == map[] then before else before[k := kept]
  {
    var before, kept := SweptBlocks(blocks, nodes, config, now), KeptOwners(nodes, config, owners, now);
    var after, step := SweptBlocks(blocks[k := owners], nodes, config,
                                   now), if kept == map[] then before else before[k := kept];
    forall j ensures j in after <==> j in step {
    }
    assert after.Keys == step.Keys;
    assert forall j :: j in after ==> after[j] == step[j];
  }

  lemma SubmapSmaller<K, V>(a: map<K, V>, b: map<K, V>)
    requires forall k :: k in a ==> k in b
    ensures |a| <= |b|
  {
    assert |a.Keys| <= |b.Keys| by {
      SubsetSize(a.Keys, b.Keys);
    }
  }

  lemma EmptySnapshot(nodes: Nodes, config: Config, now: Time)
    ensures SnapshotOf(EMPTY_SNAPSHOT, map[], nodes, config, now) && Pairs(map[]) == {}
    ensures SweptBlocks(map[], nodes, config, now) == map[]
  {
    assert KeysFrom(map[], nodes, config, now, 4) == {} && LivePairs(map[], nodes, config, now) == {};
    assert forall c: nat :: KeysWith(map[], nodes, config, now, c) == {};
  }

  /** Walk the keys: retain owners, drop ownerless keys, count what went and what is live. */
  method RetainBlocks(blocks: BlockMap, nodes: Nodes, config: Config, now: Time)
    returns (out: BlockMap, owners: nat, keys: nat, snapshot: Snapshot)
    ensures out == SweptBlocks(blocks, nodes, config, now)
    ensures owners == |Pairs(blocks)| - |Pairs(out)| && keys == |blocks| - |out|
    ensures SnapshotOf(snapshot, out, nodes, config, now)
  {
    out, owners, keys, snapshot := map[], 0, 0, EMPTY_SNAPSHOT;
    var rest := blocks.Keys;
    EmptySnapshot(nodes, config, now);
    assert Visited(blocks, rest) == map[];
    while rest != {}
      invariant rest <= blocks.Keys
      invariant out == SweptBlocks(Visited(blocks, rest), nodes, config, now)
      invariant owners == |Pairs(Visited(blocks, rest))| - |Pairs(out)| && keys == |Visited(blocks, rest)| - |out|
      invariant SnapshotOf(snapshot, out, nodes, config, now)
      decreases rest
    {
      var k :| k in rest;
      VisitedStep(blocks, rest, k);
      SweptStep(Visited(blocks, rest), nodes, config, now, k, blocks[k]);
      PairsAdd(Visited(blocks, rest), k, blocks[k]);
      rest := rest - {k};
      var kept, visible := RetainOwners(blocks[k], nodes, config, now);
      SubmapSmaller(kept, blocks[k]);
      owners := owners + (|blocks[k]| - |kept|);
      if kept == map[] {
        keys := keys + 1;
      } else {
        SnapshotAdd(snapshot, out, nodes, config, now, k, kept);
        PairsAdd(out, k, kept);
        snapshot := snapshot.Record(visible);
        out := out[k := kept];
      }
    }
    assert Visited(blocks, {}) == blocks;
  }

  /** Drop nodes that have been silent for longer than the TTL. */
  method RetainNodes(nodes: Nodes, config: Config, now: Time) returns (out: Nodes)
    ensures out == SweptNodes(nodes, config, now)
    ensures |out| <= |nodes|
  {
    out := map[];
    var rest := nodes.Keys;
    while rest != {}
      invariant rest <= nodes.Keys
      invariant out == map n | n in nodes && n !in rest && Since(now, nodes[n].seen) <= config.ttl :: nodes[n]
      decreases rest
    {
      var n :| n in rest;
      rest := rest - {n};
      if Since(now, nodes[n].seen) <= config.ttl {
        out := out[n := nodes[n]];
      }
    }
    SubmapSmaller(out, nodes);
  }

  lemma PurgedStep(blocks: BlockMap, k: BlockKey, owners: Owners, n: Node, s: Session)
    requires k !in blocks
    ensures var before, left := Removed(blocks, blocks.Keys, n, s), WithoutOwn(owners, n, s);
            && k !in before
            && Removed(blocks[k := owners], blocks[k := owners].Keys, n, s)
              == if left == map[] then before else before[k := left]
    ensures |OwnedKeys(blocks[k := owners], blocks[k := owners].Keys, n, s)|
         == |OwnedKeys(blocks, blocks.Keys, n, s)| + (if Owns(owners, n, s) then 1 else 0)
  {
    var wider := blocks[k := owners];
    var before, left := Removed(blocks, blocks.Keys, n, s), WithoutOwn(owners, n, s);
    var after, step := Removed(wider, wider.Keys, n, s), if left == map[] then before else before[k := left];
    forall j ensures j in after <==> j in step {
    }
    assert after.Keys == step.Keys;
    assert forall j :: j in after ==> after[j] == step[j];
    GrowSet(OwnedKeys(blocks, blocks.Keys, n, s), OwnedKeys(wider, wider.Keys, n, s), k, Owns(owners, n, s));
  }

  /** Drop a session's records from every key. */
  method RemoveNodeOwners(blocks: BlockMap, n: Node, s: Session) returns (out: BlockMap, removed: nat)
    ensures out == Removed(blocks, blocks.Keys, n, s)
    ensures removed == |OwnedKeys(blocks, blocks.Keys, n, s)|
  {
    out, removed := map[], 0;
    var rest := blocks.Keys;
    assert Visited(blocks, rest) == map[] && OwnedKeys(map[], {}, n, s) == {};
    while rest != {}
      invariant rest <= blocks.Keys
      invariant out == Removed(Visited(blocks, rest), Visited(blocks, rest).Keys, n, s)
      invariant removed == |OwnedKeys(Visited(blocks, rest), Visited(blocks, rest).Keys, n, s)|
      decreases rest
    {
      var k :| k in rest;
      VisitedStep(blocks, rest, k);
      PurgedStep(Visited(blocks, rest), k, blocks[k], n, s);
      rest := rest - {k};
      var owners := blocks[k];
      if Owns(owners, n, s) {
        owners := owners - {n};
        removed := removed + 1;
      }
      if owners != map[] {
        out := out[k := owners];
      }
    }
    assert Visited(blocks, {}) == blocks;
  }

  /** One key of a removal: drop the session's own record, then the key if nobody is left. */
  method DropKey(blocks: BlockMap, k: BlockKey, n: Node, s: Session) returns (out: BlockMap, dropped: bool)
    ensures out == DroppedKey(blocks, k, n, s)
    ensures dropped <==> Owns(OwnersOf(blocks, k), n, s)
  {
    out, dropped := blocks, false;
    if k in blocks {
      var owners := blocks[k];
      if Owns(owners, n, s) {
        owners := owners - {n};
        dropped := true;
      }
      out := out[k := owners];
      if owners == map[] {
        out := out - {k};
      }
    }
  }

  /** The store as the server runs it. Clock readings are passed in. */
  class BlockHashStore {
    const config: Config
    var blocks: BlockMap
    var nodes: Nodes
    var snapshot: Snapshot

    constructor (config: Config)
      ensures this.config == config && blocks == map[] && nodes == map[] && snapshot == EMPTY_SNAPSHOT
    {
      this.config := config;
      blocks, nodes, snapshot := map[], map[], EMPTY_SNAPSHOT;
    }

    method Heartbeat(n: Node, s: Session, now: Time) returns (r: Result<(), StoreError>)
      modifies this`nodes
      ensures r == if MayBeat(old(nodes), config, n, s, now) then Ok(()) else Err(StaleSession)
      ensures r.Err? <==>
              n in old(nodes) && old(nodes)[n].session != s && now <= old(nodes)[n].seen + config.stale
      ensures nodes == if r.Ok? then old(nodes)[n := NodeRecord(s, now)] else old(nodes)
    {
      if n in nodes {
        var same, stale := nodes[n].session == s, Since(now, nodes[n].seen) > config.stale;
        if !same && !stale {
          return Err(StaleSession);
        }
      }
      nodes := nodes[n := NodeRecord(s, now)];
      return Ok(());
    }

    method TouchSession(n: Node, s: Session, now: Time) returns (r: Result<(), StoreError>)
      modifies this`nodes
      ensures r == TouchOutcome(old(nodes), n, s)
      ensures r == Err(UnknownNode) <==> n !in old(nodes)
      ensures r == Err(StaleSession) <==> n in old(nodes) && old(nodes)[n].session != s
      ensures nodes == if r.Ok? then old(nodes)[n := NodeRecord(s, now)] else old(nodes)
    {
      if n !in nodes {
        return Err(UnknownNode);
      }
      if nodes[n].session != s {
        return Err(StaleSession);
      }
      nodes := nodes[n := nodes[n].(seen := now)];
      return Ok(());
    }

    method Unregister(n: Node, s: Session) returns (r: Result<nat, StoreError>)
      modifies this`nodes, this`blocks
      ensures r == match TouchOutcome(old(nodes), n, s)
                   case Ok(_) => Ok(|OwnedKeys(old(blocks), old(blocks).Keys, n, s)|)
                   case Err(e) => Err(e)
      ensures r == Err(UnknownNode) <==> n !in old(nodes)
      ensures r == Err(StaleSession) <==> n in old(nodes) && old(nodes)[n].session != s
      ensures r.Ok? ==> r.value == |Pairs(old(blocks))| - |Pairs(blocks)|
      ensures nodes == if r.Ok? then old(nodes) - {n} else old(nodes)
      ensures blocks == if r.Ok? then Removed(old(blocks), old(blocks).Keys, n, s) else old(blocks)
    {
      if n !in nodes || nodes[n].session != s {
        return Err(if n in nodes then StaleSession else UnknownNode);
      }
      nodes := nodes - {n};
      RemovedCount(blocks, blocks.Keys, n, s);
      var removed;
      blocks, removed := RemoveNodeOwners(blocks, n, s);
      return Ok(removed);
    }

    /** The session is touched at one clock reading, the records carry a later one. */
    method InsertHashes(ns: string, hashes: seq<Hash>, n: Node, s: Session, touched: Time, now: Time)
      returns (r: Result<nat, StoreError>)
      modifies this`nodes, this`blocks
      ensures r == match TouchOutcome(old(nodes), n, s) case Ok(_) => Ok(|hashes|) case Err(e) => Err(e)
      ensures r == Err(UnknownNode) <==> n !in old(nodes)
      ensures r == Err(StaleSession) <==> n in old(nodes) && old(nodes)[n].session != s
      ensures nodes == if r.Ok? then old(nodes)[n := NodeRecord(s, touched)] else old(nodes)
      ensures blocks == if r.Ok? then Inserted(old(blocks), KeySet(ns, hashes), n, Owner(s, now)) else old(blocks)
    {
      var touch := TouchSession(n, s, touched);
      if touch.Err? {
        return Err(touch.error);
      }
      ghost var before := blocks;
      assert KeySet(ns, hashes[..0]) == {} && Inserted(before, {}, n, Owner(s, now)) == before;
      for i := 0 to |hashes|
        invariant nodes == old(nodes)[n := NodeRecord(s, touched)]
        invariant blocks == Inserted(before, KeySet(ns, hashes[..i]), n, Owner(s, now))
      {
        var k := BlockKey(ns, hashes[i]);
        KeySetSnoc(ns, hashes, i);
        InsertedStep(before, KeySet(ns, hashes[..i]), k, n, Owner(s, now));
        blocks := blocks[k := OwnersOf(blocks, k)[n := Owner(s, now)]];
      }
      assert hashes[..|hashes|] == hashes;
      return Ok(|hashes|);
    }

    method RemoveHashes(ns: string, hashes: seq<Hash>, n: Node, s: Session, now: Time)
      returns (r: Result<nat, StoreError>)
      modifies this`nodes, this`blocks
      ensures r == match TouchOutcome(old(nodes), n, s)
                   case Ok(_) => Ok(|OwnedKeys(old(blocks), KeySet(ns, hashes), n, s)|)
                   case Err(e) => Err(e)
      ensures r == Err(UnknownNode) <==> n !in old(nodes)
      ensures r == Err(StaleSession) <==> n in old(nodes) && old(nodes)[n].session != s
      ensures r.Ok? ==> r.value == |Pairs(old(blocks))| - |Pairs(blocks)|
      ensures nodes == if r.Ok? then old(nodes)[n := NodeRecord(s, now)] else old(nodes)
      ensures blocks == if r.Ok? then Removed(old(blocks), KeySet(ns, hashes), n, s) else old(blocks)
    {
      var touch := TouchSession(n, s, now);
      if touch.Err? {
        return Err(touch.error);
      }
      var removed := 0;
      ghost var before := blocks;
      assert KeySet(ns, hashes[..0]) == {} && Removed(before, {}, n, s) == before && OwnedKeys(before, {}, n, s) == {};
      for i := 0 to |hashes|
        invariant nodes == old(nodes)[n := NodeRecord(s, now)]
        invariant blocks == Removed(before, KeySet(ns, hashes[..i]), n, s)
        invariant removed == |OwnedKeys(before, KeySet(ns, hashes[..i]), n, s)|
      {
        var k := BlockKey(ns, hashes[i]);
        KeySetSnoc(ns, hashes, i);
        RemovedStep(before, KeySet(ns, hashes[..i]), k, n, s);
        OwnedStep(before, KeySet(ns, hashes[..i]), k, n, s);
        var dropped;
        blocks, dropped := DropKey(blocks, k, n, s);
        if dropped {
          removed := removed + 1;
        }
      }
      assert hashes[..|hashes|] == hashes;
      RemovedCount(before, KeySet(ns, hashes), n, s);
      return Ok(removed);
    }

    /** The longest prefix of the hashes with at least one live owner each. */
    method QueryPrefix(ns: string, hashes: seq<Hash>, now: Time) returns (r: seq<PrefixEntry>)
      ensures |r| <= |hashes|
      ensures forall i :: 0 <= i < |r| ==>
        r[i] == PrefixEntry(hashes[i], LiveAt(blocks, nodes, config, ns, hashes[i], now)) && r[i].nodes != {}
      ensures |r| < |hashes| ==> LiveAt(blocks, nodes, config, ns, hashes[|r|], now) == {}
    {
      r := [];
      for i := 0 to |hashes|
        invariant |r| == i
        invariant forall j :: 0 <= j < i ==>
          r[j] == PrefixEntry(hashes[j], LiveAt(blocks, nodes, config, ns, hashes[j], now)) && r[j].nodes != {}
      {
        var k := BlockKey(ns, hashes[i]);
        if k !in blocks {
          return;
        }
        var live := LiveOwners(nodes, config, blocks[k], now);
        if live == {} {
          return;
        }
        r := r + [PrefixEntry(hashes[i], live)];
      }
    }

    method SweepExpired(now: Time) returns (stats: SweepStats)
      modifies this
      ensures blocks == SweptBlocks(old(blocks), old(nodes), config, now)
      ensures nodes == SweptNodes(old(nodes), config, now)
      ensures SnapshotOf(snapshot, blocks, nodes, config, now)
      ensures stats.owners == |Pairs(old(blocks))| - |Pairs(blocks)|
      ensures stats.keys == |old(blocks)| - |blocks| && stats.nodes == |old(nodes)| - |nodes|
    {
      var out, owners, keys, counted := RetainBlocks(blocks, nodes, config, now);
      var left := RetainNodes(nodes, config, now);
      SnapshotAfterNodes(counted, blocks, nodes, config, now);
      stats := SweepStats(owners, keys, |nodes| - |left|);
      blocks, nodes, snapshot := out, left, counted;
    }
  }

  /** Swept nodes show the surviving owners exactly as before the node walk. */
  lemma SnapshotAfterNodes(s: Snapshot, blocks: BlockMap, nodes: Nodes, config: Config, now: Time)
    requires SnapshotOf(s, SweptBlocks(blocks, nodes, config, now), nodes, config, now)
    ensures SnapshotOf(s, SweptBlocks(blocks, nodes, config, now), SweptNodes(nodes, config, now), config, now)
  {
    var out, left := SweptBlocks(blocks, nodes, config, now), SweptNodes(nodes, config, now);
    forall k | k in out ensures LiveOwners(left, config, out[k], now) == LiveOwners(nodes, config, out[k], now) {
    }
    assert forall c: nat :: KeysWith(out, left, config, now, c) == KeysWith(out, nodes, config, now, c);
    assert KeysFrom(out, left, config, now, 4) == KeysFrom(out, nodes, config, now, 4);
    assert LivePairs(out, left, config, now) == LivePairs(out, nodes, config, now);
  }

  /**
   What is left after a sweep: exactly the owners whose own age and whose node's
   age are within the TTL; every owner has its node and every key an owner; and
   a second sweep at the same time changes nothing.
   */
  lemma SweepExact(blocks: BlockMap, nodes: Nodes, config: Config, now: Time)
    ensures var out, left := SweptBlocks(blocks, nodes, config, now), SweptNodes(nodes, config, now);
            && (forall k, n, o :: OwnerAt(out, k, n) == Some(o) <==>
                  && OwnerAt(blocks, k, n) == Some(o) && n in nodes
                  && now <= o.at + config.ttl && now <= nodes[n].seen + config.ttl)
            && (forall n, x :: n in left && left[n] == x <==> n in nodes && nodes[n] == x && now <= x.seen + config.ttl)
            && (forall k :: k in out ==> out[k] != map[])
            && (forall k, n :: k in out && n in out[k] ==> n in left)
            && SweptBlocks(out, left, config, now) == out && SweptNodes(left, config, now) == left
  {
    var out, left := SweptBlocks(blocks, nodes, config, now), SweptNodes(nodes, config, now);
    forall k, n, o
      ensures OwnerAt(out, k, n) == Some(o) <==>
        && OwnerAt(blocks, k, n) == Some(o) && n in nodes
        && now <= o.at + config.ttl && now <= nodes[n].seen + config.ttl
    {
      if OwnerAt(blocks, k, n) == Some(o) && Keep(nodes, config, n, o, now) {
        assert n in KeptOwners(nodes, config, blocks[k], now);
      }
    }
    forall k | k in out ensures KeptOwners(left, config, out[k], now) == out[k] {
    }
    assert SweptBlocks(out, left, config, now).Keys == out.Keys;
    assert SweptBlocks(out, left, config, now) == out;
  }
}
