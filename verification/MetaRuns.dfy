/**
 Runs of the MetaServer (pegaflow-metaserver/src/store.rs): every RPC and every
 sweep is one step, the clock never goes back, and what holds is stated over
 whole histories.
 */
module MetaRuns {
  import opened Prelude
  import opened InsertEntries
  import opened MetaStore

  datatype State = State(blocks: BlockMap, nodes: Nodes)

  datatype Op =
    | Beat(node: Node, session: Session)
    | Insert(node: Node, session: Session, ns: string, hashes: seq<Hash>)
    | Remove(node: Node, session: Session, ns: string, hashes: seq<Hash>)
    | Unregister(node: Node, session: Session)
    | Sweep

  /** An operation reads the clock at `at`; an insert reads it again, at `done`, for its records. */
  datatype Event = Event(op: Op, at: Time, done: Time)

  predicate Accepts(config: Config, st: State, e: Event) {
    match e.op
    case Beat(n, s) => MayBeat(st.nodes, config, n, s, e.at)
    case Insert(n, s, _, _) => TouchOutcome(st.nodes, n, s).Ok?
    case Remove(n, s, _, _) => TouchOutcome(st.nodes, n, s).Ok?
    case Unregister(n, s) => TouchOutcome(st.nodes, n, s).Ok?
    case Sweep => true
  }

  function Step(config: Config, st: State, e: Event): State {
    if !Accepts(config, st, e) then st
    else match e.op
      case Beat(n, s) => st.(nodes := st.nodes[n := NodeRecord(s, e.at)])
      case Insert(n, s, ns, hashes) =>
        State(Inserted(st.blocks, KeySet(ns, hashes), n, Owner(s, e.done)), st.nodes[n := NodeRecord(s, e.at)])
      case Remove(n, s, ns, hashes) =>
        State(Removed(st.blocks, KeySet(ns, hashes), n, s), st.nodes[n := NodeRecord(s, e.at)])
      case Unregister(n, s) => State(Removed(st.blocks, st.blocks.Keys, n, s), st.nodes - {n})
      case Sweep => State(SweptBlocks(st.blocks, st.nodes, config, e.at), SweptNodes(st.nodes, config, e.at))
  }

  /** The store's methods are these steps. */
  method Execute(store: BlockHashStore, e: Event) returns (accepted: bool)
    modifies store
    ensures accepted == Accepts(store.config, old(State(store.blocks, store.nodes)), e)
    ensures State(store.blocks, store.nodes) == Step(store.config, old(State(store.blocks, store.nodes)), e)
  {
    match e.op {
      case Beat(n, s) =>
        var r := store.Heartbeat(n, s, e.at);
        accepted := r.Ok?;
      case Insert(n, s, ns, hashes) =>
        var r := store.InsertHashes(ns, hashes, n, s, e.at, e.done);
        accepted := r.Ok?;
      case Remove(n, s, ns, hashes) =>
        var r := store.RemoveHashes(ns, hashes, n, s, e.at);
        accepted := r.Ok?;
      case Unregister(n, s) =>
        var r := store.Unregister(n, s);
        accepted := r.Ok?;
      case Sweep =>
        var _ := store.SweepExpired(e.at);
        accepted := true;
    }
  }

  /** The state before event `i`. */
  function At(config: Config, es: seq<Event>, i: nat): State
    requires i <= |es|
  {
    if i == 0 then State(map[], map[]) else Step(config, At(config, es, i - 1), es[i - 1])
  }

  function Run(config: Config, es: seq<Event>): State { At(config, es, |es|) }

  /** The clock never goes back. */
  predicate Ordered(es: seq<Event>) {
    && (forall i :: 0 <= i < |es| ==> es[i].at <= es[i].done)
    && (forall i, j :: 0 <= i < j < |es| ==> es[i].done <= es[j].at)
  }

  predicate AcceptedAt(config: Config, es: seq<Event>, i: nat) {
    i < |es| && Accepts(config, At(config, es, i), es[i])
  }

  // ---------------------------------------------------------------------------
  // Sessions exclude each other
  // ---------------------------------------------------------------------------

  /** A heartbeat, insert or remove of a session. */
  predicate Asserts(op: Op, n: Node, s: Session) {
    !op.Sweep? && !op.Unregister? && op.node == n && op.session == s
  }

  /** Event `i` established session `s` and the session has not signed off before event `j`. */
  predicate Holding(config: Config, es: seq<Event>, i: nat, j: nat, n: Node, s: Session) {
    && i < j <= |es| && AcceptedAt(config, es, i) && Asserts(es[i].op, n, s)
    && forall m: nat :: i < m < j ==> !(AcceptedAt(config, es, m) && es[m].op == Unregister(n, s))
  }

  predicate Renews(config: Config, st: State, e: Event, n: Node) {
    Accepts(config, st, e) && !e.op.Sweep? && !e.op.Unregister? && e.op.node == n
  }

  /** What one step does to one node record. */
  lemma StepNode(config: Config, st: State, e: Event, n: Node)
    ensures var after := Step(config, st, e).nodes;
            if Renews(config, st, e, n) then n in after && after[n] == NodeRecord(e.op.session, e.at)
            else if n in st.nodes && !(Accepts(config, st, e) && e.op == Unregister(n, st.nodes[n].session))
                    && !(e.op.Sweep? && e.at > st.nodes[n].seen + config.ttl)
            then n in after && after[n] == st.nodes[n]
            else n !in after
  {
  }

  /** Within the stale window the holder keeps the node. */
  lemma {:induction false} HolderKeepsNode(config: Config, es: seq<Event>, i: nat, j: nat, n: Node, s: Session)
    requires Ordered(es) && config.ttl >= config.stale && Holding(config, es, i, j, n, s)
    requires forall m :: i < m < j ==> es[m].at <= es[i].at + config.stale
    ensures var nodes := At(config, es, j).nodes; n in nodes && nodes[n].session == s && nodes[n].seen >= es[i].at
    decreases j
  {
    StepNode(config, At(config, es, j - 1), es[j - 1], n);
    if j - 1 > i {
      HolderKeepsNode(config, es, i, j - 1, n, s);
      assert !(AcceptedAt(config, es, j - 1) && es[j - 1].op == Unregister(n, s));
    }
  }

  /** A later event of another session on the same node, within the stale window of the holder. */
  predicate Contest(config: Config, es: seq<Event>, i: nat, j: nat, n: Node, s: Session) {
    && Ordered(es) && j < |es| && Holding(config, es, i, j, n, s)
    && !es[j].op.Sweep? && es[j].op.node == n && es[j].op.session != s
    && es[j].at <= es[i].at + config.stale
  }

  /** Every contest is lost: the other session is refused and changes nothing. */
  lemma SessionExclusion(config: Config, es: seq<Event>, i: nat, j: nat, n: Node, s: Session)
    requires config.ttl >= config.stale && Contest(config, es, i, j, n, s)
    ensures !AcceptedAt(config, es, j) && At(config, es, j + 1) == At(config, es, j)
  {
    HolderKeepsNode(config, es, i, j, n, s);
  }

  /** With a TTL below the stale window, a sweep can let another session in early. */
  lemma ShortTtlBreaksExclusion(config: Config) returns (es: seq<Event>, n: Node)
    requires config.ttl < config.stale
    ensures Contest(config, es, 0, 2, n, 0) && AcceptedAt(config, es, 2)
  {
    n := "node";
    var late := config.ttl + 1;
    es := [Event(Beat(n, 0), 0, 0), Event(Sweep, late, late), Event(Beat(n, 1), late, late)];
    assert AcceptedAt(config, es, 0) && At(config, es, 1).nodes[n].seen == 0;
    assert n !in At(config, es, 2).nodes;
  }

  ghost predicate Exclusive(config: Config) {
    forall es: seq<Event>, i: nat, j: nat, n: Node, s: Session :: Contest(config, es, i, j, n, s) ==>
      !AcceptedAt(config, es, j)
  }

  /** The start-up check on the two durations is exactly what exclusion needs. */
  lemma ExclusiveExactly(config: Config)
    ensures Exclusive(config) <==> config.ttl >= config.stale
  {
    if config.ttl >= config.stale {
      forall es: seq<Event>, i: nat, j: nat, n: Node, s: Session | Contest(config, es, i, j, n, s)
        ensures !AcceptedAt(config, es, j)
      {
        SessionExclusion(config, es, i, j, n, s);
      }
    } else {
      var es, n := ShortTtlBreaksExclusion(config);
    }
  }

  lemma HoldingExtends(config: Config, es: seq<Event>, i: nat, j: nat, n: Node, s: Session)
    requires Holding(config, es, i, j, n, s) && j < |es| && !(AcceptedAt(config, es, j) && es[j].op == Unregister(n, s))
    ensures Holding(config, es, i, j + 1, n, s)
  {
  }

  /** Every node record goes back to the event that last renewed it. */
  lemma {:induction false} RecordOrigin(config: Config, es: seq<Event>, j: nat, n: Node) returns (i: nat)
    requires j <= |es| && n in At(config, es, j).nodes
    ensures var record := At(config, es, j).nodes[n];
            Holding(config, es, i, j, n, record.session) && es[i].at == record.seen
    decreases j
  {
    var before := At(config, es, j - 1);
    var e := es[j - 1];
    StepNode(config, before, e, n);
    if Renews(config, before, e, n) {
      i := j - 1;
    } else {
      i := RecordOrigin(config, es, j - 1, n);
      HoldingExtends(config, es, i, j - 1, n, before.nodes[n].session);
    }
  }

  /**
   When a heartbeat is refused, over every run: exactly when another session
   asserted itself within the stale window and has not unregistered since.
   */
  lemma HeartbeatRefusedExactly(config: Config, es: seq<Event>, j: nat, n: Node, s: Session)
    requires Ordered(es) && config.ttl >= config.stale && j < |es| && es[j].op == Beat(n, s)
    ensures !AcceptedAt(config, es, j) <==> exists i: nat, t: Session :: t != s && Contest(config, es, i, j, n, t)
  {
    if i: nat, t: Session :| t != s && Contest(config, es, i, j, n, t) {
      SessionExclusion(config, es, i, j, n, t);
    }
    if !AcceptedAt(config, es, j) {
      var record := At(config, es, j).nodes[n];
      var i := RecordOrigin(config, es, j, n);
      assert Contest(config, es, i, j, n, record.session);
    }
  }

  // ---------------------------------------------------------------------------
  // Ownership
  // ---------------------------------------------------------------------------

  /** What one step does to one ownership record. */
  function OwnerAfter(config: Config, st: State, e: Event, k: BlockKey, n: Node): Option<Owner> {
    var now := OwnerAt(st.blocks, k, n);
    if !Accepts(config, st, e) then now
    else match e.op
      case Beat(_, _) => now
      case Insert(m, s, ns, hashes) => if m == n && k in KeySet(ns, hashes) then Some(Owner(s, e.done)) else now
      case Remove(m, s, ns, hashes) =>
        if m == n && k in KeySet(ns, hashes) && now.Some? && now.value.session == s then None else now
      case Unregister(m, s) => if m == n && now.Some? && now.value.session == s then None else now
      case Sweep => if now.Some? && !Keep(st.nodes, config, n, now.value, e.at) then None else now
  }

  lemma RemovedOwner(blocks: BlockMap, keys: set<BlockKey>, m: Node, s: Session, k: BlockKey, n: Node)
    ensures var owner := OwnerAt(blocks, k, n);
            OwnerAt(Removed(blocks, keys, m, s), k, n) ==
              if m == n && k in keys && owner.Some? && owner.value.session == s then None else owner
  {
    if k in blocks && k in keys {
      var left := WithoutOwn(blocks[k], m, s);
      assert n in left ==> left != map[];
    }
  }

  lemma SweptOwner(blocks: BlockMap, nodes: Nodes, config: Config, now: Time, k: BlockKey, n: Node)
    ensures var owner := OwnerAt(blocks, k, n);
            OwnerAt(SweptBlocks(blocks, nodes, config, now), k, n) ==
              if owner.Some? && !Keep(nodes, config, n, owner.value, now) then None else owner
  {
    if k in blocks {
      var kept := KeptOwners(nodes, config, blocks[k], now);
      assert n in kept ==> kept != map[];
    }
  }

  lemma StepOwner(config: Config, st: State, e: Event, k: BlockKey, n: Node)
    ensures OwnerAt(Step(config, st, e).blocks, k, n) == OwnerAfter(config, st, e, k, n)
  {
    if Accepts(config, st, e) {
      match e.op
      case Beat(_, _) =>
      case Insert(_, _, _, _) =>
      case Remove(m, s, ns, hashes) => RemovedOwner(st.blocks, KeySet(ns, hashes), m, s, k, n);
      case Unregister(m, s) => RemovedOwner(st.blocks, st.blocks.Keys, m, s, k, n);
      case Sweep => SweptOwner(st.blocks, st.nodes, config, e.at, k, n);
    }
  }

  /** Event `i` is an accepted insert that wrote the record. */
  predicate Writes(config: Config, es: seq<Event>, i: nat, k: BlockKey, n: Node, o: Owner) {
    && AcceptedAt(config, es, i) && es[i].op.Insert? && es[i].op.node == n && k in KeySet(es[i].op.ns, es[i].op.hashes)
    && o == Owner(es[i].op.session, es[i].done)
  }

  /** Event `m` ends a record: replaced, removed or unregistered by its session, or expired at a sweep. */
  predicate Ends(config: Config, es: seq<Event>, m: nat, k: BlockKey, n: Node, o: Owner) {
    AcceptedAt(config, es, m) && match es[m].op
      case Beat(_, _) => false
      case Insert(n', _, ns, hashes) => n' == n && k in KeySet(ns, hashes)
      case Remove(n', s, ns, hashes) => n' == n && s == o.session && k in KeySet(ns, hashes)
      case Unregister(n', s) => n' == n && s == o.session
      case Sweep =>
        var nodes := At(config, es, m).nodes;
        !(n in nodes && es[m].at <= o.at + config.ttl && es[m].at <= nodes[n].seen + config.ttl)
  }

  /** Event `i` wrote the record and nothing ended it before event `j`. */
  predicate LiveInsert(config: Config, es: seq<Event>, i: nat, j: nat, k: BlockKey, n: Node, o: Owner) {
    i < j <= |es| && Writes(config, es, i, k, n, o) && forall m: nat :: i < m < j ==> !Ends(config, es, m, k, n, o)
  }

  lemma {:induction false} RecordWritten(config: Config, es: seq<Event>, j: nat, k: BlockKey, n: Node, o: Owner)
    returns (i: nat)
    requires j <= |es| && OwnerAt(At(config, es, j).blocks, k, n) == Some(o)
    ensures LiveInsert(config, es, i, j, k, n, o)
    decreases j
  {
    StepOwner(config, At(config, es, j - 1), es[j - 1], k, n);
    if Writes(config, es, j - 1, k, n, o) {
      i := j - 1;
    } else {
      i := RecordWritten(config, es, j - 1, k, n, o);
      assert !Ends(config, es, j - 1, k, n, o);
    }
  }

  lemma {:induction false} WrittenRecord(config: Config, es: seq<Event>, i: nat, j: nat, k: BlockKey, n: Node, o: Owner)
    requires LiveInsert(config, es, i, j, k, n, o)
    ensures OwnerAt(At(config, es, j).blocks, k, n) == Some(o)
    decreases j
  {
    StepOwner(config, At(config, es, j - 1), es[j - 1], k, n);
    if j - 1 > i {
      WrittenRecord(config, es, i, j - 1, k, n, o);
      assert !Ends(config, es, j - 1, k, n, o);
    }
  }

  /** Over every run, a record is there exactly when an accepted insert wrote it and nothing ended it since. */
  lemma OwnershipExact(config: Config, es: seq<Event>, k: BlockKey, n: Node, o: Owner)
    ensures OwnerAt(Run(config, es).blocks, k, n) == Some(o)
       <==> exists i: nat :: LiveInsert(config, es, i, |es|, k, n, o)
  {
    if OwnerAt(Run(config, es).blocks, k, n) == Some(o) {
      var i := RecordWritten(config, es, |es|, k, n, o);
    }
    if i: nat :| LiveInsert(config, es, i, |es|, k, n, o) {
      WrittenRecord(config, es, i, |es|, k, n, o);
    }
  }

  /** In every run, every stored key has an owner. */
  lemma {:induction false} KeysOwned(config: Config, es: seq<Event>, j: nat, k: BlockKey)
    requires j <= |es| && k in At(config, es, j).blocks
    ensures At(config, es, j).blocks[k] != map[]
  {
    var before := At(config, es, j - 1).blocks;
    if k in before {
      KeysOwned(config, es, j - 1, k);
    }
  }

  /** An insert of the node's current session wrote the record, and nothing has removed, replaced or swept it since. */
  ghost predicate OwnedBySession(config: Config, es: seq<Event>, k: BlockKey, n: Node, s: Session) {
    exists i: nat, t: Time :: LiveInsert(config, es, i, |es|, k, n, Owner(s, t))
  }

  /** What queries show, over every run, takeovers and returning sessions included. */
  lemma QueryExact(config: Config, es: seq<Event>, ns: string, h: Hash, n: Node, now: Time)
    ensures var st := Run(config, es);
            n in LiveAt(st.blocks, st.nodes, config, ns, h, now) <==>
              n in st.nodes && now <= st.nodes[n].seen + config.stale
              && OwnedBySession(config, es, BlockKey(ns, h), n, st.nodes[n].session)
  {
    var st, k := Run(config, es), BlockKey(ns, h);
    if n in LiveAt(st.blocks, st.nodes, config, ns, h, now) {
      var o := OwnersOf(st.blocks, k)[n];
      OwnershipExact(config, es, k, n, o);
      var i: nat :| LiveInsert(config, es, i, |es|, k, n, o);
      assert LiveInsert(config, es, i, |es|, k, n, Owner(st.nodes[n].session, o.at));
    }
    if n in st.nodes && OwnedBySession(config, es, k, n, st.nodes[n].session) {
      var i: nat, t: Time :| LiveInsert(config, es, i, |es|, k, n, Owner(st.nodes[n].session, t));
      OwnershipExact(config, es, k, n, Owner(st.nodes[n].session, t));
    }
  }
}
