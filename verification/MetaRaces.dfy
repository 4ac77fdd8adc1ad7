/**
 The MetaServer under concurrency (pegaflow-metaserver/src/store.rs): every RPC
 is cut into the lock scopes it really takes, and the scopes of different RPCs
 interleave in any order.
 */
module MetaRaces {
  import opened Prelude
  import opened InsertEntries
  import opened MetaStore
  import opened MetaRuns

  /** One lock scope. */
  datatype Micro =
    | BeatNode(n: Node, s: Session, at: Time)
    | TouchNode(n: Node, s: Session, at: Time)
    | SignOff(n: Node, s: Session)
    | PutOwner(k: BlockKey, n: Node, o: Owner)
    | DropOwn(k: BlockKey, n: Node, s: Session)
    | RemoveIfEmpty(k: BlockKey)
    | PurgeKey(k: BlockKey, n: Node, s: Session)
    | SweepKey(k: BlockKey, at: Time)
    | SweepNode(n: Node, at: Time)

  /** An RPC or a sweep, and the order in which its walks meet keys and nodes. */
  datatype Call = Call(e: Event, keys: seq<BlockKey>, nodes: seq<Node>)

  /** The scopes of a call, in program order. */
  function Program(c: Call): seq<Micro> {
    match c.e.op
    case Beat(n, s) => [BeatNode(n, s, c.e.at)]
    case Insert(n, s, ns, hashes) => [TouchNode(n, s, c.e.at)] + Puts(ns, hashes, n, Owner(s, c.e.done))
    case Remove(n, s, ns, hashes) => [TouchNode(n, s, c.e.at)] + Drops(ns, hashes, n, s)
    case Unregister(n, s) => [SignOff(n, s)] + Purges(c.keys, n, s)
    case Sweep => KeySweeps(c.keys, c.e.at) + NodeSweeps(c.nodes, c.e.at)
  }

  function Puts(ns: string, hashes: seq<Hash>, n: Node, o: Owner): seq<Micro> {
    seq(|hashes|, i requires 0 <= i < |hashes| => PutOwner(BlockKey(ns, hashes[i]), n, o))
  }

  function Drops(ns: string, hashes: seq<Hash>, n: Node, s: Session): seq<Micro> {
    seq(|hashes|, i requires 0 <= i < |hashes| => DropOwn(BlockKey(ns, hashes[i]), n, s))
  }

  function Purges(keys: seq<BlockKey>, n: Node, s: Session): seq<Micro> {
    seq(|keys|, i requires 0 <= i < |keys| => PurgeKey(keys[i], n, s))
  }

  function KeySweeps(keys: seq<BlockKey>, at: Time): seq<Micro> {
    seq(|keys|, i requires 0 <= i < |keys| => SweepKey(keys[i], at))
  }

  function NodeSweeps(nodes: seq<Node>, at: Time): seq<Micro> {
    seq(|nodes|, i requires 0 <= i < |nodes| => SweepNode(nodes[i], at))
  }

  function Elems<X>(xs: seq<X>): set<X> { set x | x in xs }

  function SweptKey(blocks: BlockMap, k: BlockKey, nodes: Nodes, config: Config, now: Time): BlockMap {
    if k !in blocks then blocks
    else if KeptOwners(nodes, config, blocks[k], now) == map[] then blocks - {k}
    else blocks[k := KeptOwners(nodes, config, blocks[k], now)]
  }

  /** The effect of one scope. */
  function Apply(config: Config, st: State, m: Micro): State {
    match m
    case BeatNode(n, s, at) =>
      if MayBeat(st.nodes, config, n, s, at) then st.(nodes := st.nodes[n := NodeRecord(s, at)]) else st
    case TouchNode(n, s, at) =>
      if TouchOutcome(st.nodes, n, s).Ok? then st.(nodes := st.nodes[n := NodeRecord(s, at)]) else st
    case SignOff(n, s) => if TouchOutcome(st.nodes, n, s).Ok? then st.(nodes := st.nodes - {n}) else st
    case PutOwner(k, n, o) => st.(blocks := st.blocks[k := OwnersOf(st.blocks, k)[n := o]])
    case DropOwn(k, n, s) =>
      if k in st.blocks then st.(blocks := st.blocks[k := WithoutOwn(st.blocks[k], n, s)]) else st
    case RemoveIfEmpty(k) => if k in st.blocks && st.blocks[k] == map[] then st.(blocks := st.blocks - {k}) else st
    case PurgeKey(k, n, s) => st.(blocks := DroppedKey(st.blocks, k, n, s))
    case SweepKey(k, at) => st.(blocks := SweptKey(st.blocks, k, st.nodes, config, at))
    case SweepNode(n, at) =>
      if n in st.nodes && Since(at, st.nodes[n].seen) > config.ttl then st.(nodes := st.nodes - {n}) else st
  }

  /** What the call still has to do: nothing after a refused check; a clean-up scope after emptying a key. */
  function Rest(config: Config, st: State, program: seq<Micro>): seq<Micro>
    requires program != []
  {
    match program[0]
    case BeatNode(n, s, at) => if MayBeat(st.nodes, config, n, s, at) then program[1..] else []
    case TouchNode(n, s, _) => if TouchOutcome(st.nodes, n, s).Ok? then program[1..] else []
    case SignOff(n, s) => if TouchOutcome(st.nodes, n, s).Ok? then program[1..] else []
    case DropOwn(k, n, s) =>
      if k in st.blocks && WithoutOwn(st.blocks[k], n, s) == map[]
      then [RemoveIfEmpty(k)] + program[1..] else program[1..]
    case _ => program[1..]
  }

  // ---------------------------------------------------------------------------
  // A call that is not interrupted is one step
  // ---------------------------------------------------------------------------

  function Weight(program: seq<Micro>): nat {
    if program == [] then 0 else (if program[0].DropOwn? then 2 else 1) + Weight(program[1..])
  }

  function Drain(config: Config, st: State, program: seq<Micro>): State
    decreases Weight(program)
  {
    if program == [] then st
    else
      assert Weight(Rest(config, st, program)) < Weight(program) by { RestLighter(config, st, program); }
      Drain(config, Apply(config, st, program[0]), Rest(config, st, program))
  }

  lemma RestLighter(config: Config, st: State, program: seq<Micro>)
    requires program != []
    ensures Weight(Rest(config, st, program)) < Weight(program)
  {
    if program[0].DropOwn? {
      assert ([RemoveIfEmpty(program[0].k)] + program[1..])[1..] == program[1..];
    }
  }

  lemma KeySetCons(ns: string, hashes: seq<Hash>, done: set<BlockKey>)
    requires hashes != []
    ensures done + {BlockKey(ns, hashes[0])} + KeySet(ns, hashes[1..]) == done + KeySet(ns, hashes)
  {
    assert hashes == [hashes[0]] + hashes[1..];
  }

  lemma {:induction false} DrainPuts(config: Config, st: State, base: BlockMap, done: set<BlockKey>, ns: string,
                                     hashes: seq<Hash>, n: Node, o: Owner)
    requires st.blocks == Inserted(base, done, n, o)
    ensures Drain(config, st, Puts(ns, hashes, n, o)) == st.(blocks := Inserted(base, done + KeySet(ns, hashes), n, o))
    decreases |hashes|
  {
    if hashes == [] {
      assert done + KeySet(ns, hashes) == done;
    } else {
      var k := BlockKey(ns, hashes[0]);
      InsertedStep(base, done, k, n, o);
      assert Puts(ns, hashes, n, o)[1..] == Puts(ns, hashes[1..], n, o);
      DrainPuts(config, Apply(config, st, PutOwner(k, n, o)), base, done + {k}, ns, hashes[1..], n, o);
      KeySetCons(ns, hashes, done);
    }
  }

  /** Dropping and cleaning up, back to back, drop the key's record as the atomic step does. */
  lemma DrainDrop(config: Config, st: State, k: BlockKey, n: Node, s: Session, rest: seq<Micro>)
    ensures Drain(config, st, [DropOwn(k, n, s)] + rest)
         == Drain(config, st.(blocks := DroppedKey(st.blocks, k, n, s)), rest)
  {
    var program := [DropOwn(k, n, s)] + rest;
    assert program[1..] == rest;
    var after := Apply(config, st, program[0]);
    if k in st.blocks && WithoutOwn(st.blocks[k], n, s) == map[] {
      var more := [RemoveIfEmpty(k)] + rest;
      assert more[1..] == rest;
      assert Rest(config, st, program) == more;
      assert Apply(config, after, more[0]).blocks == DroppedKey(st.blocks, k, n, s);
    }
  }

  lemma {:induction false} DrainDrops(config: Config, st: State, base: BlockMap, done: set<BlockKey>, ns: string,
                                      hashes: seq<Hash>, n: Node, s: Session)
    requires st.blocks == Removed(base, done, n, s)
    ensures Drain(config, st, Drops(ns, hashes, n, s)) == st.(blocks := Removed(base, done + KeySet(ns, hashes), n, s))
    decreases |hashes|
  {
    if hashes == [] {
      assert done + KeySet(ns, hashes) == done;
    } else {
      var k := BlockKey(ns, hashes[0]);
      RemovedStep(base, done, k, n, s);
      assert Drops(ns, hashes, n, s) == [DropOwn(k, n, s)] + Drops(ns, hashes[1..], n, s);
      DrainDrop(config, st, k, n, s, Drops(ns, hashes[1..], n, s));
      DrainDrops(config, st.(blocks := DroppedKey(st.blocks, k, n, s)), base, done + {k}, ns, hashes[1..], n, s);
      KeySetCons(ns, hashes, done);
    }
  }

  lemma {:induction false} DrainPurges(config: Config, st: State, base: BlockMap, done: set<BlockKey>,
                                       keys: seq<BlockKey>, n: Node, s: Session)
    requires st.blocks == Removed(base, done, n, s)
    ensures Drain(config, st, Purges(keys, n, s)) == st.(blocks := Removed(base, done + Elems(keys), n, s))
    decreases |keys|
  {
    if keys == [] {
      assert done + Elems(keys) == done;
    } else {
      RemovedStep(base, done, keys[0], n, s);
      assert Purges(keys, n, s)[1..] == Purges(keys[1..], n, s);
      DrainPurges(config, Apply(config, st, PurgeKey(keys[0], n, s)), base, done + {keys[0]}, keys[1..], n, s);
      assert keys == [keys[0]] + keys[1..];
      assert done + {keys[0]} + Elems(keys[1..]) == done + Elems(keys);
    }
  }

  /** A walk that meets every key drops the session's records everywhere. */
  lemma RemovedCovers(blocks: BlockMap, keys: set<BlockKey>, n: Node, s: Session)
    requires blocks.Keys <= keys
    ensures Removed(blocks, keys, n, s) == Removed(blocks, blocks.Keys, n, s)
  {
  }

  /** The blocks after a sweep has met some of the keys. */
  function SweptSome(blocks: BlockMap, done: set<BlockKey>, nodes: Nodes, config: Config, now: Time): BlockMap {
    map k | k in blocks && (k in done ==> KeptOwners(nodes, config, blocks[k], now) != map[]) ::
      if k in done then KeptOwners(nodes, config, blocks[k], now) else blocks[k]
  }

  lemma KeptTwice(nodes: Nodes, config: Config, owners: Owners, now: Time)
    ensures var kept := KeptOwners(nodes, config, owners, now); KeptOwners(nodes, config, kept, now) == kept
  {
  }

  lemma SweptSomeStep(blocks: BlockMap, done: set<BlockKey>, k: BlockKey, nodes: Nodes, config: Config, now: Time)
    ensures SweptSome(blocks, done + {k}, nodes, config, now)
         == SweptKey(SweptSome(blocks, done, nodes, config, now), k, nodes, config, now)
  {
    var before := SweptSome(blocks, done, nodes, config, now);
    var after, step := SweptSome(blocks, done + {k}, nodes, config, now), SweptKey(before, k, nodes, config, now);
    if k in blocks { KeptTwice(nodes, config, blocks[k], now); }
    assert after.Keys == step.Keys;
    assert forall j :: j in after ==> after[j] == step[j];
  }

  lemma {:induction false} DrainKeySweeps(config: Config, st: State, base: BlockMap, done: set<BlockKey>,
                                          keys: seq<BlockKey>, at: Time, rest: seq<Micro>)
    requires st.blocks == SweptSome(base, done, st.nodes, config, at)
    ensures Drain(config, st, KeySweeps(keys, at) + rest)
         == Drain(config, st.(blocks := SweptSome(base, done + Elems(keys), st.nodes, config, at)), rest)
    decreases |keys|
  {
    if keys == [] {
      assert KeySweeps(keys, at) + rest == rest && done + Elems(keys) == done;
    } else {
      SweptSomeStep(base, done, keys[0], st.nodes, config, at);
      assert (KeySweeps(keys, at) + rest)[1..] == KeySweeps(keys[1..], at) + rest;
      DrainKeySweeps(config, Apply(config, st, SweepKey(keys[0], at)), base, done + {keys[0]}, keys[1..], at, rest);
      assert keys == [keys[0]] + keys[1..];
      assert done + {keys[0]} + Elems(keys[1..]) == done + Elems(keys);
    }
  }

  function SweptSomeNodes(nodes: Nodes, done: set<Node>, config: Config, now: Time): Nodes {
    map n | n in nodes && (n in done ==> Since(now, nodes[n].seen) <= config.ttl) :: nodes[n]
  }

  lemma {:induction false} DrainNodeSweeps(config: Config, st: State, base: Nodes, done: set<Node>, nodes: seq<Node>,
                                           at: Time)
    requires st.nodes == SweptSomeNodes(base, done, config, at)
    ensures Drain(config, st,
                  NodeSweeps(nodes, at)) == st.(nodes := SweptSomeNodes(base, done + Elems(nodes), config, at))
    decreases |nodes|
  {
    if nodes == [] {
      assert done + Elems(nodes) == done;
    } else {
      assert NodeSweeps(nodes, at)[1..] == NodeSweeps(nodes[1..], at);
      var after := Apply(config, st, SweepNode(nodes[0], at));
      assert after.nodes == SweptSomeNodes(base, done + {nodes[0]}, config, at);
      DrainNodeSweeps(config, after, base, done + {nodes[0]}, nodes[1..], at);
      assert nodes == [nodes[0]] + nodes[1..];
      assert done + {nodes[0]} + Elems(nodes[1..]) == done + Elems(nodes);
    }
  }

  /** The walks of a call meet everything there is. */
  predicate WalksAll(st: State, c: Call) {
    (forall k :: k in st.blocks ==> k in c.keys) && (forall n :: n in st.nodes ==> n in c.nodes)
  }

  /** Run without interruption, the scopes of a call are its atomic step. */
  lemma SoloIsAtomic(config: Config, st: State, c: Call)
    requires WalksAll(st, c)
    ensures Drain(config, st, Program(c)) == Step(config, st, c.e)
  {
    var program := Program(c);
    match c.e.op
    case Beat(n, s) =>
      assert program[1..] == [];
    case Insert(n, s, ns, hashes) =>
      assert program[1..] == Puts(ns, hashes, n, Owner(s, c.e.done));
      var after := Apply(config, st, program[0]);
      assert Inserted(st.blocks, {}, n, Owner(s, c.e.done)) == st.blocks;
      DrainPuts(config, after, st.blocks, {}, ns, hashes, n, Owner(s, c.e.done));
      assert {} + KeySet(ns, hashes) == KeySet(ns, hashes);
    case Remove(n, s, ns, hashes) =>
      assert program[1..] == Drops(ns, hashes, n, s);
      var after := Apply(config, st, program[0]);
      assert Removed(st.blocks, {}, n, s) == st.blocks;
      DrainDrops(config, after, st.blocks, {}, ns, hashes, n, s);
      assert {} + KeySet(ns, hashes) == KeySet(ns, hashes);
    case Unregister(n, s) =>
      assert program[1..] == Purges(c.keys, n, s);
      var after := Apply(config, st, program[0]);
      assert Removed(st.blocks, {}, n, s) == st.blocks;
      DrainPurges(config, after, st.blocks, {}, c.keys, n, s);
      RemovedCovers(st.blocks, {} + Elems(c.keys), n, s);
    case Sweep =>
      SoloSweep(config, st, c);
  }

  lemma SweptSomeAll(blocks: BlockMap, keys: set<BlockKey>, nodes: Nodes, config: Config, now: Time)
    requires blocks.Keys <= keys
    ensures SweptSome(blocks, keys, nodes, config, now) == SweptBlocks(blocks, nodes, config, now)
    ensures SweptSome(blocks, {}, nodes, config, now) == blocks
  {
  }

  lemma SweptSomeNodesAll(nodes: Nodes, all: set<Node>, config: Config, now: Time)
    requires nodes.Keys <= all
    ensures SweptSomeNodes(nodes, all, config, now) == SweptNodes(nodes, config, now)
    ensures SweptSomeNodes(nodes, {}, config, now) == nodes
  {
  }

  lemma SoloSweep(config: Config, st: State, c: Call)
    requires WalksAll(st, c) && c.e.op.Sweep?
    ensures Drain(config, st, Program(c)) == Step(config, st, c.e)
  {
    var at := c.e.at;
    SweptSomeAll(st.blocks, {} + Elems(c.keys), st.nodes, config, at);
    DrainKeySweeps(config, st, st.blocks, {}, c.keys, at, NodeSweeps(c.nodes, at));
    var mid := st.(blocks := SweptBlocks(st.blocks, st.nodes, config, at));
    SweptSomeNodesAll(st.nodes, {} + Elems(c.nodes), config, at);
    DrainNodeSweeps(config, mid, st.nodes, {}, c.nodes, at);
  }

  // ---------------------------------------------------------------------------
  // Any interleaving
  // ---------------------------------------------------------------------------

  /** The shared state and what every call still has to do. */
  datatype Sys = Sys(st: State, left: seq<seq<Micro>>)

  function Start(st: State, calls: seq<Call>): Sys {
    Sys(st, seq(|calls|, t requires 0 <= t < |calls| => Program(calls[t])))
  }

  /** Call `t` takes its next scope. */
  function Move(config: Config, sys: Sys, t: nat): Sys {
    if t < |sys.left| && sys.left[t] != [] then
      Sys(Apply(config, sys.st, sys.left[t][0]), sys.left[t := Rest(config, sys.st, sys.left[t])])
    else sys
  }

  /** The system after the first `i` moves of a schedule. */
  function After(config: Config, start: State, calls: seq<Call>, schedule: seq<nat>, i: nat): Sys
    requires i <= |schedule|
  {
    if i == 0 then Start(start, calls) else Move(config, After(config, start, calls, schedule, i - 1), schedule[i - 1])
  }

  /** A scope of a call other than its session check. */
  predicate BodyOf(c: Call, m: Micro) {
    match m
    case PutOwner(k, n, o) => c.e.op.Insert? && c.e.op.node == n && k in KeySet(c.e.op.ns, c.e.op.hashes)
    case DropOwn(k, n, s) =>
      c.e.op.Remove? && c.e.op.node == n && c.e.op.session == s && k in KeySet(c.e.op.ns, c.e.op.hashes)
    case RemoveIfEmpty(_) => c.e.op.Remove?
    case PurgeKey(_, n, s) => c.e.op == Unregister(n, s)
    case SweepKey(_, at) => c.e.op.Sweep? && at == c.e.at
    case SweepNode(_, at) => c.e.op.Sweep? && at == c.e.at
    case _ => false
  }

  /** The call's session check went through at some earlier move. */
  ghost predicate Admitted(config: Config, start: State, calls: seq<Call>, schedule: seq<nat>, i: nat, t: nat)
    requires i <= |schedule| && t < |calls|
  {
    calls[t].e.op.Sweep? || exists m: nat :: m < i && PassedAt(config, start, calls, schedule, m, t)
  }

  predicate PassedAt(config: Config, start: State, calls: seq<Call>, schedule: seq<nat>, m: nat, t: nat)
    requires t < |calls|
  {
    m < |schedule| && schedule[m] == t && Accepts(config, After(config, start, calls, schedule, m).st, calls[t].e)
  }

  predicate AllBody(c: Call, program: seq<Micro>) { forall i :: 0 <= i < |program| ==> BodyOf(c, program[i]) }

  /** A call has not begun, or is admitted and only body scopes are left. */
  ghost predicate OnTrack(config: Config, start: State, calls: seq<Call>, schedule: seq<nat>, i: nat, t: nat,
                          left: seq<Micro>)
    requires i <= |schedule| && t < |calls|
  {
    || left == Program(calls[t]) || left == []
    || (AllBody(calls[t], left) && Admitted(config, start, calls, schedule, i, t))
  }

  lemma ProgramShape(c: Call)
    ensures Program(c) == [] ==> c.e.op.Sweep?
    ensures c.e.op.Sweep? ==> AllBody(c, Program(c))
    ensures !c.e.op.Sweep? ==> AllBody(c, Program(c)[1..]) && !Program(c)[0].DropOwn?
  {
    match c.e.op
    case Beat(n, s) =>
    case Insert(n, s, ns, hashes) =>
      assert Program(c)[1..] == Puts(ns, hashes, n, Owner(s, c.e.done));
    case Remove(n, s, ns, hashes) =>
      assert Program(c)[1..] == Drops(ns, hashes, n, s);
    case Unregister(n, s) =>
      assert Program(c)[1..] == Purges(c.keys, n, s);
    case Sweep =>
  }

  lemma BodyStays(config: Config, st: State, c: Call, left: seq<Micro>)
    requires AllBody(c, left) && left != []
    ensures AllBody(c, Rest(config, st, left))
  {
  }

  lemma {:induction false} CallOnTrack(config: Config, start: State, calls: seq<Call>, schedule: seq<nat>, i: nat,
                                       t: nat)
    requires i <= |schedule| && t < |calls|
    ensures var sys := After(config, start, calls, schedule, i);
            |sys.left| == |calls| && OnTrack(config, start, calls, schedule, i, t, sys.left[t])
  {
    if i > 0 {
      CallOnTrack(config, start, calls, schedule, i - 1, t);
      var before := After(config, start, calls, schedule, i - 1);
      if schedule[i - 1] == t && before.left[t] != [] {
        Advances(config, start, calls, schedule, i - 1, t, before.left[t]);
      } else {
        StaysAdmitted(config, start, calls, schedule, i - 1, t);
      }
    }
  }

  lemma StaysAdmitted(config: Config, start: State, calls: seq<Call>, schedule: seq<nat>, i: nat, t: nat)
    requires i < |schedule| && t < |calls|
    ensures Admitted(config, start, calls, schedule, i, t) ==> Admitted(config, start, calls, schedule, i + 1, t)
  {
  }

  lemma Advances(config: Config, start: State, calls: seq<Call>, schedule: seq<nat>, i: nat, t: nat, left: seq<Micro>)
    requires i < |schedule| && t < |calls| && schedule[i] == t && left != []
    requires OnTrack(config, start, calls, schedule, i, t, left)
    ensures OnTrack(config, start, calls, schedule, i + 1, t,
                    Rest(config, After(config, start, calls, schedule, i).st, left))
  {
    var st := After(config, start, calls, schedule, i).st;
    ProgramShape(calls[t]);
    StaysAdmitted(config, start, calls, schedule, i, t);
    if AllBody(calls[t], left) {
      BodyStays(config, st, calls[t], left);
    } else if Rest(config, st, left) != [] {
      assert PassedAt(config, start, calls, schedule, i, t);
    }
  }

  /** The only scopes that change one ownership record. */
  predicate Touches(config: Config, st: State, m: Micro, k: BlockKey, n: Node, o: Owner) {
    match m
    case PutOwner(k', n', _) => k' == k && n' == n
    case DropOwn(k', n', s) => k' == k && n' == n && s == o.session
    case PurgeKey(k', n', s) => k' == k && n' == n && s == o.session
    case SweepKey(k', at) => k' == k && !Keep(st.nodes, config, n, o, at)
    case _ => false
  }

  lemma ScopeKeeps(config: Config, st: State, m: Micro, k: BlockKey, n: Node, o: Owner)
    requires OwnerAt(st.blocks, k, n) == Some(o) && !Touches(config, st, m, k, n, o)
    ensures OwnerAt(Apply(config, st, m).blocks, k, n) == Some(o)
  {
    match m
    case PurgeKey(k', n', s) =>
      assert k' == k ==> n in WithoutOwn(st.blocks[k], n', s);
    case SweepKey(k', at) =>
      assert k' == k ==> n in KeptOwners(st.nodes, config, st.blocks[k], at);
    case _ =>
  }

  /** Call `t` may end the record: its own node's insert, its own session's removal or sign-off, or an expiry sweep. */
  predicate MayEnd(config: Config, st: State, c: Call, k: BlockKey, n: Node, o: Owner) {
    match c.e.op
    case Beat(_, _) => false
    case Insert(n', _, ns, hashes) => n' == n && k in KeySet(ns, hashes)
    case Remove(n', s, ns, hashes) => n' == n && s == o.session && k in KeySet(ns, hashes)
    case Unregister(n', s) => n' == n && s == o.session
    case Sweep => !Keep(st.nodes, config, n, o, c.e.at)
  }

  /** Move `m` of the schedule ends the record, on behalf of a call that was let in and is entitled to. */
  ghost predicate Ended(config: Config, start: State, calls: seq<Call>, schedule: seq<nat>, m: nat, k: BlockKey,
                        n: Node, o: Owner) {
    && m < |schedule| && schedule[m] < |calls|
    && MayEnd(config, After(config, start, calls, schedule, m).st, calls[schedule[m]], k, n, o)
    && Admitted(config, start, calls, schedule, m, schedule[m])
  }

  /** A single move that loses a record is such a move. */
  lemma LosingMove(config: Config, start: State, calls: seq<Call>, schedule: seq<nat>, m: nat, k: BlockKey, n: Node,
                   o: Owner)
    requires m < |schedule|
    requires OwnerAt(After(config, start, calls, schedule, m).st.blocks, k, n) == Some(o)
    requires OwnerAt(After(config, start, calls, schedule, m + 1).st.blocks, k, n) != Some(o)
    ensures Ended(config, start, calls, schedule, m, k, n, o)
  {
    var sys, t := After(config, start, calls, schedule, m), schedule[m];
    LeftLength(config, start, calls, schedule, m);
    assert t < |calls| && sys.left[t] != [];
    CallOnTrack(config, start, calls, schedule, m, t);
    var scope := sys.left[t][0];
    if !Touches(config, sys.st, scope, k, n, o) {
      ScopeKeeps(config, sys.st, scope, k, n, o);
    }
    ProgramShape(calls[t]);
    assert BodyOf(calls[t], scope);
  }

  lemma {:induction false} LeftLength(config: Config, start: State, calls: seq<Call>, schedule: seq<nat>, i: nat)
    requires i <= |schedule|
    ensures |After(config, start, calls, schedule, i).left| == |calls|
  {
    if i > 0 { LeftLength(config, start, calls, schedule, i - 1); }
  }

  /**
   No insert is lost. Whatever the interleaving, between a moment at which a
   record exists and a later one at which it does not, some admitted call of the
   record's own node and session, an insert of its own node, or a sweep that
   found it expired has ended it; the clean-up of another node's removal never does.
   */
  lemma {:induction false} NoLostInsert(config: Config, start: State, calls: seq<Call>, schedule: seq<nat>, i: nat,
                                        j: nat, k: BlockKey, n: Node, o: Owner)
    returns (m: nat)
    requires i <= j <= |schedule|
    requires OwnerAt(After(config, start, calls, schedule, i).st.blocks, k, n) == Some(o)
    requires OwnerAt(After(config, start, calls, schedule, j).st.blocks, k, n) != Some(o)
    ensures i <= m < j && Ended(config, start, calls, schedule, m, k, n, o)
    decreases j
  {
    if OwnerAt(After(config, start, calls, schedule, j - 1).st.blocks, k, n) == Some(o) {
      m := j - 1;
      LosingMove(config, start, calls, schedule, m, k, n, o);
    } else {
      m := NoLostInsert(config, start, calls, schedule, i, j - 1, k, n, o);
    }
  }

  // ---------------------------------------------------------------------------
  // Why the clean-up re-checks
  // ---------------------------------------------------------------------------

  const RACE_CONFIG := Config(30, 7200)
  const RACE_KEY := BlockKey("ns", [1])

  /** Node "a" owns a key that it is about to remove; node "b" is about to insert it. */
  const RACE_START := State(map[RACE_KEY := map["a" := Owner(1, 0)]],
                            map["a" := NodeRecord(1, 0), "b" := NodeRecord(2, 0)])
  const RACE_CALLS := [Call(Event(Remove("a", 1, "ns", [[1]]), 1, 1), [], []),
                       Call(Event(Insert("b", 2, "ns", [[1]]), 2, 5), [], [])]

  const RACE_SCHEDULE: seq<nat> := [0, 0, 1, 1]

  lemma RaceDrops()
    ensures var sys := After(RACE_CONFIG, RACE_START, RACE_CALLS, RACE_SCHEDULE, 2);
            && sys.left == [[RemoveIfEmpty(RACE_KEY)], [TouchNode("b", 2, 2), PutOwner(RACE_KEY, "b", Owner(2, 5))]]
            && OwnersOf(sys.st.blocks, RACE_KEY) == map[]
            && "b" in sys.st.nodes && sys.st.nodes["b"] == NodeRecord(2, 0)
  {
    assert Program(RACE_CALLS[0]) == [TouchNode("a", 1, 1), DropOwn(RACE_KEY, "a", 1)];
    assert Program(RACE_CALLS[1]) == [TouchNode("b", 2, 2), PutOwner(RACE_KEY, "b", Owner(2, 5))];
    var s0 := After(RACE_CONFIG, RACE_START, RACE_CALLS, RACE_SCHEDULE, 0);
    var s1 := After(RACE_CONFIG, RACE_START, RACE_CALLS, RACE_SCHEDULE, 1);
    assert s1 == Move(RACE_CONFIG, s0, 0);
    assert s1.left[0] == [DropOwn(RACE_KEY, "a", 1)] && s1.left[0][1..] == [] && s1.st.blocks == RACE_START.blocks;
    assert WithoutOwn(RACE_START.blocks[RACE_KEY], "a", 1) == map[];
    assert Rest(RACE_CONFIG, s1.st, s1.left[0]) == [RemoveIfEmpty(RACE_KEY)];
    assert After(RACE_CONFIG, RACE_START, RACE_CALLS, RACE_SCHEDULE, 2) == Move(RACE_CONFIG, s1, 0);
  }

  /**
   The re-check is needed: there is an interleaving in which one node is about
   to clean up a key it emptied while another node's fresh record sits there.
   The guarded clean-up keeps the record; dropping the key outright would lose it.
   */
  lemma CleanUpRace()
    ensures var sys := After(RACE_CONFIG, RACE_START, RACE_CALLS, RACE_SCHEDULE, 4);
            && |sys.left| == 2 && sys.left[0] == [RemoveIfEmpty(RACE_KEY)]
            && OwnerAt(sys.st.blocks, RACE_KEY, "b") == Some(Owner(2, 5))
            && OwnerAt(Apply(RACE_CONFIG, sys.st, RemoveIfEmpty(RACE_KEY)).blocks, RACE_KEY, "b") == Some(Owner(2, 5))
            && OwnerAt(sys.st.blocks - {RACE_KEY}, RACE_KEY, "b") == None
  {
    RaceDrops();
    var s2 := After(RACE_CONFIG, RACE_START, RACE_CALLS, RACE_SCHEDULE, 2);
    var s3 := After(RACE_CONFIG, RACE_START, RACE_CALLS, RACE_SCHEDULE, 3);
    assert s3 == Move(RACE_CONFIG, s2, 1);
    assert s3.left[1] == [PutOwner(RACE_KEY, "b", Owner(2, 5))];
    assert After(RACE_CONFIG, RACE_START, RACE_CALLS, RACE_SCHEDULE, 4) == Move(RACE_CONFIG, s3, 1);
  }
}
