/**
 The registration machine (pegaflow-core/src/instance.rs, `InstanceContext`):
 workers attach one by one, and the one that completes the world seals it.
 */
module Registration {
  import opened Prelude
  import opened Topology

  datatype RegisterError =
    | TpRankTooLarge
    | NoLayers
    | DuplicateDevice
    | AlreadySealed
    | NegativeDevice
    | DeviceInit
    | SealRefused(e: SealError)

  datatype Config = Config(tpSize: nat, worldSize: nat, pageFirst: bool)

  /** The mutex-protected state. */
  datatype State = State(gpus: map<int, Worker>, topology: Option<Topology>)

  /** A registration request; `deviceUp` is whether the device context can be created. */
  datatype Request = Request(worker: Worker, deviceUp: bool)

  // ---------------------------------------------------------------------------
  // Specification of one registration
  // ---------------------------------------------------------------------------

  /** The workers present once the pending one has joined. */
  function Joined(s: State, w: Worker): set<Worker> { Present(s.gpus) + {w} }

  function Present(gpus: map<int, Worker>): set<Worker> { set d | d in gpus :: gpus[d] }

  /** Everything that is checked before sealing is attempted. */
  predicate Admissible(c: Config, s: State, q: Request) {
    && q.worker.tpRank < c.tpSize
    && q.worker.caches != map[]
    && q.worker.deviceId !in s.gpus
    && s.topology.None?
    && q.worker.deviceId >= 0
    && q.deviceUp
  }

  predicate Completes(c: Config, s: State) { |s.gpus| + 1 == c.worldSize }

  ghost predicate AcceptedBy(c: Config, s: State, q: Request) {
    Admissible(c, s, q) && (Completes(c, s) ==> Sealable(Joined(s, q.worker), c.tpSize, c.pageFirst))
  }

  /** One registration: refused requests change nothing. */
  ghost predicate Step(c: Config, s: State, q: Request, s': State) {
    if AcceptedBy(c, s, q) then
      && s'.gpus == s.gpus[q.worker.deviceId := q.worker]
      && (if Completes(c, s)
          then s'.topology.Some?
               && exists list :: SealedFrom(s'.topology.value, Joined(s, q.worker), c.tpSize, c.pageFirst, list)
          else s'.topology == s.topology)
    else s' == s
  }

  class InstanceContext {
    const config: Config
    var gpus: map<int, Worker>
    var topology: Option<Topology>

    function Value(): State reads this { State(gpus, topology) }

    constructor (config: Config)
      requires config.tpSize > 0 && config.worldSize > 0
      ensures this.config == config && Value() == State(map[], None)
    {
      this.config := config;
      gpus := map[];
      topology := None;
    }

    /** Refuse zero sizes; otherwise start with nothing registered. */
    static method New(config: Config) returns (r: Result<InstanceContext, string>)
      ensures r.Ok? <==> config.tpSize > 0 && config.worldSize > 0
      ensures r.Ok? ==> fresh(r.value) && r.value.config == config && r.value.Value() == State(map[], None)
    {
      if config.tpSize == 0 || config.worldSize == 0 {
        return Err("tp_size and world_size must be > 0");
      }
      var instance := new InstanceContext(config);
      return Ok(instance);
    }

    /** The duplicate device is reported before the sealed instance. */
    function EnsureAccepting(deviceId: int): (r: Result<(), RegisterError>)
      reads this
      ensures r.Ok? <==> deviceId !in gpus && topology.None?
      ensures deviceId in gpus ==> r == Err(DuplicateDevice)
    {
      if deviceId in gpus then Err(DuplicateDevice)
      else if topology.Some? then Err(AlreadySealed)
      else Ok(())
    }

    method RegisterNewGpu(q: Request) returns (r: Result<(), RegisterError>)
      modifies this
      ensures r.Ok? <==> old(AcceptedBy(config, Value(), q))
      ensures Step(config, old(Value()), q, Value())
      ensures r.Err? && !r.error.SealRefused? <==>
              || q.worker.tpRank >= config.tpSize || q.worker.caches == map[] || q.worker.deviceId in old(gpus)
              || old(topology).Some? || q.worker.deviceId < 0 || !q.deviceUp
      ensures q.worker.tpRank >= config.tpSize ==> r == Err(TpRankTooLarge)
      ensures q.worker.tpRank < config.tpSize && q.worker.caches == map[] ==> r == Err(NoLayers)
      ensures q.worker.tpRank < config.tpSize && q.worker.caches != map[] && old(q.worker.deviceId in gpus) ==>
                r == Err(DuplicateDevice)
      ensures r.Err? && r.error.SealRefused? ==> |old(gpus)| + 1 == config.worldSize
    {
      var w := q.worker;
      if w.tpRank >= config.tpSize {
        return Err(TpRankTooLarge);
      }
      if w.caches == map[] {
        return Err(NoLayers);
      }
      var accepting := EnsureAccepting(w.deviceId);
      if accepting.Err? {
        return accepting;
      }
      if w.deviceId < 0 {
        return Err(NegativeDevice);
      }
      if !q.deviceUp {
        return Err(DeviceInit);
      }
      if |gpus| + 1 == config.worldSize {
        var listed := ListWorkers(gpus);
        var workers := listed + [w];
        assert AllOf(workers) == Joined(Value(), w) by { AllOfAppend(listed, w); }
        var sealed := SealTopology(workers, config.tpSize, config.pageFirst);
        if sealed.Err? {
          return Err(SealRefused(sealed.error));
        }
        gpus := gpus[w.deviceId := w];
        topology := Some(sealed.value);
      } else {
        gpus := gpus[w.deviceId := w];
      }
      return Ok(());
    }
  }

  lemma AllOfAppend(ws: seq<Worker>, w: Worker)
    ensures AllOf(ws + [w]) == AllOf(ws) + {w}
  {
  }

  /** Walk the hash map's values, in whatever order it yields them. */
  method ListWorkers(gpus: map<int, Worker>) returns (ws: seq<Worker>)
    ensures AllOf(ws) == Present(gpus)
  {
    ws := [];
    var rest := Present(gpus);
    while rest != {}
      invariant rest <= Present(gpus) && AllOf(ws) == Present(gpus) - rest
      decreases rest
    {
      var w :| w in rest;
      AllOfAppend(ws, w);
      ws := ws + [w];
      rest := rest - {w};
    }
  }

  // ---------------------------------------------------------------------------
  // Every run
  // ---------------------------------------------------------------------------

  /** A run from the empty instance: one request between consecutive states. */
  ghost predicate Run(c: Config, states: seq<State>, requests: seq<Request>) {
    && |states| == |requests| + 1
    && states[0] == State(map[], None)
    && forall i :: 0 <= i < |requests| ==> Step(c, states[i], requests[i], states[i + 1])
  }

  ghost predicate Invariant(c: Config, s: State) {
    && |s.gpus| <= c.worldSize
    && (s.topology.Some? <==> |s.gpus| == c.worldSize)
    && (forall d :: d in s.gpus ==> s.gpus[d].deviceId == d && s.gpus[d].tpRank < c.tpSize && s.gpus[d].caches != map[])
    && (s.topology.Some? ==> Sealable(Present(s.gpus), c.tpSize, c.pageFirst))
    && (s.topology.Some? ==> exists list :: SealedFrom(s.topology.value, Present(s.gpus), c.tpSize, c.pageFirst, list))
  }

  lemma PresentAfterJoin(gpus: map<int, Worker>, w: Worker)
    requires w.deviceId !in gpus
    ensures Present(gpus[w.deviceId := w]) == Present(gpus) + {w}
    ensures |gpus[w.deviceId := w]| == |gpus| + 1
    ensures gpus[w.deviceId := w].Keys == gpus.Keys + {w.deviceId}
  {
    var after := gpus[w.deviceId := w];
    forall v ensures v in Present(after) <==> v in Present(gpus) + {w} {
      if v in Present(gpus) {
        var d :| d in gpus && gpus[d] == v;
        assert d in after && after[d] == v;
      }
      if v == w { assert w.deviceId in after; }
    }
    assert |after.Keys| == |gpus.Keys| + 1;
  }

  lemma StepKeeps(c: Config, s: State, q: Request, s': State)
    requires Invariant(c, s) && Step(c, s, q, s')
    ensures Invariant(c, s')
    ensures s.topology.Some? ==> s' == s
  {
    if AcceptedBy(c, s, q) {
      PresentAfterJoin(s.gpus, q.worker);
    }
  }

  /**
   In every run: the topology is present exactly when `world_size` devices are
   registered, and then it is the topology of exactly those devices.
   */
  lemma {:induction false} RunKeeps(c: Config, states: seq<State>, requests: seq<Request>, i: nat)
    requires Run(c, states, requests) && c.worldSize > 0 && i < |states|
    ensures Invariant(c, states[i])
  {
    if i > 0 {
      RunKeeps(c, states, requests, i - 1);
      StepKeeps(c, states[i - 1], requests[i - 1], states[i]);
    }
  }

  /** Once sealed, nothing in the state ever changes again. */
  lemma {:induction false} SealedForever(c: Config, states: seq<State>, requests: seq<Request>, i: nat, j: nat)
    requires Run(c, states, requests) && c.worldSize > 0 && i <= j < |states| && states[i].topology.Some?
    ensures states[j] == states[i]
  {
    if i < j {
      SealedForever(c, states, requests, i, j - 1);
      RunKeeps(c, states, requests, j - 1);
      StepKeeps(c, states[j - 1], requests[j - 1], states[j]);
    }
  }

  // ---------------------------------------------------------------------------
  // Order of registration
  // ---------------------------------------------------------------------------

  function WorkersOf(requests: seq<Request>): set<Worker> { set q | q in requests :: q.worker }

  /** A full worker set that passes the per-request checks, in some order. */
  predicate FullWorld(c: Config, requests: seq<Request>) {
    && |requests| == c.worldSize
    && (forall i :: 0 <= i < |requests| ==>
          requests[i].worker.tpRank < c.tpSize && requests[i].worker.caches != map[]
          && requests[i].worker.deviceId >= 0 && requests[i].deviceUp)
    && (forall i, j :: 0 <= i < j < |requests| ==> requests[i].worker.deviceId != requests[j].worker.deviceId)
  }

  function DevicesOf(requests: seq<Request>): set<int> { set q | q in requests :: q.worker.deviceId }

  lemma RequestsSnoc(requests: seq<Request>, k: nat)
    requires k < |requests|
    ensures WorkersOf(requests[..k + 1]) == WorkersOf(requests[..k]) + {requests[k].worker}
    ensures DevicesOf(requests[..k + 1]) == DevicesOf(requests[..k]) + {requests[k].worker.deviceId}
  {
    assert requests[..k + 1] == requests[..k] + [requests[k]];
  }

  lemma NewDevice(c: Config, requests: seq<Request>, k: nat)
    requires FullWorld(c, requests) && k < |requests|
    ensures requests[k].worker.deviceId !in DevicesOf(requests[..k])
  {
  }

  /** The state holds exactly the first `i` requesters, unsealed. */
  ghost predicate Holds(s: State, requests: seq<Request>, i: nat)
    requires i <= |requests|
  {
    && s.topology.None? && |s.gpus| == i
    && s.gpus.Keys == DevicesOf(requests[..i])
    && Present(s.gpus) == WorkersOf(requests[..i])
  }

  lemma FillStep(c: Config, s: State, requests: seq<Request>, i: nat, s': State)
    requires FullWorld(c, requests) && i + 1 < c.worldSize && Holds(s, requests, i)
    requires Step(c, s, requests[i], s')
    ensures Holds(s', requests, i + 1)
  {
    NewDevice(c, requests, i);
    PresentAfterJoin(s.gpus, requests[i].worker);
    RequestsSnoc(requests, i);
  }

  /** Until the last worker, everybody is let in and nothing is sealed. */
  lemma {:induction false} Filling(c: Config, states: seq<State>, requests: seq<Request>, i: nat)
    requires Run(c, states, requests) && FullWorld(c, requests) && i < c.worldSize
    ensures Holds(states[i], requests, i)
  {
    if i == 0 {
      assert requests[..0] == [];
    } else {
      Filling(c, states, requests, i - 1);
      FillStep(c, states[i - 1], requests, i - 1, states[i]);
    }
  }

  lemma LastStep(c: Config, s: State, requests: seq<Request>, s': State)
    requires FullWorld(c, requests) && c.worldSize > 0 && Holds(s, requests, c.worldSize - 1)
    requires Step(c, s, requests[c.worldSize - 1], s')
    ensures s'.topology.Some? <==> Sealable(WorkersOf(requests), c.tpSize, c.pageFirst)
    ensures s'.topology.Some? ==>
      exists list :: SealedFrom(s'.topology.value, WorkersOf(requests), c.tpSize, c.pageFirst, list)
  {
    var n := c.worldSize - 1;
    LastAdmissible(c, s, requests, n);
    CompletingStep(c, s, requests[n], s');
  }

  lemma LastAdmissible(c: Config, s: State, requests: seq<Request>, n: nat)
    requires FullWorld(c, requests) && n + 1 == c.worldSize && Holds(s, requests, n)
    ensures Admissible(c, s, requests[n]) && Completes(c, s) && Joined(s, requests[n].worker) == WorkersOf(requests)
  {
    NewDevice(c, requests, n);
    RequestsSnoc(requests, n);
    assert requests[..n + 1] == requests;
  }

  /** The registration that completes the worker set seals it exactly when it can be sealed. */
  lemma CompletingStep(c: Config, s: State, q: Request, s': State)
    requires Admissible(c, s, q) && Completes(c, s) && Step(c, s, q, s')
    ensures s'.topology.Some? <==> Sealable(Joined(s, q.worker), c.tpSize, c.pageFirst)
    ensures s'.topology.Some? ==>
      exists list :: SealedFrom(s'.topology.value, Joined(s, q.worker), c.tpSize, c.pageFirst, list)
  {
  }

  /** Whether the world seals, and into what, is decided by the set of workers alone. */
  lemma SealDecidedByWorkers(c: Config, states: seq<State>, requests: seq<Request>)
    requires Run(c, states, requests) && FullWorld(c, requests) && c.worldSize > 0
    ensures var final := states[|requests|];
            && (final.topology.Some? <==> Sealable(WorkersOf(requests), c.tpSize, c.pageFirst))
            && (final.topology.Some? ==>
                exists list :: SealedFrom(final.topology.value, WorkersOf(requests), c.tpSize, c.pageFirst, list))
  {
    var n := |requests| - 1;
    Filling(c, states, requests, n);
    LastStep(c, states[n], requests, states[n + 1]);
  }

  /** Two orders of the same workers end with the same topology, or both without one. */
  lemma RegistrationOrderIrrelevant(c: Config, states: seq<State>, requests: seq<Request>, states': seq<State>,
                                    requests': seq<Request>)
    requires Run(c, states, requests) && FullWorld(c, requests) && c.worldSize > 0
    requires Run(c, states', requests') && FullWorld(c, requests')
    requires WorkersOf(requests) == WorkersOf(requests')
    ensures states[|requests|].topology == states'[|requests'|].topology
  {
    SealDecidedByWorkers(c, states, requests);
    SealDecidedByWorkers(c, states', requests');
    var t, u := states[|requests|].topology, states'[|requests'|].topology;
    if t.Some? {
      var xs :| SealedFrom(t.value, WorkersOf(requests), c.tpSize, c.pageFirst, xs);
      var ys :| SealedFrom(u.value, WorkersOf(requests'), c.tpSize, c.pageFirst, ys);
      SealDeterministic(t.value, u.value, WorkersOf(requests), c.tpSize, c.pageFirst, xs, ys);
    }
  }
}
