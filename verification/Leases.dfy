/**
 Query leases (pegaflow-core/src/lease.rs): a query hands out a token; a bounded
 number of loads may consume it before it expires.
 */
module Leases {
  import opened Prelude
  import opened Blocks

  type Token = nat
  type Time = nat

  /** Ten minutes, in milliseconds. */
  const LEASE_TTL: nat := 600_000

  datatype Lease = Lease(instance: string, blocks: seq<SealedBlock>, remaining: nat, expires: Time)

  type LeaseMap = map<Token, Lease>

  datatype LeaseError = UnknownOrExpired | WrongInstance

  /** A lease is good for at least one load. */
  function AtLeastOne(n: nat): (r: nat)
    ensures r >= 1 && r >= n && (r == 1 || r == n)
  {
    if n == 0 then 1 else n
  }

  // ---------------------------------------------------------------------------
  // Operations on values
  // ---------------------------------------------------------------------------

  function Unexpired(leases: LeaseMap, now: Time): LeaseMap {
    map t | t in leases && leases[t].expires > now :: leases[t]
  }

  function ConsumeOutcome(leases: LeaseMap, instance: string, t: Token,
                          now: Time): Result<seq<SealedBlock>, LeaseError> {
    if t !in leases || leases[t].expires <= now then Err(UnknownOrExpired)
    else if leases[t].instance != instance then Err(WrongInstance)
    else Ok(leases[t].blocks)
  }

  function AfterConsume(leases: LeaseMap, instance: string, t: Token, now: Time): LeaseMap {
    var left := Unexpired(leases, now);
    if ConsumeOutcome(leases, instance, t, now).Err? then left
    else if left[t].remaining > 1 then left[t := left[t].(remaining := left[t].remaining - 1)]
    else left - {t}
  }

  function WithoutInstance(leases: LeaseMap, instance: string): LeaseMap {
    map t | t in leases && leases[t].instance != instance :: leases[t]
  }

  class QueryLeaseManager {
    var leases: LeaseMap

    constructor ()
      ensures leases == map[]
    {
      leases := map[];
    }

    /** Drop the leases whose time is up. */
    method SweepExpired(now: Time)
      modifies this
      ensures leases == Unexpired(old(leases), now)
    {
      var kept: LeaseMap := map[];
      var rest := leases.Keys;
      while rest != {}
        invariant rest <= leases.Keys && leases == old(leases)
        invariant kept == map t | t in leases && t !in rest && leases[t].expires > now :: leases[t]
        decreases rest
      {
        var t :| t in rest;
        rest := rest - {t};
        if leases[t].expires > now {
          kept := kept[t := leases[t]];
        }
      }
      leases := kept;
    }

    /** The expiry counts from a second clock reading. */
    method Create(t: Token, instance: string, blocks: seq<SealedBlock>, consumers: nat, swept: Time, now: Time)
      modifies this
      ensures
        var lease := Lease(instance, blocks, if consumers == 0 then 1 else consumers, now + 600_000);
        leases == Unexpired(old(leases), swept)[t := lease]
    {
      SweepExpired(swept);
      leases := leases[t := Lease(instance, blocks, AtLeastOne(consumers), now + LEASE_TTL)];
    }

    method Consume(instance: string, t: Token, now: Time) returns (r: Result<seq<SealedBlock>, LeaseError>)
      modifies this
      ensures r == ConsumeOutcome(old(leases), instance, t, now)
      ensures r == Err(UnknownOrExpired) <==> t !in old(leases) || old(leases)[t].expires <= now
      ensures r == Err(WrongInstance) <==>
              t in old(leases) && old(leases)[t].expires > now && old(leases)[t].instance != instance
      ensures leases == AfterConsume(old(leases), instance, t, now)
    {
      SweepExpired(now);
      if t !in leases {
        return Err(UnknownOrExpired);
      }
      var lease := leases[t];
      if lease.instance != instance {
        return Err(WrongInstance);
      }
      if lease.remaining > 1 {
        leases := leases[t := lease.(remaining := lease.remaining - 1)];
        return Ok(lease.blocks);
      }
      leases := leases - {t};
      return Ok(lease.blocks);
    }

    method Release(t: Token, now: Time) returns (found: bool)
      modifies this
      ensures found == (t in Unexpired(old(leases), now)) && leases == Unexpired(old(leases), now) - {t}
    {
      SweepExpired(now);
      found := t in leases;
      leases := leases - {t};
    }

    method ReleaseInstance(instance: string)
      modifies this
      ensures leases == WithoutInstance(old(leases), instance)
    {
      leases := map t | t in leases && leases[t].instance != instance :: leases[t];
    }
  }

  /** A refused consume leaves every unexpired lease as it was. */
  lemma RefusedConsumeHarmless(leases: LeaseMap, instance: string, t: Token, now: Time, other: Token)
    requires ConsumeOutcome(leases, instance, t, now).Err? && other in leases && leases[other].expires > now
    ensures other in AfterConsume(leases, instance, t, now)
    ensures AfterConsume(leases, instance, t, now)[other] == leases[other]
  {
  }

  // ---------------------------------------------------------------------------
  // Runs
  // ---------------------------------------------------------------------------

  datatype Op =
    | Create(token: Token, instance: string, blocks: seq<SealedBlock>, consumers: nat)
    | Consume(instance: string, token: Token)
    | Release(token: Token)
    | ReleaseInstance(instance: string)
    | Sweep

  datatype Event = Event(op: Op, at: Time, done: Time)

  function Step(leases: LeaseMap, e: Event): LeaseMap {
    match e.op
    case Create(t, instance, blocks, consumers) =>
      Unexpired(leases, e.at)[t := Lease(instance, blocks, AtLeastOne(consumers), e.done + LEASE_TTL)]
    case Consume(instance, t) => AfterConsume(leases, instance, t, e.at)
    case Release(t) => Unexpired(leases, e.at) - {t}
    case ReleaseInstance(instance) => WithoutInstance(leases, instance)
    case Sweep => Unexpired(leases, e.at)
  }

  /** The manager's methods are these steps. */
  method Execute(m: QueryLeaseManager, e: Event)
    modifies m
    ensures m.leases == Step(old(m.leases), e)
  {
    match e.op {
      case Create(t, instance, blocks, consumers) => m.Create(t, instance, blocks, consumers, e.at, e.done);
      case Consume(instance, t) => var _ := m.Consume(instance, t, e.at);
      case Release(t) => var _ := m.Release(t, e.at);
      case ReleaseInstance(instance) => m.ReleaseInstance(instance);
      case Sweep => m.SweepExpired(e.at);
    }
  }

  /** The leases before event `i`. */
  function At(es: seq<Event>, i: nat): LeaseMap
    requires i <= |es|
  {
    if i == 0 then map[] else Step(At(es, i - 1), es[i - 1])
  }

  predicate Ordered(es: seq<Event>) {
    && (forall i :: 0 <= i < |es| ==> es[i].at <= es[i].done)
    && (forall i, j :: 0 <= i < j < |es| ==> es[i].done <= es[j].at)
  }

  predicate Creates(es: seq<Event>, i: nat, t: Token) { i < |es| && es[i].op.Create? && es[i].op.token == t }

  /** Tokens are fresh. */
  ghost predicate UniqueTokens(es: seq<Event>) {
    forall i: nat, j: nat, t :: Creates(es, i, t) && Creates(es, j, t) ==> i == j
  }

  /** Event `m` is a successful consume of the token. */
  predicate Consumes(es: seq<Event>, m: nat, t: Token) {
    && m < |es| && es[m].op.Consume? && es[m].op.token == t
    && ConsumeOutcome(At(es, m), es[m].op.instance, t, es[m].at).Ok?
  }

  function Successes(es: seq<Event>, i: nat, j: nat, t: Token): nat
    requires i <= j <= |es|
    decreases j - i
  {
    if i == j then 0 else Successes(es, i, j - 1, t) + (if Consumes(es, j - 1, t) then 1 else 0)
  }

  predicate ReleasedAt(es: seq<Event>, m: nat, t: Token, instance: string) {
    m < |es| && (es[m].op == Release(t) || es[m].op == ReleaseInstance(instance))
  }

  ghost predicate ReleasedIn(es: seq<Event>, i: nat, j: nat, t: Token, instance: string) {
    exists m: nat :: i < m < j && ReleasedAt(es, m, t, instance)
  }

  lemma {:induction false} NotCreated(es: seq<Event>, j: nat, t: Token)
    requires j <= |es| && forall i: nat :: i < j ==> !Creates(es, i, t)
    ensures t !in At(es, j)
  {
    if j > 0 {
      NotCreated(es, j - 1, t);
      assert !Creates(es, j - 1, t);
    }
  }

  /** What has become of a lease created at event `i`, before event `j`. */
  ghost predicate Accounted(es: seq<Event>, i: nat, j: nat, t: Token)
    requires i < j <= |es| && Creates(es, i, t)
  {
    var grant := if es[i].op.consumers == 0 then 1 else es[i].op.consumers;
    var used := Successes(es, i + 1, j, t);
    if t in At(es, j) then
      var lease := At(es, j)[t];
      && lease.instance == es[i].op.instance && lease.blocks == es[i].op.blocks
      && lease.expires == es[i].done + 600_000
      && lease.remaining > 0 && lease.remaining + used == grant
      && !ReleasedIn(es, i, j, t, es[i].op.instance)
    else
      used == grant || es[j - 1].at >= es[i].done + 600_000 || ReleasedIn(es, i, j, t, es[i].op.instance)
  }

  lemma ReleasedStep(es: seq<Event>, i: nat, j: nat, t: Token, instance: string)
    requires i < j < |es|
    ensures ReleasedIn(es, i, j + 1, t, instance)
       <==> ReleasedIn(es, i, j, t, instance) || ReleasedAt(es, j, t, instance)
  {
  }

  lemma {:induction false} LeaseAccounted(es: seq<Event>, i: nat, j: nat, t: Token)
    requires Ordered(es) && UniqueTokens(es) && i < j <= |es| && Creates(es, i, t)
    ensures Accounted(es, i, j, t)
    decreases j
  {
    if j > i + 1 {
      LeaseAccounted(es, i, j - 1, t);
      ReleasedStep(es, i, j - 1, t, es[i].op.instance);
      assert !Creates(es, j - 1, t);
      StepAccounted(es, i, j - 1, t);
    }
  }

  lemma StepAccounted(es: seq<Event>, i: nat, j: nat, t: Token)
    requires Ordered(es) && i < j < |es| && Creates(es, i, t) && !Creates(es, j, t) && Accounted(es, i, j, t)
    requires ReleasedIn(es, i, j + 1, t, es[i].op.instance) <==>
             ReleasedIn(es, i, j, t, es[i].op.instance) || ReleasedAt(es, j, t, es[i].op.instance)
    ensures Accounted(es, i, j + 1, t)
  {
    assert es[j - 1].at <= es[j].at;
  }

  /** The consume at event `j` is covered by the lease created at event `i`. */
  ghost predicate Covered(es: seq<Event>, i: nat, j: nat, instance: string, t: Token) {
    && i < j < |es| && Creates(es, i, t) && es[i].op.instance == instance
    && es[j].at < es[i].done + 600_000
    && !ReleasedIn(es, i, j, t, instance)
    && Successes(es, i + 1, j, t) < (if es[i].op.consumers == 0 then 1 else es[i].op.consumers)
  }

  /**
   Over every run: a consume succeeds exactly when its own instance created the
   token, it is strictly before expiry, nothing released the lease, and fewer
   than max(1, consumers) consumes have succeeded; it returns the stored blocks.
   */
  lemma ConsumeExactly(es: seq<Event>, j: nat, instance: string, t: Token)
    requires Ordered(es) && UniqueTokens(es) && j < |es| && es[j].op == Consume(instance, t)
    ensures Consumes(es, j, t) <==> exists i: nat :: Covered(es, i, j, instance, t)
    ensures forall i: nat :: Covered(es, i, j, instance, t) ==>
      ConsumeOutcome(At(es, j), instance, t, es[j].at) == Ok(es[i].op.blocks)
  {
    if i: nat :| i < j && Creates(es, i, t) {
      LeaseAccounted(es, i, j, t);
      CoveredExactly(es, i, j, instance, t);
      assert forall k: nat :: Covered(es, k, j, instance, t) ==> k == i;
    } else {
      NotCreated(es, j, t);
    }
  }

  lemma CoveredExactly(es: seq<Event>, i: nat, j: nat, instance: string, t: Token)
    requires Ordered(es) && i < j < |es| && es[j].op == Consume(instance, t) && Creates(es, i, t)
    requires Accounted(es, i, j, t)
    ensures Consumes(es, j, t) <==> Covered(es, i, j, instance, t)
    ensures Consumes(es, j, t) ==> ConsumeOutcome(At(es, j), instance, t, es[j].at) == Ok(es[i].op.blocks)
  {
    assert es[j - 1].at <= es[j].at;
  }

  /** A token never yields more than its grant. */
  lemma NeverOverdrawn(es: seq<Event>, i: nat, t: Token)
    requires Ordered(es) && UniqueTokens(es) && Creates(es, i, t)
    ensures Successes(es, 0, |es|, t) <= if es[i].op.consumers == 0 then 1 else es[i].op.consumers
  {
    SuccessesBefore(es, i + 1, t);
    SuccessesSplit(es, i + 1, |es|, t);
    SuccessesBound(es, i, |es|, t);
  }

  lemma {:induction false} SuccessesSplit(es: seq<Event>, i: nat, j: nat, t: Token)
    requires i <= j <= |es|
    ensures Successes(es, 0, j, t) == Successes(es, 0, i, t) + Successes(es, i, j, t)
  {
    if i < j { SuccessesSplit(es, i, j - 1, t); }
  }

  lemma {:induction false} SuccessesBefore(es: seq<Event>, j: nat, t: Token)
    requires UniqueTokens(es) && 0 < j <= |es| && Creates(es, j - 1, t)
    ensures Successes(es, 0, j, t) == 0
  {
    NoSuccess(es, j - 1, t);
  }

  lemma {:induction false} NoSuccess(es: seq<Event>, j: nat, t: Token)
    requires j <= |es| && forall i: nat :: i < j ==> !Creates(es, i, t)
    ensures Successes(es, 0, j, t) == 0
  {
    if j > 0 {
      NoSuccess(es, j - 1, t);
      NotCreated(es, j - 1, t);
    }
  }

  lemma {:induction false} SuccessesBound(es: seq<Event>, i: nat, j: nat, t: Token)
    requires Ordered(es) && UniqueTokens(es) && i < j <= |es| && Creates(es, i, t)
    ensures Successes(es, i + 1, j, t) <= if es[i].op.consumers == 0 then 1 else es[i].op.consumers
    decreases j
  {
    if j > i + 1 {
      SuccessesBound(es, i, j - 1, t);
      LeaseAccounted(es, i, j - 1, t);
    }
  }
}
