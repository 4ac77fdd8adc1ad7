/**
 What the store owes its callers (pegaflow-core/src/storage): which deliveries the
 held blocks go back to, the GPU bytes those carried, the saves under way, and the
 host memory all of them occupy.
 */
module Ledger {
  import opened Prelude
  import opened Blocks
  import opened InsertEntries
  import opened Memory
  import opened Topology
  import opened SavePlan
  import opened Placement
  import opened Pipeline
  import opened SaveLoad

  /** A block handed out; it stays readable after it has left the cache. */
  datatype Loan = Loan(key: BlockKey, block: SealedBlock, stream: Stream)

  /**
   The store's maps, the blocks on loan, everything ever delivered with the bytes
   it carried, and the saves under way.
   */
  datatype Book = Book(shelves: Shelves, loans: map<nat, Loan>, history: seq<Delivery>, images: seq<map<nat, Mem>>,
                       tickets: map<nat, Ticket>)

  // ---------------------------------------------------------------------------
  // Deliveries still in use
  // ---------------------------------------------------------------------------

  /** Position `k` is a stream's first delivery for its slot. */
  predicate FirstOf(history: seq<Delivery>, s: Stream, k: nat) {
    exists i :: 0 <= i < |s| && FirstAtIndex(history, s, k, i)
  }

  predicate FirstAtIndex(history: seq<Delivery>, s: Stream, k: nat, i: int)
    requires 0 <= i < |s|
  {
    && s[i] == k && k < |history|
    && forall j :: 0 <= j < i ==> s[j] < |history| && history[s[j]].insert.slot != history[k].insert.slot
  }

  function LoanStreams(loans: map<nat, Loan>): set<Stream> { set id | id in loans :: loans[id].stream }

  /** The streams of all blocks that are inflight, resident or on loan. */
  function Streams(b: Book): set<Stream> {
    b.shelves.pending.Values + b.shelves.origins.Values + LoanStreams(b.loans)
  }

  ghost predicate InUse(history: seq<Delivery>, streams: set<Stream>, k: nat) {
    exists s :: s in streams && FirstOf(history, s, k)
  }

  lemma FirstAtInUse(history: seq<Delivery>, streams: set<Stream>, s: Stream, slot: nat)
    requires s in streams && (forall i :: 0 <= i < |s| ==> s[i] < |history|) && Offered(InsertsAt(history, s), slot)
    ensures InUse(history, streams, FirstAt(history, s, slot))
  {
    var f := FirstOffer(InsertsAt(history, s), slot);
    assert FirstAtIndex(history, s, s[f], f);
    assert FirstOf(history, s, s[f]);
  }

  /** Dropping blocks frees deliveries and never adds any. */
  lemma InUseShrinks(history: seq<Delivery>, streams: set<Stream>, fewer: set<Stream>, k: nat)
    requires fewer <= streams && InUse(history, fewer, k)
    ensures InUse(history, streams, k)
  {
    var s :| s in fewer && FirstOf(history, s, k);
    assert s in streams && FirstOf(history, s, k);
  }

  /** A stream that continues another one uses its deliveries, and new ones. */
  lemma DerivedUses(history: seq<Delivery>, more: seq<Delivery>, base: Stream, s: Stream, k: nat)
    requires Derived(base, s, |history|) && FirstOf(history + more, s, k) && k < |history|
    requires forall j :: 0 <= j < |base| ==> base[j] < |history|
    ensures FirstOf(history, base, k)
  {
    var i :| 0 <= i < |s| && FirstAtIndex(history + more, s, k, i);
    assert i < |base| && base[i] == s[i];
    forall j | 0 <= j < i ensures base[j] < |history| && history[base[j]].insert.slot != history[k].insert.slot {
      assert base[j] == s[j];
    }
    assert FirstAtIndex(history, base, k, i);
  }

  /** The memory behind the held blocks still has the bytes their first deliveries carried. */
  ghost predicate Remembers(t: Topology, shapes: seq<seq<nat>>, host: Mem, history: seq<Delivery>,
                            images: seq<map<nat, Mem>>, streams: set<Stream>)
    requires Sound(t, shapes)
  {
    && |images| == |history|
    && forall k: nat {:trigger InUse(history, streams, k)} :: InUse(history, streams, k) ==>
         k < |history| && Keeps(t, shapes, host, history[k].insert, images[k])
  }

  /** A byte some held block occupies. */
  ghost predicate IsLive(t: Topology, shapes: seq<seq<nat>>, history: seq<Delivery>, streams: set<Stream>, a: nat)
    requires Sound(t, shapes)
  {
    exists k: nat :: LiveBy(t, shapes, history, streams, a, k)
  }

  ghost predicate LiveBy(t: Topology, shapes: seq<seq<nat>>, history: seq<Delivery>, streams: set<Stream>, a: nat,
                         k: nat)
    requires Sound(t, shapes)
  {
    InUse(history, streams, k) && k < |history| && Occupies(t, shapes, history[k].insert, a)
  }

  ghost function Live(t: Topology, shapes: seq<seq<nat>>, hostLen: nat, history: seq<Delivery>,
                      streams: set<Stream>): set<nat>
    requires Sound(t, shapes)
  {
    set a | 0 <= a < hostLen && IsLive(t, shapes, history, streams, a)
  }

  /** The bytes a save under way writes. */
  ghost function Claimed(k: Ticket, hostLen: nat): set<nat> { Touched(k.plan.transfers, hostLen) }

  ghost function Reserved(tickets: map<nat, Ticket>, hostLen: nat): set<nat> {
    set a | 0 <= a < hostLen && ClaimedBySome(tickets, hostLen, a)
  }

  ghost predicate ClaimedBySome(tickets: map<nat, Ticket>, hostLen: nat, a: nat) {
    exists id :: id in tickets && a in Claimed(tickets[id], hostLen)
  }

  /** Saves under way own their bytes: neither held blocks nor other saves use them. */
  ghost predicate Apart(tickets: map<nat, Ticket>, hostLen: nat, live: set<nat>) {
    && (forall id :: id in tickets ==> Claimed(tickets[id], hostLen) !! live)
    && (forall id, other :: id in tickets && other in tickets && id != other ==>
          Claimed(tickets[id], hostLen) !! Claimed(tickets[other], hostLen))
  }

  /** A save under way has a sound plan, and keeps what it has copied. */
  ghost predicate TicketSound(t: Topology, shapes: seq<seq<nat>>, ns: string, host: Mem, k: Ticket) {
    && Planned(t, shapes, ns, k, |host|, {})
    && (k.copied.Some? ==> AllCopied(k.plan.transfers, host, k.copied.value))
  }

  ghost predicate TicketsSound(t: Topology, shapes: seq<seq<nat>>, ns: string, host: Mem, tickets: map<nat, Ticket>) {
    forall id {:trigger TicketSound(t, shapes, ns, host, tickets[id])} ::
      id in tickets ==> TicketSound(t, shapes, ns, host, tickets[id])
  }

  ghost predicate LoansTracked(loans: map<nat, Loan>, history: seq<Delivery>, total: nat) {
    forall id {:trigger Sealed(loans[id].block, history, loans[id].key, loans[id].stream)} :: id in loans ==>
      Sealed(loans[id].block, history, loans[id].key, loans[id].stream) && |loans[id].block.slots| == total
  }

  /** Every block goes back to its deliveries. */
  ghost predicate Shelved(b: Book, total: nat) {
    && b.shelves.Tracked(b.history) && Uniform(b.shelves.inflight, b.shelves.cache, total)
    && LoansTracked(b.loans, b.history, total)
  }

  /** Host memory has what the held blocks and the saves under way put there, and nothing is claimed twice. */
  ghost predicate Stocked(t: Topology, shapes: seq<seq<nat>>, ns: string, host: Mem, history: seq<Delivery>,
                          images: seq<map<nat, Mem>>, streams: set<Stream>, tickets: map<nat, Ticket>)
    requires Sound(t, shapes)
  {
    && Remembers(t, shapes, host, history, images, streams)
    && TicketsSound(t, shapes, ns, host, tickets)
    && Apart(tickets, |host|, Live(t, shapes, |host|, history, streams))
  }

  /** The store's invariant. */
  ghost predicate Sane(t: Topology, shapes: seq<seq<nat>>, ns: string, host: Mem, b: Book) {
    && Sound(t, shapes)
    && Shelved(b, t.TotalSlots())
    && Stocked(t, shapes, ns, host, b.history, b.images, Streams(b), b.tickets)
  }

  // ---------------------------------------------------------------------------
  // Fewer blocks, fewer claims
  // ---------------------------------------------------------------------------

  lemma LiveShrinks(t: Topology, shapes: seq<seq<nat>>, hostLen: nat, history: seq<Delivery>, streams: set<Stream>,
                    fewer: set<Stream>)
    requires Sound(t, shapes) && fewer <= streams
    ensures Live(t, shapes, hostLen, history, fewer) <= Live(t, shapes, hostLen, history, streams)
  {
    forall a | a in Live(t, shapes, hostLen, history, fewer) ensures a in Live(t, shapes, hostLen, history, streams) {
      var k: nat :| LiveBy(t, shapes, history, fewer, a, k);
      InUseShrinks(history, streams, fewer, k);
      assert LiveBy(t, shapes, history, streams, a, k);
    }
  }

  lemma RemembersFewer(t: Topology, shapes: seq<seq<nat>>, host: Mem, history: seq<Delivery>,
                       images: seq<map<nat, Mem>>, streams: set<Stream>, fewer: set<Stream>)
    requires Sound(t, shapes) && fewer <= streams && Remembers(t, shapes, host, history, images, streams)
    ensures Remembers(t, shapes, host, history, images, fewer)
  {
    forall k: nat | InUse(history, fewer, k)
      ensures k < |history| && Keeps(t, shapes, host, history[k].insert, images[k])
    {
      InUseShrinks(history, streams, fewer, k);
    }
  }

  lemma ApartLess(tickets: map<nat, Ticket>, hostLen: nat, live: set<nat>, fewer: map<nat, Ticket>, less: set<nat>)
    requires Apart(tickets, hostLen, live) && less <= live
    requires forall id :: id in fewer ==> id in tickets && fewer[id] == tickets[id]
    ensures Apart(fewer, hostLen, less)
  {
  }

  // ---------------------------------------------------------------------------
  // A save is planned, and copied
  // ---------------------------------------------------------------------------

  lemma ClaimsReserved(tickets: map<nat, Ticket>, hostLen: nat, id: nat)
    requires id in tickets
    ensures Claimed(tickets[id], hostLen) <= Reserved(tickets, hostLen)
  {
    forall a | a in Claimed(tickets[id], hostLen) ensures a in Reserved(tickets, hostLen) {
      assert ClaimedBySome(tickets, hostLen, a);
    }
  }

  /** Memory granted outside live and reserved bytes keeps all saves apart. */
  lemma ApartMore(tickets: map<nat, Ticket>, hostLen: nat, live: set<nat>, id: nat, k: Ticket)
    requires Apart(tickets, hostLen, live) && id !in tickets
    requires Claimed(k, hostLen) !! live + Reserved(tickets, hostLen)
    ensures Apart(tickets[id := k], hostLen, live)
  {
    forall other | other in tickets ensures Claimed(tickets[other], hostLen) !! Claimed(k, hostLen) {
      ClaimsReserved(tickets, hostLen, other);
    }
  }

  lemma PlanIsFree(t: Topology, shapes: seq<seq<nat>>, ns: string, k: Ticket, hostLen: nat, live: set<nat>)
    requires Planned(t, shapes, ns, k, hostLen, live)
    ensures Planned(t, shapes, ns, k, hostLen, {}) && Claimed(k, hostLen) !! live
    ensures k.copied.None? ==> forall host: Mem :: |host| == hostLen ==> TicketSound(t, shapes, ns, host, k)
  {
    GoodWritesFree(k.plan, t, shapes, Pending(t, k.w, k.tpRank, k.saves, ns, k.resident), hostLen, live);
  }

  /** Memory that held blocks occupy keeps their images when others write elsewhere. */
  lemma RemembersFrame(t: Topology, shapes: seq<seq<nat>>, host: Mem, host': Mem, history: seq<Delivery>,
                       images: seq<map<nat, Mem>>, streams: set<Stream>)
    requires Sound(t, shapes) && Remembers(t, shapes, host, history, images, streams) && |host'| == |host|
    requires forall a :: a in Live(t, shapes, |host|, history, streams) ==> host'[a] == host[a]
    ensures Remembers(t, shapes, host', history, images, streams)
  {
    forall k: nat | InUse(history, streams, k)
      ensures k < |history| && Keeps(t, shapes, host', history[k].insert, images[k])
    {
      forall a: nat | a < |host| && Occupies(t, shapes, history[k].insert, a) ensures host'[a] == host[a] {
        assert LiveBy(t, shapes, history, streams, a, k);
        assert a in Live(t, shapes, |host|, history, streams);
      }
      KeepsFrame(t, shapes, host, host', history[k].insert, images[k]);
    }
  }

  lemma TicketFrame(t: Topology, shapes: seq<seq<nat>>, ns: string, host: Mem, host': Mem, k: Ticket)
    requires TicketSound(t, shapes, ns, host, k) && |host'| == |host|
    requires forall a :: a in Claimed(k, |host|) ==> host'[a] == host[a]
    ensures TicketSound(t, shapes, ns, host', k)
  {
    if k.copied.Some? {
      CopiedFrame(k.plan.transfers, host, host', k.copied.value);
    }
  }

  function Done(k: Ticket, gpu: Mem): Ticket { k.(copied := Some(gpu)) }

  lemma TicketsAfterCopy(t: Topology, shapes: seq<seq<nat>>, ns: string, host: Mem, host': Mem,
                         tickets: map<nat, Ticket>, id: nat, gpu: Mem, live: set<nat>)
    requires TicketsSound(t, shapes, ns, host, tickets) && Apart(tickets, |host|, live) && id in tickets
    requires |host'| == |host|
    requires forall a :: 0 <= a < |host| && a !in Claimed(tickets[id], |host|) ==> host'[a] == host[a]
    requires AllCopied(tickets[id].plan.transfers, host', gpu)
    ensures TicketsSound(t, shapes, ns, host', tickets[id := Done(tickets[id], gpu)])
  {
    forall other | other in tickets && other != id ensures TicketSound(t, shapes, ns, host', tickets[other]) {
      TicketFrame(t, shapes, ns, host, host', tickets[other]);
    }
    assert TicketSound(t, shapes, ns, host, tickets[id]);
    DoneSound(t, shapes, ns, host, host', tickets[id], gpu);
  }

  lemma DoneSound(t: Topology, shapes: seq<seq<nat>>, ns: string, host: Mem, host': Mem, k: Ticket, gpu: Mem)
    requires TicketSound(t, shapes, ns, host, k) && |host'| == |host| && AllCopied(k.plan.transfers, host', gpu)
    ensures TicketSound(t, shapes, ns, host', Done(k, gpu))
  {
  }

  lemma ApartAfterCopy(tickets: map<nat, Ticket>, hostLen: nat, live: set<nat>, id: nat, gpu: Mem)
    requires Apart(tickets, hostLen, live) && id in tickets
    ensures Apart(tickets[id := Done(tickets[id], gpu)], hostLen, live)
  {
    assert Claimed(Done(tickets[id], gpu), hostLen) == Claimed(tickets[id], hostLen);
  }

  /** The copy of one save disturbs no held block and no other save. */
  lemma CopyFrame(t: Topology, shapes: seq<seq<nat>>, ns: string, host: Mem, host': Mem, history: seq<Delivery>,
                  images: seq<map<nat, Mem>>, streams: set<Stream>, tickets: map<nat, Ticket>, id: nat, gpu: Mem)
    requires Sound(t, shapes) && Stocked(t, shapes, ns, host, history, images, streams, tickets) && id in tickets
    requires |host'| == |host|
    requires forall a :: 0 <= a < |host| && a !in Claimed(tickets[id], |host|) ==> host'[a] == host[a]
    requires AllCopied(tickets[id].plan.transfers, host', gpu)
    ensures Stocked(t, shapes, ns, host', history, images, streams, tickets[id := Done(tickets[id], gpu)])
  {
    var live := Live(t, shapes, |host|, history, streams);
    assert Claimed(tickets[id], |host|) !! live;
    RemembersFrame(t, shapes, host, host', history, images, streams);
    TicketsAfterCopy(t, shapes, ns, host, host', tickets, id, gpu, live);
    ApartAfterCopy(tickets, |host|, live, id, gpu);
  }

  // ---------------------------------------------------------------------------
  // A save is inserted
  // ---------------------------------------------------------------------------

  /** What the new deliveries find in memory. */
  ghost function NewImages(t: Topology, shapes: seq<seq<nat>>, host: Mem,
                           offers: seq<Delivery>): (r: seq<map<nat, Mem>>)
    requires Sound(t, shapes)
    ensures |r| == |offers| && forall i :: 0 <= i < |r| ==> r[i] == ImageOf(t, shapes, host, offers[i].insert)
  {
    seq(|offers|, i requires 0 <= i < |offers| => ImageOf(t, shapes, host, offers[i].insert))
  }

  lemma NewImagesRead(t: Topology, shapes: seq<seq<nat>>, host: Mem, history: seq<Delivery>, images: seq<map<nat, Mem>>,
                      offers: seq<Delivery>)
    requires Sound(t, shapes) && |images| == |history|
    ensures ReadFrom(t, shapes, host, history + offers, |history|, images + NewImages(t, shapes, host, offers))
  {
  }

  /** The streams in use go back to streams that were in use, or start over. */
  ghost predicate Continues(streams: set<Stream>, next: set<Stream>, from: nat) {
    forall s :: s in next ==> exists base :: (base == [] || base in streams) && Derived(base, s, from)
  }

  ghost predicate AllBelow(streams: set<Stream>, n: nat) {
    forall s, i :: s in streams && 0 <= i < |s| ==> s[i] < n
  }

  lemma UsesOldOrNew(history: seq<Delivery>, more: seq<Delivery>, streams: set<Stream>, next: set<Stream>, k: nat)
    requires Continues(streams, next, |history|) && AllBelow(streams, |history|) && InUse(history + more, next, k)
    ensures k < |history + more| && (k < |history| ==> InUse(history, streams, k))
  {
    var s :| s in next && FirstOf(history + more, s, k);
    var base :| (base == [] || base in streams) && Derived(base, s, |history|);
    if k < |history| {
      DerivedUses(history, more, base, s, k);
    }
  }

  /** The new deliveries are kept, in bytes the save wrote. */
  ghost predicate OffersKept(t: Topology, shapes: seq<seq<nat>>, k: Ticket, host: Mem, offers: seq<Delivery>)
    requires Sound(t, shapes) && k.copied.Some?
  {
    forall i :: 0 <= i < |offers| ==> DeliveryKept(t, shapes, k, host, offers[i])
  }

  /** All deliveries of a copied save. */
  lemma BatchKept(t: Topology, shapes: seq<seq<nat>>, ns: string, k: Ticket, host: Mem, entries: seq<Entry>, numa: nat)
    requires Sound(t, shapes) && Copied(t, shapes, ns, k, host) && Built(entries, ns, k.plan.layers)
    ensures OffersKept(t, shapes, k, host, BatchOffers(entries, numa))
  {
    forall i | 0 <= i < |BatchOffers(entries, numa)|
      ensures DeliveryKept(t, shapes, k, host, BatchOffers(entries, numa)[i])
    {
      DeliveriesKept(t, shapes, ns, k, host, entries, numa, i);
    }
  }

  ghost predicate ImagesKept(t: Topology, shapes: seq<seq<nat>>, host: Mem, offers: seq<Delivery>,
                             images: seq<map<nat, Mem>>)
    requires Sound(t, shapes)
  {
    |images| == |offers| && forall i :: 0 <= i < |offers| ==> Keeps(t, shapes, host, offers[i].insert, images[i])
  }

  lemma NewImagesKept(t: Topology, shapes: seq<seq<nat>>, k: Ticket, host: Mem, offers: seq<Delivery>)
    requires Sound(t, shapes) && k.copied.Some? && OffersKept(t, shapes, k, host, offers)
    ensures ImagesKept(t, shapes, host, offers, NewImages(t, shapes, host, offers))
  {
    forall i | 0 <= i < |offers|
      ensures Keeps(t, shapes, host, offers[i].insert, ImageOf(t, shapes, host, offers[i].insert))
    {
      assert DeliveryKept(t, shapes, k, host, offers[i]);
    }
  }

  lemma RemembersMore(t: Topology, shapes: seq<seq<nat>>, host: Mem, history: seq<Delivery>, images: seq<map<nat, Mem>>,
                      offers: seq<Delivery>, more: seq<map<nat, Mem>>, streams: set<Stream>, next: set<Stream>)
    requires Sound(t, shapes) && Remembers(t, shapes, host, history, images, streams)
    requires ImagesKept(t, shapes, host, offers, more)
    requires Continues(streams, next, |history|) && AllBelow(streams, |history|)
    ensures Remembers(t, shapes, host, history + offers, images + more, next)
  {
    var ds, ms := history + offers, images + more;
    forall i: nat | InUse(ds, next, i) ensures i < |ds| && Keeps(t, shapes, host, ds[i].insert, ms[i]) {
      UsesOldOrNew(history, offers, streams, next, i);
      if i < |history| {
        assert ds[i] == history[i] && ms[i] == images[i];
      } else {
        assert ds[i] == offers[i - |history|] && ms[i] == more[i - |history|];
      }
    }
  }

  lemma LiveMore(t: Topology, shapes: seq<seq<nat>>, k: Ticket, host: Mem, history: seq<Delivery>,
                 offers: seq<Delivery>, streams: set<Stream>, next: set<Stream>)
    requires Sound(t, shapes) && k.copied.Some? && OffersKept(t, shapes, k, host, offers)
    requires Continues(streams, next, |history|) && AllBelow(streams, |history|)
    ensures Live(t, shapes, |host|, history + offers, next)
         <= Live(t, shapes, |host|, history, streams) + Claimed(k, |host|)
  {
    forall a | a in Live(t, shapes, |host|, history + offers, next)
      ensures a in Live(t, shapes, |host|, history, streams) + Claimed(k, |host|)
    {
      var i: nat :| LiveBy(t, shapes, history + offers, next, a, i);
      UsesOldOrNew(history, offers, streams, next, i);
      if i < |history| {
        assert LiveBy(t, shapes, history, streams, a, i);
      } else {
        assert DeliveryKept(t, shapes, k, host, offers[i - |history|]);
      }
    }
  }

  lemma ApartAfterInsert(tickets: map<nat, Ticket>, hostLen: nat, live: set<nat>, id: nat, next: set<nat>)
    requires Apart(tickets, hostLen, live) && id in tickets && next <= live + Claimed(tickets[id], hostLen)
    ensures Apart(tickets - {id}, hostLen, next)
  {
  }

  /** A batch of the worker continues the store's streams. */
  lemma ShelvesContinue(was: Shelves, now: Shelves, loans: map<nat, Loan>, from: nat)
    requires OnlyNew(was, now, from)
    requires forall key :: key in now.origins && key in was.origins ==> now.origins[key] == was.origins[key]
    ensures Continues(was.pending.Values + was.origins.Values + LoanStreams(loans),
                      now.pending.Values + now.origins.Values + LoanStreams(loans), from)
  {
    var streams := was.pending.Values + was.origins.Values + LoanStreams(loans);
    forall s | s in now.pending.Values + now.origins.Values + LoanStreams(loans)
      ensures exists base :: (base == [] || base in streams) && Derived(base, s, from)
    {
      if s in now.pending.Values {
        var key :| key in now.pending && now.pending[key] == s;
        var base := StreamOfKey(was.pending, key);
        assert (base == [] || base in streams) && Derived(base, s, from);
      } else if s in now.origins.Values {
        var key :| key in now.origins && now.origins[key] == s;
        var base := if key in was.origins then s else StreamOfKey(was.pending, key);
        assert (base == [] || base in streams) && Derived(base, s, from);
      } else {
        assert s in streams && Derived(s, s, from);
      }
    }
  }

  lemma StreamsBelow(b: Book, total: nat)
    requires b.shelves.Tracked(b.history) && LoansTracked(b.loans, b.history, total)
    ensures AllBelow(Streams(b), |b.history|)
  {
    forall s, i | s in Streams(b) && 0 <= i < |s| ensures s[i] < |b.history| {
      if s in b.shelves.pending.Values {
        var key :| key in b.shelves.pending && b.shelves.pending[key] == s;
        assert Filled(b.shelves.inflight[key], b.history, key, s);
      } else if s in b.shelves.origins.Values {
        var key :| key in b.shelves.origins && b.shelves.origins[key] == s;
        assert Sealed(b.shelves.cache[key], b.history, key, s);
      } else {
        var id :| id in b.loans && b.loans[id].stream == s;
        assert Sealed(b.loans[id].block, b.history, b.loans[id].key, s);
      }
    }
  }

  lemma LoansStable(loans: map<nat, Loan>, history: seq<Delivery>, more: seq<Delivery>, total: nat)
    requires LoansTracked(loans, history, total)
    ensures LoansTracked(loans, history + more, total)
  {
    forall id | id in loans
      ensures Sealed(loans[id].block, history + more, loans[id].key, loans[id].stream)
      ensures |loans[id].block.slots| == total
    {
      assert Sealed(loans[id].block, history, loans[id].key, loans[id].stream);
      SealedStable(loans[id].block, history, more, loans[id].key, loans[id].stream);
    }
  }

  /** The book after a batch. */
  ghost function InsertedBook(t: Topology, shapes: seq<seq<nat>>, host: Mem, b: Book, id: nat, shelves: Shelves,
                              offers: seq<Delivery>): Book
    requires Sound(t, shapes)
  {
    Book(shelves, b.loans, b.history + offers, b.images + NewImages(t, shapes, host, offers), b.tickets - {id})
  }

  lemma StockedAfterInsert(t: Topology, shapes: seq<seq<nat>>, ns: string, host: Mem, history: seq<Delivery>,
                           images: seq<map<nat, Mem>>, streams: set<Stream>, tickets: map<nat, Ticket>, id: nat,
                           offers: seq<Delivery>, next: set<Stream>)
    requires Sound(t, shapes) && Stocked(t, shapes, ns, host, history, images, streams, tickets)
    requires id in tickets && tickets[id].copied.Some? && OffersKept(t, shapes, tickets[id], host, offers)
    requires Continues(streams, next, |history|) && AllBelow(streams, |history|)
    ensures Stocked(t, shapes, ns, host, history + offers, images + NewImages(t, shapes, host, offers), next,
                    tickets - {id})
  {
    NewImagesKept(t, shapes, tickets[id], host, offers);
    RemembersMore(t, shapes, host, history, images, offers, NewImages(t, shapes, host, offers), streams, next);
    LiveMore(t, shapes, tickets[id], host, history, offers, streams, next);
    ApartAfterInsert(tickets, |host|, Live(t, shapes, |host|, history, streams), id,
                     Live(t, shapes, |host|, history + offers, next));
  }

  /** Inserting a copied save keeps the invariant, whatever happened since it was planned. */
  lemma InsertKeeps(t: Topology, shapes: seq<seq<nat>>, ns: string, host: Mem, b: Book, id: nat, shelves: Shelves,
                    offers: seq<Delivery>)
    requires Sane(t, shapes, ns, host, b) && id in b.tickets && b.tickets[id].copied.Some?
    requires OffersKept(t, shapes, b.tickets[id], host, offers)
    requires shelves.Tracked(b.history + offers) && Uniform(shelves.inflight, shelves.cache, t.TotalSlots())
    requires OnlyNew(b.shelves, shelves, |b.history|)
    requires forall key :: key in shelves.origins && key in b.shelves.origins ==>
      shelves.origins[key] == b.shelves.origins[key]
    ensures Sane(t, shapes, ns, host, InsertedBook(t, shapes, host, b, id, shelves, offers))
  {
    var next := InsertedBook(t, shapes, host, b, id, shelves, offers);
    ShelvesContinue(b.shelves, shelves, b.loans, |b.history|);
    StreamsBelow(b, t.TotalSlots());
    LoansStable(b.loans, b.history, offers, t.TotalSlots());
    StockedAfterInsert(t, shapes, ns, host, b.history, b.images, Streams(b), b.tickets, id, offers, Streams(next));
  }

  lemma StockedAfterReserve(t: Topology, shapes: seq<seq<nat>>, ns: string, host: Mem, history: seq<Delivery>,
                            images: seq<map<nat, Mem>>, streams: set<Stream>, tickets: map<nat, Ticket>, id: nat,
                            k: Ticket)
    requires Sound(t, shapes) && Stocked(t, shapes, ns, host, history, images, streams, tickets) && id !in tickets
    requires TicketSound(t, shapes, ns, host, k)
    requires Claimed(k, |host|) !! Live(t, shapes, |host|, history, streams) + Reserved(tickets, |host|)
    ensures Stocked(t, shapes, ns, host, history, images, streams, tickets[id := k])
  {
    ApartMore(tickets, |host|, Live(t, shapes, |host|, history, streams), id, k);
  }

  /** Planning a save in free memory keeps the invariant. */
  lemma ReserveKeeps(t: Topology, shapes: seq<seq<nat>>, ns: string, host: Mem, b: Book, id: nat, k: Ticket)
    requires Sane(t, shapes, ns, host, b) && id !in b.tickets && TicketSound(t, shapes, ns, host, k)
    requires Claimed(k, |host|) !! Live(t, shapes, |host|, b.history, Streams(b)) + Reserved(b.tickets, |host|)
    ensures Sane(t, shapes, ns, host, b.(tickets := b.tickets[id := k]))
  {
    StockedAfterReserve(t, shapes, ns, host, b.history, b.images, Streams(b), b.tickets, id, k);
  }

  /** Dropping blocks, loans or saves under way keeps the invariant. */
  lemma DropKeeps(t: Topology, shapes: seq<seq<nat>>, ns: string, host: Mem, b: Book, fewer: Book)
    requires Sane(t, shapes, ns, host, b) && Shelved(fewer, t.TotalSlots())
    requires fewer.history == b.history && fewer.images == b.images && Streams(fewer) <= Streams(b)
    requires forall id :: id in fewer.tickets ==> id in b.tickets && fewer.tickets[id] == b.tickets[id]
    ensures Sane(t, shapes, ns, host, fewer)
  {
    RemembersFewer(t, shapes, host, b.history, b.images, Streams(b), Streams(fewer));
    LiveShrinks(t, shapes, |host|, b.history, Streams(b), Streams(fewer));
    ApartLess(b.tickets, |host|, Live(t, shapes, |host|, b.history, Streams(b)), fewer.tickets,
              Live(t, shapes, |host|, b.history, Streams(fewer)));
  }

  lemma FewerValues(m: map<BlockKey, Stream>, keys: set<BlockKey>)
    ensures (m - keys).Values <= m.Values
  {
    forall v | v in (m - keys).Values ensures v in m.Values {
      var k :| k in m - keys && (m - keys)[k] == v;
      assert m[k] == v;
    }
  }

  /** The book without some resident blocks. */
  function Evicted(b: Book, keys: set<BlockKey>): Book {
    b.(shelves := b.shelves.(cache := b.shelves.cache - keys, origins := b.shelves.origins - keys))
  }

  lemma EvictKeeps(t: Topology, shapes: seq<seq<nat>>, ns: string, host: Mem, b: Book, keys: set<BlockKey>)
    requires Sane(t, shapes, ns, host, b)
    ensures Sane(t, shapes, ns, host, Evicted(b, keys))
  {
    FewerValues(b.shelves.origins, keys);
    EvictShelved(b, t.TotalSlots(), keys);
    DropKeeps(t, shapes, ns, host, b, Evicted(b, keys));
  }

  lemma EvictShelved(b: Book, total: nat, keys: set<BlockKey>)
    requires Shelved(b, total)
    ensures Shelved(Evicted(b, keys), total)
  {
  }

  /** The book without some inflight blocks. */
  function Expired(b: Book, keys: set<BlockKey>): Book {
    b.(shelves := b.shelves.(inflight := b.shelves.inflight - keys, pending := b.shelves.pending - keys))
  }

  lemma ExpireKeeps(t: Topology, shapes: seq<seq<nat>>, ns: string, host: Mem, b: Book, keys: set<BlockKey>)
    requires Sane(t, shapes, ns, host, b)
    ensures Sane(t, shapes, ns, host, Expired(b, keys))
  {
    FewerValues(b.shelves.pending, keys);
    ExpireShelved(b, t.TotalSlots(), keys);
    DropKeeps(t, shapes, ns, host, b, Expired(b, keys));
  }

  lemma ExpireShelved(b: Book, total: nat, keys: set<BlockKey>)
    requires Shelved(b, total)
    ensures Shelved(Expired(b, keys), total)
  {
  }

  /** The book with a resident block on loan. */
  function Lent(b: Book, id: nat, key: BlockKey): Book
    requires key in b.shelves.cache && key in b.shelves.origins
  {
    b.(loans := b.loans[id := Loan(key, b.shelves.cache[key], b.shelves.origins[key])])
  }

  lemma LendKeeps(t: Topology, shapes: seq<seq<nat>>, ns: string, host: Mem, b: Book, id: nat, key: BlockKey)
    requires Sane(t, shapes, ns, host, b) && id !in b.loans && key in b.shelves.cache && key in b.shelves.origins
    ensures Sane(t, shapes, ns, host, Lent(b, id, key))
  {
    LendShelved(b, t.TotalSlots(), id, key);
    assert Streams(Lent(b, id, key)) <= Streams(b);
    DropKeeps(t, shapes, ns, host, b, Lent(b, id, key));
  }

  lemma LendShelved(b: Book, total: nat, id: nat, key: BlockKey)
    requires Shelved(b, total) && key in b.shelves.cache && key in b.shelves.origins
    ensures Shelved(Lent(b, id, key), total)
  {
    assert Sealed(b.shelves.cache[key], b.history, key, b.shelves.origins[key]);
  }

  lemma {:induction false} FreshNumber(s: set<nat>) returns (n: nat)
    ensures forall x :: x in s ==> x < n
    decreases |s|
  {
    n := 0;
    if s != {} {
      var x :| x in s;
      var m := FreshNumber(s - {x});
      n := if m > x then m else x + 1;
      forall y | y in s ensures y < n {
        assert y == x || y in s - {x};
      }
    }
  }

  lemma LendFresh(t: Topology, shapes: seq<seq<nat>>, ns: string, host: Mem, b: Book, key: BlockKey) returns (id: nat)
    requires Sane(t, shapes, ns, host, b) && key in b.shelves.cache
    ensures key in b.shelves.origins && id !in b.loans && Sane(t, shapes, ns, host, Lent(b, id, key))
  {
    id := FreshNumber(b.loans.Keys);
    LendKeeps(t, shapes, ns, host, b, id, key);
  }

  /** The bytes the allocator must not hand out. */
  ghost function Occupied(t: Topology, shapes: seq<seq<nat>>, hostLen: nat, b: Book): set<nat>
    requires Sound(t, shapes)
  {
    Live(t, shapes, hostLen, b.history, Streams(b)) + Reserved(b.tickets, hostLen)
  }

  // ---------------------------------------------------------------------------
  // Reading a held block
  // ---------------------------------------------------------------------------

  predicate ResidentAs(b: Book, block: SealedBlock, key: BlockKey, s: Stream) {
    && key in b.shelves.cache && b.shelves.cache[key] == block
    && key in b.shelves.origins && b.shelves.origins[key] == s
  }

  /** The block is resident or on loan, built from these deliveries. */
  ghost predicate HeldAs(b: Book, block: SealedBlock, key: BlockKey, s: Stream) {
    || ResidentAs(b, block, key, s)
    || exists id :: id in b.loans && b.loans[id] == Loan(key, block, s)
  }

  lemma HeldSealed(b: Book, total: nat, block: SealedBlock, key: BlockKey, s: Stream)
    requires Shelved(b, total) && HeldAs(b, block, key, s)
    ensures Sealed(block, b.history, key, s) && |block.slots| == total && s in Streams(b)
  {
    if ResidentAs(b, block, key, s) {
      assert Sealed(b.shelves.cache[key], b.history, key, b.shelves.origins[key]);
    } else {
      var id :| id in b.loans && b.loans[id] == Loan(key, block, s);
    }
  }

  /** A slot of a held block has, layer by layer, the bytes of the first delivery it was built from. */
  lemma HeldKept(t: Topology, shapes: seq<seq<nat>>, ns: string, host: Mem, b: Book, block: SealedBlock,
                 key: BlockKey, s: Stream, slot: nat, l: nat)
    requires Sane(t, shapes, ns, host, b) && HeldAs(b, block, key, s) && slot < t.TotalSlots() && StoredIn(t, l, slot)
    ensures |block.slots| == t.TotalSlots() && ForKey(b.history, key, s) && Offered(InsertsAt(b.history, s), slot)
    ensures |b.images| == |b.history| && l in b.images[FirstAt(b.history, s, slot)]
    ensures LayerKept(t, shapes, host, block.slots[slot], l, b.images[FirstAt(b.history, s, slot)][l])
  {
    HeldSealed(b, t.TotalSlots(), block, key, s);
    SealedIsFirst(block, b.history, key, s, slot);
    FirstAtInUse(b.history, Streams(b), s, slot);
    var k := FirstAt(b.history, s, slot);
    assert Keeps(t, shapes, host, b.history[k].insert, b.images[k]);
  }
}
