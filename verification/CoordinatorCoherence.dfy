/**
 * Coherence: after every operation the coordinator's serving flows mirror the ledger's, both reverse
 * indexes are exact, a transfer has at most one open flow and names it, and the bulk byte count is the
 * sum over the open bulk flows.
 */
module CoordinatorCoherence {
  import opened Ids
  import opened Traffic
  import opened LedgerModel
  import opened LedgerAccounting
  import opened LedgerRecords
  import opened Deferral
  import opened CoordinatorModel

  type FlowTable = map<FlowId, Flow>
  type Transfers = map<Id, Transfer>

  // ---------------------------------------------------------------------------------------------
  // The bulk sum
  // ---------------------------------------------------------------------------------------------

  function Share(flow: Flow): nat { if flow.bulk then flow.declaredBytes else 0 }

  ghost function BulkSum(flows: FlowTable): nat
    decreases flows.Keys
  {
    if flows.Keys == {} then 0
    else var f :| f in flows.Keys; Share(flows[f]) + BulkSum(flows - {f})
  }

  lemma {:induction false} BulkSumWithout(flows: FlowTable, f: FlowId)
    requires f in flows
    ensures BulkSum(flows) == Share(flows[f]) + BulkSum(flows - {f})
    decreases flows.Keys
  {
    var g :| g in flows.Keys && BulkSum(flows) == Share(flows[g]) + BulkSum(flows - {g});
    if g != f {
      BulkSumWithout(flows - {g}, f);
      BulkSumWithout(flows - {f}, g);
      assert (flows - {g}) - {f} == (flows - {f}) - {g};
    }
  }

  lemma BulkSumWith(flows: FlowTable, f: FlowId, flow: Flow)
    requires f !in flows
    ensures BulkSum(flows[f := flow]) == BulkSum(flows) + Share(flow)
  {
    BulkSumWithout(flows[f := flow], f);
    assert flows[f := flow] - {f} == flows;
  }

  lemma BulkSumSame(flows: FlowTable, f: FlowId, flow: Flow)
    requires f in flows && Share(flow) == Share(flows[f])
    ensures BulkSum(flows[f := flow]) == BulkSum(flows)
  {
    BulkSumWithout(flows, f);
    BulkSumWithout(flows[f := flow], f);
    assert flows[f := flow] - {f} == flows - {f};
  }

  // ---------------------------------------------------------------------------------------------
  // The invariant
  // ---------------------------------------------------------------------------------------------

  predicate SameFlow(flow: Flow, entry: LedgerFlow) {
    && flow.owner.OfRequest? && flow.owner.request == entry.request
    && flow.traffic == entry.traffic && flow.declaredBytes == entry.declaredBytes
    && flow.observedBytes == entry.observedBytes
  }

  /**
   * Serving flows are the ledger's flows. While a request is being ended the ledger may already have
   * dropped its flows; `pending` names that request.
   */
  ghost predicate Mirrored(flows: FlowTable, entries: map<FlowId, LedgerFlow>, pending: set<Id>) {
    forall f {:trigger At(f)} :: At(f) ==>
      && (f in entries ==> f in flows && SameFlow(flows[f], entries[f]))
      && (f in flows && flows[f].owner.OfRequest? ==> f in entries || flows[f].owner.request in pending)
  }

  ghost predicate ByRequestExact(index: set<(Id, FlowId)>, flows: FlowTable) {
    forall p {:trigger At(p)} :: At(p) ==>
      (p in index <==> p.1 in flows && flows[p.1].owner.OfRequest? && flows[p.1].owner.request == p.0)
  }

  ghost predicate ByTransferExact(index: set<(Id, FlowId)>, flows: FlowTable) {
    forall p {:trigger At(p)} :: At(p) ==>
      (p in index <==> p.1 in flows && flows[p.1].owner == OfTransfer(p.0))
  }

  /** A transfer and its one open flow name each other. */
  ghost predicate Linked(flows: FlowTable, transfers: Transfers) {
    && (forall f {:trigger At(f)} :: At(f) && f in flows && flows[f].owner.OfTransfer? ==>
          flows[f].owner.transfer in transfers && transfers[flows[f].owner.transfer].flow == f)
    && (forall t {:trigger At(t)} :: At(t) && t in transfers && !transfers[t].flow.IsNil() ==>
          transfers[t].flow in flows && flows[transfers[t].flow].owner == OfTransfer(t))
  }

  ghost predicate OwnedExact(owned: set<(Id, Id)>, transfers: Transfers) {
    forall p {:trigger At(p)} :: At(p) ==>
      (p in owned <==> p.1 in transfers && transfers[p.1].request == p.0 && !p.0.IsNil())
  }

  ghost predicate Minted(flows: FlowTable, transfers: Transfers, nextFlow: nat) {
    && (forall f {:trigger At(f)} :: At(f) && f in flows && flows[f].owner.OfTransfer? ==>
          0 < f.sequence <= nextFlow)
    && (forall t {:trigger At(t)} :: At(t) && t in transfers ==> !t.IsNil())
  }

  ghost predicate BookOk(b: Book, transfers: Transfers, entries: map<FlowId, LedgerFlow>, pending: set<Id>) {
    && Mirrored(b.flows, entries, pending)
    && ByRequestExact(b.byRequest, b.flows) && ByTransferExact(b.byTransfer, b.flows)
    && Linked(b.flows, transfers) && Minted(b.flows, transfers, b.nextFlow)
    && b.bulk == BulkSum(b.flows)
  }

  ghost predicate LedgerOk(l: Ledger) {
    Accounted(l) && Structured(l) && QueueWithin(l) && EndedQueued(l.requests, l.terminalOrder)
  }

  ghost predicate Settling(s: Fabric, pending: set<Id>) {
    && BookOk(s.book, s.transfers, s.ledger.flows, pending)
    && OwnedExact(s.owned, s.transfers)
    && LedgerOk(s.ledger)
  }

  ghost predicate Sized(flows: FlowTable, limit: nat) {
    forall f {:trigger At(f)} :: At(f) && f in flows ==> flows[f].declaredBytes <= limit
  }

  /** The tables' ceilings, the ledger's limits, and limits small enough that the bulk sum fits in 64 bits. */
  ghost predicate Bounded(s: Fabric) {
    && Sized(s.book.flows, s.config.maxPayload)
    && |s.transfers| <= s.config.maxTransfers
    && s.ledger.limits == Normalised(s.config.ledger) && Roomy(s.ledger.limits, s.config)
  }

  /** Limits under which the declared bytes of all flows together fit in 64 bits. */
  predicate Roomy(l: Limits, c: Config) { (l.maxFlowsTotal + c.maxTransfers + 1) * c.maxPayload < TWO_64 }

  ghost predicate Settled(s: Fabric) { Settling(s, {}) && Bounded(s) && TableOk(s.defers) }

  /** Marks a state whose coherence a proof opens. */
  predicate Viewed(s: Fabric) { true }

  /** Coherence, kept closed so that proofs about whole steps do not unfold it for every state. */
  ghost predicate Coherent(s: Fabric) {
    forall t {:trigger Viewed(t)} :: Viewed(t) && t == s ==> Settled(t)
  }

  lemma View(s: Fabric)
    requires Coherent(s)
    ensures Settled(s)
  {
    assert Viewed(s);
  }

  lemma Close(s: Fabric)
    requires Settled(s)
    ensures Coherent(s)
  {
  }

  /** Coherence says nothing about the registries, the policy, the evidence or the counters. */
  lemma Unmoved(s: Fabric, s': Fabric)
    requires Coherent(s)
    requires s'.book == s.book && s'.transfers == s.transfers && s'.owned == s.owned
    requires s'.ledger == s.ledger && s'.config == s.config && s'.defers == s.defers
    ensures Coherent(s')
  {
    View(s);
    Close(s');
  }

  // ---------------------------------------------------------------------------------------------
  // Dropping one flow
  // ---------------------------------------------------------------------------------------------

  lemma DropServing(b: Book, transfers: Transfers, entries: map<FlowId, LedgerFlow>, pending: set<Id>, f: FlowId)
    requires BookOk(b, transfers, entries, pending) && f in b.flows && b.flows[f].owner.OfRequest?
    ensures BookOk(DropFlow(b, f), transfers, entries - {f}, pending)
    ensures b.flows[f].bulk ==> b.bulk >= b.flows[f].declaredBytes
  {
    BulkSumWithout(b.flows, f);
    var b' := DropFlow(b, f);
    assert ByRequestExact(b'.byRequest, b'.flows);
    assert Linked(b'.flows, transfers);
  }

  lemma DropMoving(b: Book, transfers: Transfers, entries: map<FlowId, LedgerFlow>, pending: set<Id>, f: FlowId)
    requires BookOk(b, transfers, entries, pending) && f in b.flows && b.flows[f].owner.OfTransfer?
    ensures BookOk(DropFlow(b, f), Unlinked(transfers, b.flows[f].owner.transfer, f), entries, pending)
    ensures b.flows[f].bulk ==> b.bulk >= b.flows[f].declaredBytes
  {
    BulkSumWithout(b.flows, f);
    assert At(f);
    var b' := DropFlow(b, f);
    assert f !in entries;
    assert ByTransferExact(b'.byTransfer, b'.flows);
    assert Linked(b'.flows, Unlinked(transfers, b.flows[f].owner.transfer, f));
  }

  lemma UnlinkedOwned(owned: set<(Id, Id)>, transfers: Transfers, t: Id, f: FlowId)
    requires OwnedExact(owned, transfers)
    ensures OwnedExact(owned, Unlinked(transfers, t, f))
  {
  }

  lemma LedgerRelease(l: Ledger, f: FlowId)
    requires LedgerOk(l)
    ensures LedgerOk(LedgerModel.ReleaseFlow(l, f).ledger)
    ensures LedgerModel.ReleaseFlow(l, f).ledger.flows == l.flows - {f}
  {
    ReleaseFlowAccounted(l, f);
    StepKeepsRecords(l, OpRelease(f));
    StepQueues(l, OpRelease(f));
    if f in l.flows { OneEntry(l.flows[f].request, f); }
  }

  /** Releasing one flow keeps everything, and the saturating subtraction never saturates. */
  lemma ReleaseOneSettles(s: Fabric, f: FlowId, pending: set<Id>)
    requires Settling(s, pending)
    ensures Settling(ReleaseOne(s, f), pending)
    ensures f in s.book.flows && s.book.flows[f].bulk ==> s.book.bulk >= s.book.flows[f].declaredBytes
  {
    if f in s.book.flows {
      match s.book.flows[f].owner
      case OfRequest(_, _) =>
        DropServing(s.book, s.transfers, s.ledger.flows, pending, f);
        LedgerRelease(s.ledger, f);
      case OfTransfer(t) =>
        DropMoving(s.book, s.transfers, s.ledger.flows, pending, f);
        UnlinkedOwned(s.owned, s.transfers, t, f);
    }
  }

  // ---------------------------------------------------------------------------------------------
  // Dropping many
  // ---------------------------------------------------------------------------------------------

  /** Request records differ at most in their flow counts. */
  ghost predicate SameRecords(before: map<Id, Request>, after: map<Id, Request>) {
    && after.Keys == before.Keys
    && forall id {:trigger At(id)} :: At(id) && id in before ==>
         after[id] == before[id].(activeFlows := after[id].activeFlows)
  }

  ghost predicate SameTransfers(before: Transfers, after: Transfers) {
    && after.Keys == before.Keys
    && forall t {:trigger At(t)} :: At(t) && t in before ==>
         && after[t] == before[t].(flow := after[t].flow)
         && (after[t].flow == before[t].flow || after[t].flow == NO_FLOW)
  }

  /** Nothing but flows has changed, and exactly the victims are gone. */
  ghost predicate Trimmed(s: Fabric, s': Fabric, victims: set<FlowId>) {
    && s' == s.(book := s'.book, transfers := s'.transfers, ledger := s'.ledger)
    && s'.book.flows == s.book.flows - victims && s'.book.nextFlow == s.book.nextFlow
    && s'.book.bulk <= s.book.bulk
    && SameTransfers(s.transfers, s'.transfers)
    && SameRecords(s.ledger.requests, s'.ledger.requests)
    && s'.ledger.terminalOrder == s.ledger.terminalOrder && s'.ledger.limits == s.ledger.limits
    && s'.ledger.nextFlow == s.ledger.nextFlow
  }

  lemma LedgerReleaseRecords(l: Ledger, f: FlowId)
    ensures var l' := LedgerModel.ReleaseFlow(l, f).ledger;
      && SameRecords(l.requests, l'.requests) && l'.terminalOrder == l.terminalOrder
      && l'.limits == l.limits && l'.nextFlow == l.nextFlow
  {
  }

  lemma ReleaseOneTrims(s: Fabric, f: FlowId)
    ensures Trimmed(s, ReleaseOne(s, f), {f})
  {
    if f in s.book.flows {
      LedgerReleaseRecords(s.ledger, f);
      DropTrims(s, f, s.transfers, LedgerModel.ReleaseFlow(s.ledger, f).ledger);
      if s.book.flows[f].owner.OfTransfer? {
        DropTrims(s, f, Unlinked(s.transfers, s.book.flows[f].owner.transfer, f), s.ledger);
      }
    }
  }

  lemma DropTrims(s: Fabric, f: FlowId, transfers: Transfers, l: Ledger)
    requires f in s.book.flows && SameTransfers(s.transfers, transfers)
    requires SameRecords(s.ledger.requests, l.requests) && l.terminalOrder == s.ledger.terminalOrder
    requires l.limits == s.ledger.limits && l.nextFlow == s.ledger.nextFlow
    ensures Trimmed(s, s.(book := DropFlow(s.book, f), transfers := transfers, ledger := l), {f})
  {
  }

  lemma TrimmedTwice(a: Fabric, b: Fabric, c: Fabric, v: set<FlowId>, w: set<FlowId>)
    requires Trimmed(a, b, v) && Trimmed(b, c, w)
    ensures Trimmed(a, c, v + w)
  {
  }

  lemma {:induction false} ReleaseAllSettles(s: Fabric, victims: set<FlowId>, pending: set<Id>)
    requires Settling(s, pending)
    ensures Settling(ReleaseAll(s, victims), pending) && Trimmed(s, ReleaseAll(s, victims), victims)
    decreases victims
  {
    if victims == {} {
    } else {
      var f :| f in victims && ReleaseAll(s, victims) == ReleaseAll(ReleaseOne(s, f), victims - {f});
      ReleaseOneSettles(s, f, pending);
      ReleaseOneTrims(s, f);
      ReleaseAllSettles(ReleaseOne(s, f), victims - {f}, pending);
      TrimmedTwice(s, ReleaseOne(s, f), ReleaseAll(s, victims), {f}, victims - {f});
      assert {f} + (victims - {f}) == victims;
    }
  }

  // ---------------------------------------------------------------------------------------------
  // Ending a request
  // ---------------------------------------------------------------------------------------------

  lemma AbandonOwnedLinks(s: Fabric, id: Id, pending: set<Id>)
    requires Settling(s, pending)
    ensures Settling(s.(transfers := AbandonOwned(s, id)), pending)
  {
  }

  /** No serving flow of the request is open, and the transfers it owns have ended and hold none. */
  ghost predicate Flowless(s: Fabric, id: Id) {
    && (forall f {:trigger At(f)} :: At(f) && f in s.book.flows && s.book.flows[f].owner.OfRequest? ==>
          s.book.flows[f].owner.request != id)
    && (forall f {:trigger At(f)} :: At(f) && f in s.ledger.flows ==> s.ledger.flows[f].request != id)
    && (forall t {:trigger At(t)} :: At(t) && t in s.transfers && s.transfers[t].request == id ==>
          TransferEnded(s.transfers[t].state) && s.transfers[t].flow.IsNil())
  }

  lemma ServingVictimsGone(s: Fabric, s': Fabric, victims: set<FlowId>, id: Id)
    requires Settling(s, {id}) && Settling(s', {id}) && Trimmed(s, s', victims)
    requires ServingVictims(s, id) <= victims
    ensures Settling(s', {})
    ensures forall f {:trigger At(f)} :: At(f) && f in s'.book.flows && s'.book.flows[f].owner.OfRequest? ==>
              s'.book.flows[f].owner.request != id
  {
    forall f | At(f) && f in s'.book.flows && s'.book.flows[f].owner.OfRequest?
      ensures s'.book.flows[f].owner.request != id
    {
      assert At((id, f));
    }
  }

  lemma OwnedTransfersFlowless(s: Fabric, s': Fabric, victims: set<FlowId>, id: Id)
    requires OwnedExact(s.owned, s.transfers) && !id.IsNil() && TransferVictims(s, id) <= victims
    requires Linked(s'.book.flows, s'.transfers)
    requires Trimmed(s.(transfers := AbandonOwned(s, id)), s', victims)
    ensures forall t {:trigger At(t)} :: At(t) && t in s'.transfers && s'.transfers[t].request == id ==>
              TransferEnded(s'.transfers[t].state) && s'.transfers[t].flow.IsNil()
  {
    forall t | At(t) && t in s'.transfers && s'.transfers[t].request == id
      ensures TransferEnded(s'.transfers[t].state) && s'.transfers[t].flow.IsNil()
    {
      assert At((id, t));
      assert (id, t) in s.owned;
      assert t in OwnedBy(s, id);
    }
  }

  /** Ending a request takes its flows and ends its transfers. */
  lemma ReleaseRequestSettles(s: Fabric, id: Id)
    requires Settling(s, {id}) && !id.IsNil()
    ensures Settling(ReleaseRequest(s, id), {}) && Flowless(ReleaseRequest(s, id), id)
    ensures Trimmed(s.(transfers := AbandonOwned(s, id)), ReleaseRequest(s, id),
                    ServingVictims(s, id) + TransferVictims(s, id))
  {
    var s1 := s.(transfers := AbandonOwned(s, id));
    var victims := ServingVictims(s, id) + TransferVictims(s, id);
    AbandonOwnedLinks(s, id, {id});
    ReleaseAllSettles(s1, victims, {id});
    var s' := ReleaseRequest(s, id);
    assert ServingVictims(s1, id) == ServingVictims(s, id);
    ServingVictimsGone(s1, s', victims, id);
    OwnedTransfersFlowless(s, s', victims, id);
  }

  // ---------------------------------------------------------------------------------------------
  // Ledger steps
  // ---------------------------------------------------------------------------------------------

  lemma LedgerStep(l: Ledger, op: Op)
    requires LedgerOk(l) && SoundOp(op)
    ensures LedgerOk(Step(l, op))
  {
    StepAccounted(l, op);
    StepKeepsRecords(l, op);
    StepBounds(l, op);
    StepQueues(l, op);
  }

  /** A ledger step about one request that may drop that request's flows. */
  ghost predicate DropsOnly(before: map<FlowId, LedgerFlow>, after: map<FlowId, LedgerFlow>, id: Id) {
    after == before || after == before - FlowsOf(before, id)
  }

  lemma EndDrops(l: Ledger, id: Id, r: Request, account: Account)
    requires Accounted(l)
    ensures End(l, id, r, account).flows == l.flows - FlowsOf(l.flows, id)
  {
    OpenBooks(l);
    EntriesAreOwn(l.index, l.flows, id);
    var released := ReleaseRequestFlows(l, id, r);
    EvictFramed(released.(terminalOrder := released.terminalOrder + [id],
                          account := account.(activeTotal := released.account.activeTotal,
                                              activeByClass := released.account.activeByClass)));
  }

  lemma CancelDrops(l: Ledger, op: Op)
    requires Accounted(l) && op.OpCancel?
    ensures DropsOnly(l.flows, Step(l, op).flows, op.id)
  {
    if op.id in l.requests {
      EndDrops(l, op.id, CancelledRecord(l.requests[op.id], op.reason, op.sequence, op.now),
               l.account.(cancelled := l.account.cancelled + 1));
    }
  }

  lemma FailDrops(l: Ledger, op: Op)
    requires Accounted(l) && op.OpFail?
    ensures DropsOnly(l.flows, Step(l, op).flows, op.id)
  {
    if op.id in l.requests {
      var r' := FailedRecord(l.requests[op.id], op.attempt, op.reason, op.now);
      if r'.Success? {
        EndDrops(l, op.id, r'.value, l.account.(attemptsFailed := l.account.attemptsFailed + 1,
                                                failed := l.account.failed + 1));
      }
    }
  }

  lemma PublishDrops(l: Ledger, op: Op)
    requires Accounted(l) && op.OpPublish?
    ensures DropsOnly(l.flows, Step(l, op).flows, op.publication.request)
  {
    var p := op.publication;
    if p.request in l.requests {
      var r := l.requests[p.request];
      var j := Judge(r, p);
      if j.Commit? {
        EndDrops(l, p.request, CommittedRecord(r, j.attempt, p, op.now), CommitAccount(l.account, p.success));
      }
    }
  }

  lemma LedgerDropped(s: Fabric, l: Ledger, id: Id)
    requires Settling(s, {}) && LedgerOk(l) && DropsOnly(s.ledger.flows, l.flows, id)
    ensures Settling(s.(ledger := l), {id})
  {
  }

  lemma LedgerSwapped(s: Fabric, l: Ledger, pending: set<Id>)
    requires Settling(s, pending) && LedgerOk(l) && l.flows == s.ledger.flows
    ensures Settling(s.(ledger := l), pending)
  {
  }

  // ---------------------------------------------------------------------------------------------
  // The bulk sum fits
  // ---------------------------------------------------------------------------------------------

  lemma MoreTimes(n: nat, m: nat, k: nat)
    requires n == m + 1
    ensures n * k == m * k + k
  {
  }

  lemma {:induction false} BulkSumBound(flows: FlowTable, limit: nat)
    requires Sized(flows, limit)
    ensures BulkSum(flows) <= |flows| * limit
    decreases flows.Keys
  {
    if flows.Keys == {} {
      assert |flows| == |flows.Keys| == 0;
    } else {
      var f :| f in flows.Keys && BulkSum(flows) == Share(flows[f]) + BulkSum(flows - {f});
      assert At(f);
      var rest := flows - {f};
      BulkSumBound(rest, limit);
      assert rest.Keys == flows.Keys - {f};
      assert |flows| == |flows.Keys| == |rest.Keys| + 1 == |rest| + 1;
      MoreTimes(|flows|, |rest|, limit);
      assert Share(flows[f]) <= limit;
      assert BulkSum(rest) <= |rest| * limit;
      assert BulkSum(flows) == Share(flows[f]) + BulkSum(rest);
    }
  }

  lemma {:induction false} FewerNamed(named: set<FlowId>, transfers: Transfers)
    requires forall f {:trigger At(f)} :: At(f) && f in named ==>
               exists t :: t in transfers && transfers[t].flow == f
    ensures |named| <= |transfers|
    decreases named
  {
    if named == {} {
    } else {
      var f :| f in named;
      assert At(f);
      var t :| t in transfers && transfers[t].flow == f;
      var rest := transfers - {t};
      forall g | At(g) && g in named - {f}
        ensures exists u :: u in rest && rest[u].flow == g
      {
        var u :| u in transfers && transfers[u].flow == g;
        assert u in rest;
      }
      FewerNamed(named - {f}, rest);
      assert rest.Keys == transfers.Keys - {t};
    }
  }

  function MovingFlows(flows: FlowTable): set<FlowId> { set f | f in flows && flows[f].owner.OfTransfer? }

  lemma MovingBound(flows: FlowTable, transfers: Transfers)
    requires Linked(flows, transfers)
    ensures |MovingFlows(flows)| <= |transfers|
  {
    forall f | At(f) && f in MovingFlows(flows)
      ensures exists t :: t in transfers && transfers[t].flow == f
    {
      assert transfers[flows[f].owner.transfer].flow == f;
    }
    FewerNamed(MovingFlows(flows), transfers);
  }

  lemma ServingBound(flows: FlowTable, entries: map<FlowId, LedgerFlow>)
    requires Mirrored(flows, entries, {})
    ensures |flows.Keys - MovingFlows(flows)| <= |entries|
  {
    forall f | f in flows.Keys - MovingFlows(flows)
      ensures f in entries.Keys
    {
      assert At(f);
    }
    Subset(flows.Keys - MovingFlows(flows), entries.Keys);
    assert |entries| == |entries.Keys|;
  }

  lemma FlowsBound(s: Fabric)
    requires Settling(s, {})
    ensures |s.book.flows| <= |s.ledger.flows| + |s.transfers|
  {
    var flows := s.book.flows;
    MovingBound(flows, s.transfers);
    ServingBound(flows, s.ledger.flows);
    SplitCard(flows.Keys, MovingFlows(flows), flows.Keys - MovingFlows(flows));
    assert |flows| == |flows.Keys|;
  }

  lemma {:induction false} Subset(small: set<FlowId>, big: set<FlowId>)
    requires small <= big
    ensures |small| <= |big|
  {
    SplitCard(big, small, big - small);
  }

  /** With the limits configured as `Bounded` asks, one more flow never wraps the bulk sum. */
  lemma BulkNeverWraps(s: Fabric, declared: nat)
    requires Settling(s, {}) && Bounded(s) && declared <= s.config.maxPayload
    ensures s.book.bulk + declared < TWO_64
  {
    FlowsBound(s);
    LedgerFlowsBound(s.ledger);
    BulkFits(s.book.flows, s.ledger.limits, s.config, declared);
  }

  lemma LedgerFlowsBound(l: Ledger)
    requires Accounted(l)
    ensures |l.flows| <= l.limits.maxFlowsTotal
  {
    OpenBooks(l);
  }

  lemma BulkFits(flows: FlowTable, l: Limits, c: Config, declared: nat)
    requires Sized(flows, c.maxPayload) && Roomy(l, c) && declared <= c.maxPayload
    requires |flows| <= l.maxFlowsTotal + c.maxTransfers
    ensures BulkSum(flows) + declared < TWO_64
  {
    var n := l.maxFlowsTotal + c.maxTransfers;
    BulkSumBound(flows, c.maxPayload);
    Monotone(|flows|, n, c.maxPayload);
    MoreTimes(n + 1, n, c.maxPayload);
  }

  lemma Monotone(a: nat, b: nat, k: nat)
    requires a <= b
    ensures a * k <= b * k
  {
  }

  // ---------------------------------------------------------------------------------------------
  // Opening
  // ---------------------------------------------------------------------------------------------

  lemma FileServing(b: Book, transfers: Transfers, entries: map<FlowId, LedgerFlow>, f: FlowId, flow: Flow,
                    entry: LedgerFlow)
    requires BookOk(b, transfers, entries, {}) && f !in b.flows && SameFlow(flow, entry)
    requires b.bulk + flow.declaredBytes < TWO_64
    ensures BookOk(FileFlow(b, f, flow), transfers, entries[f := entry], {})
  {
    BulkSumWith(b.flows, f, flow);
    var b' := FileFlow(b, f, flow);
    assert Linked(b'.flows, transfers);
    assert ByRequestExact(b'.byRequest, b'.flows);
    assert ByTransferExact(b'.byTransfer, b'.flows);
  }

  lemma FileMoving(b: Book, transfers: Transfers, entries: map<FlowId, LedgerFlow>, t: Id, f: FlowId, flow: Flow)
    requires BookOk(b, transfers, entries, {}) && f !in b.flows && f.sequence == b.nextFlow + 1
    requires flow.owner == OfTransfer(t) && t in transfers && transfers[t].flow.IsNil()
    requires b.bulk + flow.declaredBytes < TWO_64
    ensures BookOk(FileFlow(b.(nextFlow := b.nextFlow + 1), f, flow),
                   transfers[t := transfers[t].(flow := f)], entries, {})
  {
    BulkSumWith(b.flows, f, flow);
    assert At(f) && f !in entries && At(t);
    var b' := FileFlow(b.(nextFlow := b.nextFlow + 1), f, flow);
    var transfers' := transfers[t := transfers[t].(flow := f)];
    assert Linked(b'.flows, transfers');
    assert ByRequestExact(b'.byRequest, b'.flows);
    assert ByTransferExact(b'.byTransfer, b'.flows);
  }

  /** The identity the next opening would mint, in the id space of the subject. */
  function NextId(s: Fabric, d: Decision, tag: bv64): FlowId {
    FlowId((if d.subject.Serving? then s.ledger.nextFlow else s.book.nextFlow) + 1, tag)
  }

  lemma RenamedOwned(owned: set<(Id, Id)>, transfers: Transfers, t: Id, f: FlowId)
    requires OwnedExact(owned, transfers) && t in transfers
    ensures OwnedExact(owned, transfers[t := transfers[t].(flow := f)])
  {
  }

  lemma ServedSettles(s: Fabric, l: Ledger, f: FlowId, flow: Flow, entry: LedgerFlow)
    requires Settled(s) && LedgerOk(l) && l.flows == s.ledger.flows[f := entry] && f !in s.book.flows
    requires SameFlow(flow, entry) && s.book.bulk + flow.declaredBytes < TWO_64
    requires flow.declaredBytes <= s.config.maxPayload && l.limits == s.ledger.limits
    ensures Settled(Served(s, l, f, flow))
  {
    FileServing(s.book, s.transfers, s.ledger.flows, f, flow, entry);
    FileSized(s.book, f, flow, s.config.maxPayload);
    assert Settling(Served(s, l, f, flow), {});
    assert Bounded(Served(s, l, f, flow));
  }

  lemma FileSized(b: Book, f: FlowId, flow: Flow, limit: nat)
    requires Sized(b.flows, limit) && flow.declaredBytes <= limit
    ensures Sized(FileFlow(b, f, flow).flows, limit)
  {
  }

  lemma MovedSettles(s: Fabric, t: Id, f: FlowId, flow: Flow)
    requires Settled(s) && f !in s.book.flows && f.sequence == s.book.nextFlow + 1
    requires flow.owner == OfTransfer(t) && t in s.transfers && s.transfers[t].flow.IsNil()
    requires s.book.bulk + flow.declaredBytes < TWO_64 && flow.declaredBytes <= s.config.maxPayload
    ensures Settled(Moved(s, t, f, flow))
  {
    FileMoving(s.book, s.transfers, s.ledger.flows, t, f, flow);
    RenamedOwned(s.owned, s.transfers, t, f);
    var transfers' := s.transfers[t := s.transfers[t].(flow := f)];
    assert transfers'.Keys == s.transfers.Keys;
    assert |transfers'| == |transfers'.Keys| == |s.transfers|;
  }

  lemma LedgerOpens(l: Ledger, id: Id, a: Id, c: TrafficClass, declared: nat, now: int, tag: bv64)
    requires LedgerOk(l)
    ensures var out := LedgerModel.OpenFlow(l, id, a, c, declared, now, tag);
      && LedgerOk(out.ledger) && out.ledger.limits == l.limits
      && (out.result.Success? ==>
            && out.result.value == FlowId(l.nextFlow + 1, tag)
            && out.ledger.flows == l.flows[out.result.value := LedgerFlow(id, c, declared, 0, now)])
  {
    LedgerStep(l, OpOpen(id, a, c, declared, now, tag));
  }

  lemma OpenServingSettles(s: Fabric, d: Decision, declared: nat, now: int, tag: bv64)
    requires Settled(s) && d.subject.Serving? && NextId(s, d, tag) !in s.book.flows
    requires s.book.bulk + declared < TWO_64 && declared <= s.config.maxPayload
    ensures Settled(OpenServing(s, d, declared, now, tag).fabric)
  {
    var x, c := d.subject, d.treatment.traffic;
    LedgerOpens(s.ledger, x.request, x.attempt, c, declared, now, tag);
    var out := LedgerModel.OpenFlow(s.ledger, x.request, x.attempt, c, declared, now, tag);
    if out.result.Success? {
      ServedSettles(s, out.ledger, out.result.value,
                    Flow(OfRequest(x.request, x.attempt), c, declared, 0, d.authority.sequence, BulkClass(s, c)),
                    LedgerFlow(x.request, c, declared, 0, now));
    }
  }

  lemma MovedCoheres(s: Fabric, t: Id, f: FlowId, flow: Flow)
    requires Coherent(s) && f !in s.book.flows && f.sequence == s.book.nextFlow + 1
    requires flow.owner == OfTransfer(t) && t in s.transfers && s.transfers[t].flow.IsNil()
    requires s.book.bulk + flow.declaredBytes < TWO_64 && flow.declaredBytes <= s.config.maxPayload
    ensures Coherent(Moved(s, t, f, flow))
  {
    View(s);
    MovedSettles(s, t, f, flow);
    Close(Moved(s, t, f, flow));
  }

  lemma OpenMovingCoheres(s: Fabric, d: Decision, declared: nat, tag: bv64)
    requires Coherent(s) && !d.subject.Serving? && NextId(s, d, tag) !in s.book.flows
    requires s.book.bulk + declared < TWO_64 && declared <= s.config.maxPayload
    ensures Coherent(OpenMoving(s, d, declared, tag).fabric)
  {
    var t, c := d.subject.transfer, d.treatment.traffic;
    if t in s.transfers && s.transfers[t].flow.IsNil() {
      var flow := Flow(OfTransfer(t), c, declared, 0, d.authority.sequence, BulkClass(s, c));
      MovedCoheres(s, t, FlowId(s.book.nextFlow + 1, tag), flow);
    }
  }

  /** Opening a flow keeps coherence, provided the identity it mints is not already open. */
  lemma OpenFlowCoheres(s: Fabric, d: Decision, declared: nat, now: int, tag: bv64)
    requires Coherent(s) && NextId(s, d, tag) !in s.book.flows
    ensures Coherent(CoordinatorModel.OpenFlow(s, d, declared, now, tag).fabric)
  {
    if ValidateDecision(s, d).Ok? && declared <= s.config.maxPayload {
      View(s);
      BulkNeverWraps(s, declared);
      if d.subject.Serving? {
        OpenServingSettles(s, d, declared, now, tag);
        Close(OpenServing(s, d, declared, now, tag).fabric);
      } else {
        OpenMovingCoheres(s, d, declared, tag);
      }
    }
  }
}
