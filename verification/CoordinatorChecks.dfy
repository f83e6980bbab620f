/**
 * `verify_invariants` (src/coordinator.cpp): what it compares, and exactly when a coherent coordinator
 * passes it. The comparison asks more of open transfer flows than the operations guarantee.
 */
module CoordinatorChecks {
  import opened Ids
  import opened Traffic
  import opened LedgerModel
  import opened LedgerAccounting
  import opened RequestLedgers
  import opened Deferral
  import opened CoordinatorModel
  import opened CoordinatorCoherence

  predicate FlowChecks(s: Fabric, flow: Flow) {
    match flow.owner
    case OfRequest(id, _) => id in s.ledger.requests && !s.ledger.requests[id].lifecycle.Cancelled?
    case OfTransfer(t) =>
      t in s.transfers && !TransferEnded(s.transfers[t].state)
      && var owner := s.transfers[t].request;
         (owner.IsNil() || owner !in s.ledger.requests || !s.ledger.requests[owner].IsTerminal())
  }

  function ServingFlows(flows: FlowTable): set<FlowId> { set f | f in flows && flows[f].owner.OfRequest? }

  ghost predicate InvariantsHold(s: Fabric) {
    && ClosureHolds(s.ledger)
    && (forall f | f in s.book.flows :: FlowChecks(s, s.book.flows[f]))
    && |ServingFlows(s.book.flows)| == s.ledger.account.activeTotal
    && Wrap(BulkSum(s.book.flows)) == s.book.bulk
    && |Protected(s.defers.records)| == s.defers.streaming
    && |s.defers.records| <= s.config.maxDefers
    && |s.book.flows| <= s.config.ledger.maxFlowsTotal
  }

  /** What the check expects beyond coherence: a transfer with a flow is open, and so is the request it is for. */
  ghost predicate TransferFlowsOpen(s: Fabric) {
    forall t | t in s.transfers && !s.transfers[t].flow.IsNil() ::
      && !s.transfers[t].state.TransferCompleted? && !s.transfers[t].state.TransferRefused?
      && !s.transfers[t].state.Abandoned?
      && (s.transfers[t].request in s.ledger.requests && !s.transfers[t].request.IsNil() ==>
            !s.ledger.requests[s.transfers[t].request].IsTerminal())
  }

  lemma ServingCount(s: Fabric)
    requires Settling(s, {})
    ensures ServingFlows(s.book.flows) == s.ledger.flows.Keys
  {
    forall f
      ensures f in ServingFlows(s.book.flows) <==> f in s.ledger.flows.Keys
    {
      assert At(f);
    }
  }

  lemma ServingPass(s: Fabric, f: FlowId)
    requires Settling(s, {}) && f in s.book.flows && s.book.flows[f].owner.OfRequest?
    ensures FlowChecks(s, s.book.flows[f])
  {
    assert At(f);
    OpenBooks(s.ledger);
    assert MayHoldFlows(s.ledger.requests, s.ledger.flows[f].request);
  }

  lemma LedgerCloses(l: Ledger)
    requires Accounted(l)
    ensures ClosureHolds(l)
  {
    OpenBooks(l);
    forall id | id in l.requests
      ensures IdleIsClosed(l.requests[id])
    {
      if !MayHoldFlows(l.requests, id) {
        IdleHoldsNone(l.requests, l.flows, l.nextFlow, id);
        assert l.requests[id].activeFlows == |FlowsOf(l.flows, id)|;
      }
    }
  }

  lemma TransferChecksPassExactly(s: Fabric)
    requires Settling(s, {})
    ensures TransferFlowsOpen(s) <==>
      forall f | f in s.book.flows && s.book.flows[f].owner.OfTransfer? :: FlowChecks(s, s.book.flows[f])
  {
    forall f | f in s.book.flows && s.book.flows[f].owner.OfTransfer?
      ensures var t := s.book.flows[f].owner.transfer;
        t in s.transfers && s.transfers[t].flow == f && !f.IsNil()
    {
      assert At(f);
      FlowIsMinted(s, f);
    }
    forall t | t in s.transfers && !s.transfers[t].flow.IsNil()
      ensures s.transfers[t].flow in s.book.flows && s.book.flows[s.transfers[t].flow].owner == OfTransfer(t)
    {
      assert At(t);
    }
  }

  lemma FlowIsMinted(s: Fabric, f: FlowId)
    requires Settling(s, {}) && f in s.book.flows && s.book.flows[f].owner.OfTransfer?
    ensures !f.IsNil()
  {
    assert At(f);
  }

  /**
   * A coherent coordinator passes exactly when no open transfer flow belongs to an ended transfer or an
   * ended owner, and serving and transfer flows together stay under the ceiling for serving flows.
   */
  lemma CoherentPassesExactly(s: Fabric)
    requires Coherent(s)
    ensures InvariantsHold(s) <==>
            && TransferFlowsOpen(s)
            && |s.defers.records| <= s.config.maxDefers
            && |s.book.flows| <= s.config.ledger.maxFlowsTotal
  {
    View(s);
    LedgerCloses(s.ledger);
    CountsAgree(s);
    BulkAgrees(s);
    ServingChecksPass(s);
    TransferChecksPassExactly(s);
  }

  // ---------------------------------------------------------------------------------------------
  // Drift
  // ---------------------------------------------------------------------------------------------

  /** A coordinator whose counters were overwritten, and nothing else. */
  function Drifted(s: Fabric, total: nat, byClass: map<TrafficClass, nat>, bulk: nat, streaming: nat): Fabric {
    s.(book := s.book.(bulk := bulk), defers := s.defers.(streaming := streaming),
       ledger := s.ledger.(account := s.ledger.account.(activeTotal := total, activeByClass := byClass)))
  }

  /** Whatever values they drift to, a counter that is not what it was is noticed. */
  lemma DriftIsNoticed(s: Fabric, total: nat, byClass: map<TrafficClass, nat>, bulk: nat, streaming: nat)
    requires Coherent(s)
    requires || total != s.ledger.account.activeTotal || bulk != s.book.bulk || streaming != s.defers.streaming
             || exists c :: ClassCount(byClass, c) != ClassCount(s.ledger.account.activeByClass, c)
    ensures !InvariantsHold(Drifted(s, total, byClass, bulk, streaming))
  {
    View(s);
    CountsAgree(s);
    BulkAgrees(s);
    LedgerCloses(s.ledger);
  }

  /** A serving flow that only one of the two tables has is noticed. */
  lemma LostFlowIsNoticed(s: Fabric, f: FlowId)
    requires Coherent(s) && f in s.book.flows && s.book.flows[f].owner.OfRequest?
    ensures !InvariantsHold(s.(book := s.book.(flows := s.book.flows - {f})))
  {
    View(s);
    CountsAgree(s);
    var rest := s.book.flows - {f};
    assert ServingFlows(rest) == ServingFlows(s.book.flows) - {f};
    SplitCard(ServingFlows(s.book.flows), {f}, ServingFlows(rest));
  }

  lemma CountsAgree(s: Fabric)
    requires Settling(s, {})
    ensures |ServingFlows(s.book.flows)| == s.ledger.account.activeTotal
  {
    ServingCount(s);
    TotalCount(s.ledger);
  }

  lemma TotalCount(l: Ledger)
    requires Accounted(l)
    ensures |l.flows.Keys| == l.account.activeTotal
  {
    OpenBooks(l);
    assert |l.flows| == |l.flows.Keys|;
  }

  lemma BulkAgrees(s: Fabric)
    requires Settling(s, {}) && Bounded(s)
    ensures Wrap(BulkSum(s.book.flows)) == s.book.bulk
  {
    BulkNeverWraps(s, 0);
    Small(s.book.bulk);
  }

  lemma Small(n: nat)
    requires n < TWO_64
    ensures Wrap(n) == n
  {
  }

  lemma ServingChecksPass(s: Fabric)
    requires Settling(s, {})
    ensures forall f | f in s.book.flows && s.book.flows[f].owner.OfRequest? :: FlowChecks(s, s.book.flows[f])
  {
    forall f | f in s.book.flows && s.book.flows[f].owner.OfRequest?
      ensures FlowChecks(s, s.book.flows[f])
    {
      ServingPass(s, f);
    }
  }
}
