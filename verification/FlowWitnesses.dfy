/**
 * Runs from a booted coordinator in which two flows are given one identity, and in which a transfer that
 * completed is relabelled.
 */
module FlowWitnesses {
  import opened Ids
  import opened Traffic
  import opened Reasons
  import opened LedgerModel
  import opened LedgerFindings
  import opened Deferral
  import opened CoordinatorModel
  import C = CoordinatorModel
  import opened Evaluation
  import opened EvaluationProofs
  import opened EvaluationPressure
  import opened CoordinatorRuns
  import opened CoordinatorCoherence
  import opened CoordinatorInvariant
  import opened CoordinatorTransfers
  import opened Coordinators
  import opened CoordinatorFindings
  import opened Relabelling
  import opened Restart
  import opened Witnesses

  // ---------------------------------------------------------------------------------------------
  // Two counters, one identity
  // ---------------------------------------------------------------------------------------------

  /** A permitting decision, stamped now. */
  function Permission(s: Fabric, x: Subject, c: TrafficClass): Decision {
    Decision(Allowed, ADMITTED, NO_TREATMENT.(traffic := c), x, Ask(NIL).binding,
             Stamp(s.epoch, s.incarnation, s.policy.generation, 1), 0)
  }

  /** A request with its attempt and a transfer wait; neither counter has minted an identity. */
  ghost predicate Paired(s: Fabric, r: Id, a: Id, t: Id) {
    && Coherent(s) && Standard(s) && s.book == EMPTY_BOOK && s.ledger.nextFlow == 0
    && Holds(s.ledger, s.ledger.limits, r, Bind(NewRequest(r, 0), NewAttempt(a, 1, 0, 0, 0, 0)), [])
    && t in s.transfers && s.transfers[t] == Shipment(NIL, 6, TransferRegistered, NO_FLOW)
    && s.ledger.limits.maxFlowsPerRequest >= 1 && s.ledger.limits.maxFlowsTotal >= 1
    && s.ledger.account.activeTotal == 0 && !t.IsNil() && !a.IsNil()
  }

  lemma Pairs(s: Fabric, r: Id, a: Id, t: Id)
    requires Opening(s) && s.ledger.nextFlow == 0 && s.ledger.account.activeTotal == 0
    requires s.ledger.limits.maxFlowsPerRequest >= 1 && s.ledger.limits.maxFlowsTotal >= 1
    requires !r.IsNil() && !a.IsNil() && !t.IsNil()
    ensures var s1 := C.RegisterRequest(s, r, 0).fabric;
      var s2 := C.RegisterAttempt(s1, r, a, 0, 0).fabric;
      Paired(RegisterTransfer(s2, Order(t, NIL, 6)).fabric, r, a, t)
  {
    RequestOpens(s, r);
    var s1 := C.RegisterRequest(s, r, 0).fabric;
    AttemptCoheres(s1, r, a, 0, 0);
    AfterBind(s1.ledger, r, NewRequest(r, 0), a);
    var s2 := C.RegisterAttempt(s1, r, a, 0, 0).fabric;
    assert s2 == s1.(ledger := s2.ledger);
    Ordered(s2, t, NIL, 6);
    RegisterTransferCoheres(s2, Order(t, NIL, 6));
  }

  lemma TransferFirst(s: Fabric, r: Id, a: Id, t: Id, tag: bv64)
    requires Paired(s, r, a, t)
    ensures var out := C.OpenFlow(s, Permission(s, Moving(t), KvTransfer), 6, 0, tag);
      && out.result == Success(FlowId(1, tag)) && Coherent(out.fabric)
      && FlowId(1, tag) in out.fabric.book.flows && out.fabric.ledger == s.ledger && out.fabric.policy == s.policy
      && out.fabric.epoch == s.epoch && out.fabric.incarnation == s.incarnation && out.fabric.config == s.config
  {
    var d := Permission(s, Moving(t), KvTransfer);
    assert ValidateDecision(s, d).Ok?;
    FitsUnderCeiling(s, 6);
    OpenFlowCoheres(s, d, 6, 0, tag);
  }

  lemma ServingSecond(s: Fabric, r: Id, a: Id, tag: bv64)
    requires Booted(s) && s.policy == SmallPolicy() && s.config.maxPayload == 100 && s.ledger.nextFlow == 0
    requires Holds(s.ledger, s.ledger.limits, r, Bind(NewRequest(r, 0), NewAttempt(a, 1, 0, 0, 0, 0)), [])
    requires s.ledger.limits.maxFlowsPerRequest >= 1 && s.ledger.limits.maxFlowsTotal >= 1 && !a.IsNil()
    requires s.ledger.account.activeTotal == 0
    ensures C.OpenFlow(s, Permission(s, Serving(r, a, 1), RequestIngress), 1, 0, tag).result == Success(FlowId(1, tag))
  {
    var d := Permission(s, Serving(r, a, 1), RequestIngress);
    assert ValidateDecision(s, d).Ok?;
    assert !BulkClass(s, RequestIngress);
    assert Find(s.ledger.requests[r].attempts, a) == 0;
    assert OpenCheck(s.ledger, r, a, RequestIngress).Ok?;
  }

  /** Once both openings mint the same identity, the tables contradict one another. */
  lemma MeetingBreaks(s: Fabric, r: Id, a: Id, t: Id, tag: bv64)
    requires Paired(s, r, a, t)
    ensures var s1 := C.OpenFlow(s, Permission(s, Moving(t), KvTransfer), 6, 0, tag).fabric;
      var out := C.OpenFlow(s1, Permission(s1, Serving(r, a, 1), RequestIngress), 1, 0, tag);
      out.result == Success(FlowId(1, tag)) && !Coherent(out.fabric)
  {
    TransferFirst(s, r, a, t, tag);
    var s1 := C.OpenFlow(s, Permission(s, Moving(t), KvTransfer), 6, 0, tag).fabric;
    ServingSecond(s1, r, a, tag);
    OpeningCoheresExactly(s1, Permission(s1, Serving(r, a, 1), RequestIngress), 1, 0, tag);
  }

  /**
   * Register a request, an attempt and a transfer with these names, open the transfer's flow and then the
   * attempt's: both are given the same identity.
   */
  lemma IdentitiesMeet(s: Fabric)
    requires Opening(s) && s.ledger.nextFlow == 0 && s.ledger.account.activeTotal == 0
    requires s.ledger.limits.maxFlowsPerRequest >= 1 && s.ledger.limits.maxFlowsTotal >= 1
    ensures var r, a, t := Id(1, 0), Id(0, 0x0100_0000_0000_0001), Id(0, 0xA24B_AED4_963E_E407);
      var s1 := C.RegisterRequest(s, r, 0).fabric;
      var s2 := C.RegisterAttempt(s1, r, a, 0, 0).fabric;
      var s3 := RegisterTransfer(s2, Order(t, NIL, 6)).fabric;
      var moving := Permission(s3, Moving(t), KvTransfer);
      var first := C.OpenFlow(s3, moving, 6, 0, TagFor(moving));
      var serving := Permission(first.fabric, Serving(r, a, 1), RequestIngress);
      var second := C.OpenFlow(first.fabric, serving, 1, 0, TagFor(serving));
      && Coherent(first.fabric) && first.result.Success? && second.result == first.result
      && !Coherent(second.fabric)
  {
    ConcreteServingTag();
    ConcreteTransferTag();
    MeetsIn(s, Id(1, 0), Id(0, 0x0100_0000_0000_0001), Id(0, 0xA24B_AED4_963E_E407), 0);
  }

  lemma MeetsIn(s: Fabric, r: Id, a: Id, t: Id, tag: bv64)
    requires Opening(s) && s.ledger.nextFlow == 0 && s.ledger.account.activeTotal == 0
    requires s.ledger.limits.maxFlowsPerRequest >= 1 && s.ledger.limits.maxFlowsTotal >= 1
    requires !r.IsNil() && !a.IsNil() && !t.IsNil()
    ensures var s1 := C.RegisterRequest(s, r, 0).fabric;
      var s2 := C.RegisterAttempt(s1, r, a, 0, 0).fabric;
      var s3 := RegisterTransfer(s2, Order(t, NIL, 6)).fabric;
      var first := C.OpenFlow(s3, Permission(s3, Moving(t), KvTransfer), 6, 0, tag);
      var second := C.OpenFlow(first.fabric, Permission(first.fabric, Serving(r, a, 1), RequestIngress), 1, 0, tag);
      && Coherent(first.fabric) && first.result.Success? && second.result == first.result
      && !Coherent(second.fabric)
  {
    Pairs(s, r, a, t);
    var s1 := C.RegisterRequest(s, r, 0).fabric;
    var s2 := C.RegisterAttempt(s1, r, a, 0, 0).fabric;
    var s3 := RegisterTransfer(s2, Order(t, NIL, 6)).fabric;
    TransferFirst(s3, r, a, t, tag);
    MeetingBreaks(s3, r, a, t, tag);
  }

  /** The booted coordinator is one from which that run starts. */
  lemma StockedHasMintedNothing(flows: nat)
    requires 0 < flows < 1000
    ensures Opening(Stocked(flows)) && Stocked(flows).ledger.nextFlow == 0
    ensures Stocked(flows).ledger.account.activeTotal == 0
    ensures Stocked(flows).ledger.limits.maxFlowsPerRequest >= 1 && Stocked(flows).ledger.limits.maxFlowsTotal >= 1
  {
    StockedOpens(flows);
    StockedIs(flows);
  }

  // ---------------------------------------------------------------------------------------------
  // A completed transfer relabelled
  // ---------------------------------------------------------------------------------------------

  lemma Delivers(s: Fabric, t: Id, f: FlowId)
    requires Coherent(s) && t in s.transfers && s.transfers[t] == Shipment(NIL, 6, Authorized, f)
    ensures var s' := CompleteTransfer(s, t, 6).fabric;
      Coherent(s') && t in s'.transfers && s'.transfers[t].state.TransferCompleted?
  {
    CompleteCoheres(s, t, 6);
    var r := s.transfers[t].(verifiedBytes := 6, state := TransferCompleted, reason := COMMITTED_COMPLETION);
    ReleaseTransferClean(s, t, r);
    assert WithState(s.(transfers := s.transfers[t := s.transfers[t].(verifiedBytes := 6)]), t, TransferCompleted,
                     COMMITTED_COMPLETION) == s.(transfers := s.transfers[t := r]);
  }

  /** Register a transfer, authorize it, complete it, authorize it again: what completed now reads refused. */
  lemma CompletedTransferIsRelabelled(s: Fabric, t: Id, choice: Key, tag: bv64, choice': Key, tag': bv64)
    requires Opening(s) && !t.IsNil()
    ensures var s1 := RegisterTransfer(s, Order(t, NIL, 6)).fabric;
      var s2 := AuthorizeTransfer(s1, Ask(t), 0, choice, tag).fabric;
      var s3 := CompleteTransfer(s2, t, 6).fabric;
      var s4 := AuthorizeTransfer(s3, Ask(t), 0, choice', tag').fabric;
      && t in s3.transfers && s3.transfers[t].state.TransferCompleted?
      && t in s4.transfers && s4.transfers[t].state.TransferRefused?
  {
    Ordered(s, t, NIL, 6);
    RegisterTransferCoheres(s, Order(t, NIL, 6));
    var s1 := RegisterTransfer(s, Order(t, NIL, 6)).fabric;
    FirstAuthorization(s1, t, NIL, 6, 0, 0, choice, tag);
    AuthorizeCoheres(s1, Ask(t), 0, choice, tag);
    var s2 := AuthorizeTransfer(s1, Ask(t), 0, choice, tag).fabric;
    Delivers(s2, t, FlowId(s1.book.nextFlow + 1, tag));
    ReauthorizationRefuses(CompleteTransfer(s2, t, 6).fabric, Ask(t), 0, choice', tag', t);
  }

  // ---------------------------------------------------------------------------------------------
  // A payload that wraps the bulk sum
  // ---------------------------------------------------------------------------------------------

  /** A question about a transfer that claims the largest payload. */
  function AskHuge(t: Id): TrafficRequest { Ask(t).(payloadBytes := 0xFFFF_FFFF_FFFF_FFFF) }

  /**
   * Register two transfers, authorize one of six bytes under a ceiling of ten, and ask about the other with the
   * largest payload: the sum wraps, so the question is permitted although the bulk in flight would overflow.
   */
  lemma HugePayloadIsNotPutOff(s: Fabric, t: Id, u: Id, choice: Key, tag: bv64, choice': Key)
    requires Opening(s) && !t.IsNil() && !u.IsNil() && t != u
    ensures var s1 := RegisterTransfer(s, Order(t, NIL, 6)).fabric;
      var s2 := RegisterTransfer(s1, Order(u, NIL, 6)).fabric;
      var s3 := AuthorizeTransfer(s2, Ask(t), 0, choice, tag).fabric;
      && s3.policy.bulkCap == 10 && s3.book.bulk + AskHuge(u).payloadBytes > s3.policy.bulkCap
      && Evaluate(s3, AskHuge(u), 0, choice').1.Permits()
      && Evaluate(s3, Ask(u).(payloadBytes := 6), 0, choice').1.verdict.Deferred?
  {
    Ordered(s, t, NIL, 6);
    var s1 := RegisterTransfer(s, Order(t, NIL, 6)).fabric;
    assert |s1.transfers| == |s1.transfers.Keys| == 1 by { assert s1.transfers.Keys == {t}; }
    Ordered(s1, u, NIL, 6);
    var s2 := RegisterTransfer(s1, Order(u, NIL, 6)).fabric;
    FirstAuthorization(s2, t, NIL, 6, 0, 0, choice, tag);
    HugePasses(AuthorizeTransfer(s2, Ask(t), 0, choice, tag).fabric, u, choice');
  }

  lemma HugePasses(s: Fabric, u: Id, choice: Key)
    requires Prepared(s, u, Shipment(NIL, 6, TransferRegistered, NO_FLOW), 6) && !u.IsNil()
    ensures Evaluate(s, AskHuge(u), 0, choice).1.Permits()
    ensures Evaluate(s, Ask(u).(payloadBytes := 6), 0, choice).1.verdict.Deferred?
  {
    PreparedPasses(s, u, NIL, 6, TransferRegistered, NO_FLOW, 6, 0);
    assert GateOf(s, AskHuge(u), 0) == GateOf(s, Ask(u), 0) == GateOf(s, Ask(u).(payloadBytes := 6), 0);
    WrapsOnce(6 + 0xFFFF_FFFF_FFFF_FFFF);
    WrapsOnce(12);
  }
}
