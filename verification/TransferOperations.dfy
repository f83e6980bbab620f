/**
 * What each call on a transfer or a flow demands and what it leaves, and what ending a request takes with it
 * (src/coordinator.cpp): its own flows, its open transfers and their flows, and nothing of anyone else.
 */
module TransferOperations {
  import opened Ids
  import opened Traffic
  import opened Reasons
  import opened Policies
  import opened LedgerModel
  import opened LedgerRecords
  import opened LedgerOperations
  import opened Deferral
  import opened CoordinatorModel
  import C = CoordinatorModel
  import opened Evaluation
  import opened EvaluationProofs
  import opened EvaluationReasons
  import opened EvaluationPressure
  import opened CoordinatorRuns
  import opened CoordinatorCoherence
  import opened CoordinatorInvariant
  import opened CoordinatorTransfers
  import opened CoordinatorFindings

  // ---------------------------------------------------------------------------------------------
  // What ending a request takes with it
  // ---------------------------------------------------------------------------------------------

  /** A flow of the request, or of a transfer that it owns. */
  predicate BelongsTo(s: Fabric, f: FlowId, id: Id)
    requires f in s.book.flows
  {
    match s.book.flows[f].owner
    case OfRequest(r, _) => r == id
    case OfTransfer(t) => t in s.transfers && s.transfers[t].request == id
  }

  /** Exactly the flows that belong to the request are gone, and every other is as it was. */
  ghost predicate FlowsTaken(s: Fabric, s': Fabric, id: Id) {
    forall f {:trigger At(f)} :: At(f) ==>
      && (f in s'.book.flows <==> f in s.book.flows && !BelongsTo(s, f, id))
      && (f in s'.book.flows ==> s'.book.flows[f] == s.book.flows[f])
  }

  /** The request's open transfers are abandoned, its ended ones lose their flow, and no other is touched. */
  ghost predicate TransfersTaken(s: Fabric, s': Fabric, id: Id) {
    && s'.transfers.Keys == s.transfers.Keys
    && forall t {:trigger At(t)} :: At(t) && t in s.transfers ==>
         var x, x' := s.transfers[t], s'.transfers[t];
         && (x.request != id ==> x' == x)
         && (x.request == id && TransferEnded(x.state) ==> x' == x.(flow := NO_FLOW))
         && (x.request == id && !TransferEnded(x.state) ==>
               x' == x.(state := Abandoned, reason := REJECTED_REQUEST_TERMINAL, flow := NO_FLOW))
  }

  /** The state as the call's ledger step left it, less what belongs to the request. */
  ghost predicate Took(s: Fabric, s': Fabric, id: Id) { FlowsTaken(s, s', id) && TransfersTaken(s, s', id) }

  lemma VictimsBelong(s: Fabric, id: Id, f: FlowId)
    requires Settled(s) && !id.IsNil() && f in s.book.flows
    ensures f in ServingVictims(s, id) + TransferVictims(s, id) <==> BelongsTo(s, f, id)
  {
    assert At(f) && At((id, f));
    match s.book.flows[f].owner
    case OfRequest(r, _) =>
      forall t | t in OwnedBy(s, id) && t in s.transfers
        ensures s.transfers[t].flow != f || f.IsNil()
      {
        assert At(t);
      }
      if BelongsTo(s, f, id) { assert (id, f) in s.book.byRequest; }
    case OfTransfer(t) =>
      assert At(t) && At((id, t));
      forall u | u in OwnedBy(s, id) && u in s.transfers && s.transfers[u].flow == f && !f.IsNil()
        ensures u == t
      {
        assert At(u);
      }
      if BelongsTo(s, f, id) { assert (id, t) in s.owned; }
  }

  lemma ReleasedOne(s: Fabric, f: FlowId)
    ensures ReleaseOne(s, f).book.flows == s.book.flows - {f}
  {
    if f in s.book.flows {
      BookOfOne(s, f);
    } else {
      assert s.book.flows - {f} == s.book.flows;
    }
  }

  lemma BookOfOne(s: Fabric, f: FlowId)
    requires f in s.book.flows
    ensures ReleaseOne(s, f).book == DropFlow(s.book, f)
  {
  }

  lemma {:induction false} ReleasedFlows(s: Fabric, victims: set<FlowId>)
    ensures var s' := ReleaseAll(s, victims);
      forall f {:trigger At(f)} :: At(f) ==>
        && (f in s'.book.flows <==> f in s.book.flows && f !in victims)
        && (f in s'.book.flows ==> s'.book.flows[f] == s.book.flows[f])
    decreases victims
  {
    if victims == {} {
    } else {
      var f :| f in victims && ReleaseAll(s, victims) == ReleaseAll(ReleaseOne(s, f), victims - {f});
      ReleasedOne(s, f);
      ReleasedFlows(ReleaseOne(s, f), victims - {f});
    }
  }

  lemma EndingTakesFlows(s: Fabric, s1: Fabric, id: Id)
    requires Coherent(s) && !id.IsNil() && s1 == s.(ledger := s1.ledger, sequence := s1.sequence)
    ensures FlowsTaken(s, ReleaseRequest(s1, id), id)
  {
    View(s);
    var victims := ServingVictims(s1, id) + TransferVictims(s1, id);
    ReleasedFlows(s1.(transfers := AbandonOwned(s1, id)), victims);
    forall f | At(f) && f in s.book.flows
      ensures f in victims <==> BelongsTo(s, f, id)
    {
      VictimsBelong(s, id, f);
      assert ServingVictims(s1, id) == ServingVictims(s, id) && TransferVictims(s1, id) == TransferVictims(s, id);
    }
  }

  lemma EndingTakes(s: Fabric, s1: Fabric, id: Id)
    requires Coherent(s) && !id.IsNil() && LedgerOk(s1.ledger)
    requires s1 == s.(ledger := s1.ledger, sequence := s1.sequence) && s1.ledger.limits == s.ledger.limits
    requires DropsOnly(s.ledger.flows, s1.ledger.flows, id)
    ensures Took(s, ReleaseRequest(s1, id), id)
  {
    EndingCoheres(s, s1, id);
    EndingTakesFlows(s, s1, id);
    var s' := ReleaseRequest(s1, id);
    View(s);
    View(s');
    forall t | At(t) && t in s.transfers
      ensures var x, x' := s.transfers[t], s'.transfers[t];
        && (x.request != id ==> x' == x)
        && (x.request == id && TransferEnded(x.state) ==> x' == x.(flow := NO_FLOW))
        && (x.request == id && !TransferEnded(x.state) ==>
              x' == x.(state := Abandoned, reason := REJECTED_REQUEST_TERMINAL, flow := NO_FLOW))
    {
      assert At((id, t));
      assert t in OwnedBy(s1, id) <==> s.transfers[t].request == id;
      if s.transfers[t].request != id && !s.transfers[t].flow.IsNil() {
        assert At(s.transfers[t].flow) && !BelongsTo(s, s.transfers[t].flow, id);
      }
    }
  }

  /** The ledger is the one the ledger's own call leaves; releases only lower the count of open flows. */
  ghost predicate LedgerAs(l: Ledger, l': Ledger) {
    SameRecords(l.requests, l'.requests) && l'.terminalOrder == l.terminalOrder && l'.limits == l.limits
  }

  lemma CancelTakes(s: Fabric, id: Id, reason: Reason, now: int)
    requires Coherent(s)
    ensures var out := C.CancelRequest(s, id, reason, now);
      var l := LedgerModel.CancelRequest(s.ledger, id, reason, s.sequence + 1, now);
      && out.result == l.result && out.fabric.sequence == s.sequence + 1
      && (out.result.Failure? ==> out.fabric == s.(sequence := s.sequence + 1))
      && (out.result.Success? ==> LedgerAs(l.ledger, out.fabric.ledger) && Took(s, out.fabric, id))
  {
    LedgerView(s);
    CancelLedger(s.ledger, id, reason, s.sequence + 1, now);
    var out := LedgerModel.CancelRequest(s.ledger, id, reason, s.sequence + 1, now);
    if out.result.Success? {
      var s1 := s.(sequence := s.sequence + 1, ledger := out.ledger);
      EndingTakes(s, s1, id);
      EndingCoheres(s, s1, id);
    }
  }

  lemma FailTakes(s: Fabric, id: Id, a: Id, reason: Reason, now: int)
    requires Coherent(s)
    ensures var out := C.FailAttempt(s, id, a, reason, now);
      var l := LedgerModel.FailAttempt(s.ledger, id, a, reason, now);
      && out.result == l.result && (out.result.Failure? ==> out.fabric == s)
      && (out.result.Success? ==> LedgerAs(l.ledger, out.fabric.ledger) && Took(s, out.fabric, id))
  {
    LedgerView(s);
    var op := OpFail(id, a, reason, now);
    LedgerStep(s.ledger, op);
    StepKeepsRecords(s.ledger, op);
    FailDrops(s.ledger, op);
    if LedgerModel.FailAttempt(s.ledger, id, a, reason, now).result.Success? {
      KnownIsNotNil(s.ledger, id);
      EndingTakes(s, s.(ledger := Step(s.ledger, op)), id);
      EndingCoheres(s, s.(ledger := Step(s.ledger, op)), id);
    }
  }

  lemma PublishTakes(s: Fabric, p: Publication, now: int)
    requires Coherent(s)
    ensures var out := C.PublishCompletion(s, p, now);
      var l := LedgerModel.PublishCompletion(s.ledger, p, now);
      && out.result == l.result
      && (if out.result.Success? && out.result.value.disposition.Committed?
          then LedgerAs(l.ledger, out.fabric.ledger) && Took(s, out.fabric, p.request)
          else out.fabric == s.(ledger := l.ledger))
  {
    LedgerView(s);
    var op := OpPublish(p, now);
    LedgerStep(s.ledger, op);
    StepKeepsRecords(s.ledger, op);
    PublishDrops(s.ledger, op);
    var out := LedgerModel.PublishCompletion(s.ledger, p, now);
    if out.result.Success? && out.result.value.disposition.Committed? {
      EndingTakes(s, s.(ledger := out.ledger), p.request);
      EndingCoheres(s, s.(ledger := out.ledger), p.request);
    }
  }

  // ---------------------------------------------------------------------------------------------
  // Transfers
  // ---------------------------------------------------------------------------------------------

  /** The transfer's flow is gone from the book and from the transfer, and nothing else has changed. */
  ghost predicate TransferReleased(s: Fabric, s': Fabric, t: Id)
    requires t in s.transfers
  {
    && s'.transfers == s.transfers[t := s.transfers[t].(flow := NO_FLOW)]
    && s' == s.(book := s'.book, transfers := s'.transfers, ledger := s'.ledger)
    && SameRecords(s.ledger.requests, s'.ledger.requests)
    && forall f {:trigger At(f)} :: At(f) ==>
         && (f in s'.book.flows <==> f in s.book.flows && s.book.flows[f].owner != OfTransfer(t))
         && (f in s'.book.flows ==> s'.book.flows[f] == s.book.flows[f])
  }

  lemma ReleaseExactly(s: Fabric, t: Id)
    requires Coherent(s) && t in s.transfers
    ensures Coherent(ReleaseTransfer(s, t)) && TransferReleased(s, ReleaseTransfer(s, t), t)
  {
    View(s);
    assert At(t);
    var victims := set p | p in s.book.byTransfer && p.0 == t :: p.1;
    ReleaseTransferCoheres(s, t);
    ReleaseAllSettles(s, victims, {});
    ReleasedFlows(s, victims);
    var s' := ReleaseTransfer(s, t);
    View(s');
    forall f | At(f) && f in s.book.flows
      ensures f in victims <==> s.book.flows[f].owner == OfTransfer(t)
    {
      assert At((t, f));
    }
    LinkedIsVictim(s, t);
    forall u | At(u) && u in s.transfers && u != t
      ensures s'.transfers[u] == s.transfers[u]
    {
      if !s.transfers[u].flow.IsNil() { assert At(s.transfers[u].flow); }
    }
    OnlyUnlinked(s.transfers, s'.transfers, t);
  }

  lemma OnlyUnlinked(before: map<Id, Transfer>, after: map<Id, Transfer>, t: Id)
    requires SameTransfers(before, after) && t in before && after[t].flow.IsNil()
    requires forall u {:trigger At(u)} :: At(u) && u in before && u != t ==> after[u] == before[u]
    ensures after == before[t := before[t].(flow := NO_FLOW)]
  {
    assert At(t);
    forall u | u in before
      ensures after[u] == before[t := before[t].(flow := NO_FLOW)][u]
    {
      assert At(u);
    }
  }

  lemma StartExactly(s: Fabric, t: Id, a: Authorization)
    ensures var out := StartTransfer(s, t, a);
      && (out.result.Success? <==>
            && t in s.transfers && a.transfer == t && a.authorized
            && (s.transfers[t].state.Authorized? || s.transfers[t].state.InProgress?))
      && (out.result.Failure? ==> out.fabric == s)
      && (out.result.Success? ==>
            out.fabric == s.(transfers := s.transfers[t := s.transfers[t].(state := InProgress)]))
  {
  }

  /** What was delivered is at most the payload, and all of it where the transfer asks for verification. */
  predicate Acceptable(x: Transfer, verified: nat) {
    verified <= x.payloadBytes && (x.integrity.ChecksumAndVerify? ==> verified == x.payloadBytes)
  }

  predicate Underway(s: Fabric, t: Id) {
    t in s.transfers && (s.transfers[t].state.Authorized? || s.transfers[t].state.InProgress?)
  }

  /** The transfer ends in this state for this reason, and its flow is released. */
  ghost predicate EndsAs(s: Fabric, s': Fabric, t: Id, verified: nat, state: TransferState, reason: Reason)
    requires t in s.transfers
  {
    var ended := s.(transfers := s.transfers[t := s.transfers[t].(state := state, reason := reason,
                                                                   verifiedBytes := verified)]);
    TransferReleased(ended.(refused := s'.refused, finished := s'.finished), s', t)
  }

  lemma EndTransferExactly(s: Fabric, t: Id, r: Transfer)
    requires Coherent(s) && t in s.transfers
    requires r.flow == s.transfers[t].flow && r.request == s.transfers[t].request
    ensures var s1 := s.(transfers := s.transfers[t := r]); TransferReleased(s1, ReleaseTransfer(s1, t), t)
  {
    TransferRewritten(s, t, r);
    ReleaseExactly(s.(transfers := s.transfers[t := r]), t);
  }

  lemma CompleteExactly(s: Fabric, t: Id, verified: nat)
    requires Coherent(s)
    ensures var out := CompleteTransfer(s, t, verified);
      && (out.result.Success? <==> Underway(s, t) && Acceptable(s.transfers[t], verified))
      && (!Underway(s, t) ==> out.fabric == s)
      && (out.result.Success? ==>
            && EndsAs(s, out.fabric, t, verified, TransferCompleted, COMMITTED_COMPLETION)
            && out.fabric.finished == s.finished + 1 && out.fabric.refused == s.refused)
      && (Underway(s, t) && !Acceptable(s.transfers[t], verified) ==>
            && out.result == Failure(IntegrityMismatch)
            && EndsAs(s, out.fabric, t, s.transfers[t].verifiedBytes, TransferRefused, REJECTED_INTEGRITY_UNAVAILABLE)
            && out.fabric.refused == s.refused + 1 && out.fabric.finished == s.finished)
  {
    if t in s.transfers {
      var x := s.transfers[t];
      EndTransferExactly(s, t, x.(state := TransferRefused, reason := REJECTED_INTEGRITY_UNAVAILABLE));
      EndTransferExactly(s, t, x.(verifiedBytes := verified, state := TransferCompleted,
                                  reason := COMMITTED_COMPLETION));
      assert WithState(s.(transfers := s.transfers[t := x.(verifiedBytes := verified)]), t, TransferCompleted,
                       COMMITTED_COMPLETION)
             == s.(transfers := s.transfers[t := x.(verifiedBytes := verified, state := TransferCompleted,
                                                    reason := COMMITTED_COMPLETION)]);
    }
  }

  lemma AbandonExactly(s: Fabric, t: Id, reason: Reason)
    requires Coherent(s)
    ensures var out := AbandonTransfer(s, t, reason);
      && (out.result.Success? <==> t in s.transfers && !s.transfers[t].state.TransferCompleted?)
      && (out.result.Failure? ==> out.fabric == s)
      && (out.result.Success? ==>
            && EndsAs(s, out.fabric, t, s.transfers[t].verifiedBytes, Abandoned, reason)
            && out.fabric.refused == s.refused + 1 && out.fabric.finished == s.finished)
  {
    if t in s.transfers { EndTransferExactly(s, t, s.transfers[t].(state := Abandoned, reason := reason)); }
  }

  // ---------------------------------------------------------------------------------------------
  // Flows
  // ---------------------------------------------------------------------------------------------

  /** Bulk traffic under a ceiling must fit it together with all bulk in flight. */
  predicate FitsCeiling(s: Fabric, c: TrafficClass, declared: nat) {
    RuleOf(s.policy, c).yieldsToLatency && s.policy.bulkCap > 0 ==> s.book.bulk + declared <= s.policy.bulkCap
  }

  /** The decision stands now: its stamp is current, it permits, and nothing it rests on has changed. */
  predicate Stands(s: Fabric, d: Decision) {
    && Stamped(s, d.authority) && d.Permits()
    && (d.subject.Serving? ==> ServingStands(s, d)) && (d.subject.Moving? ==> MovingStands(s, d))
  }

  /** There is a place for the flow: room on the request's books, or a transfer to carry it. */
  predicate HasPlace(s: Fabric, d: Decision) {
    if d.subject.Serving? then
      && !d.treatment.traffic.ClassUnknown? && d.subject.request in s.ledger.requests
      && Workable(s.ledger.requests[d.subject.request], d.subject.attempt)
      && s.ledger.requests[d.subject.request].activeFlows < s.ledger.limits.maxFlowsPerRequest
      && s.ledger.account.activeTotal < s.ledger.limits.maxFlowsTotal
    else d.subject.transfer in s.transfers
  }

  predicate MayOpen(s: Fabric, d: Decision, declared: nat) {
    && Stands(s, d) && declared <= s.config.maxPayload && FitsCeiling(s, d.treatment.traffic, declared)
    && HasPlace(s, d)
  }

  /** One more flow, of the decision's class and subject, with nothing observed; its bytes count as bulk if they are. */
  ghost predicate Opened(s: Fabric, s': Fabric, d: Decision, declared: nat, f: FlowId) {
    && s' == s.(book := s'.book, ledger := s'.ledger, transfers := s'.transfers)
    && s'.book.flows == s.book.flows[f := Flow(
         if d.subject.Serving? then OfRequest(d.subject.request, d.subject.attempt) else OfTransfer(d.subject.transfer),
         d.treatment.traffic, declared, 0, d.authority.sequence,
         RuleOf(s.policy, d.treatment.traffic).yieldsToLatency)]
    && (d.subject.Serving? ==> s'.transfers == s.transfers && s'.book.nextFlow == s.book.nextFlow)
    && (!d.subject.Serving? ==>
          && s'.ledger == s.ledger && s'.book.nextFlow == s.book.nextFlow + 1
          && d.subject.transfer in s.transfers
          && s'.transfers == s.transfers[d.subject.transfer := s.transfers[d.subject.transfer].(flow := f)])
  }

  lemma CeilingMeaning(s: Fabric, c: TrafficClass, declared: nat)
    requires Coherent(s) && declared <= s.config.maxPayload
    ensures BulkExhausted(s, c, declared) <==> !FitsCeiling(s, c, declared)
  {
    View(s);
    BulkNeverWraps(s, declared);
  }

  /** A flow opens exactly when the decision stands, its bytes fit, and there is a place for it. */
  lemma OpenFlowExactly(s: Fabric, d: Decision, declared: nat, now: int, tag: bv64)
    requires Coherent(s) && (Reopens(s, d) || NextId(s, d, tag) !in s.book.flows)
    ensures var out := C.OpenFlow(s, d, declared, now, tag);
      && (out.result.Success? <==> MayOpen(s, d, declared))
      && (out.result.Failure? ==> out.fabric == s)
      && (out.result.Success? && Reopens(s, d) ==>
            out.fabric == s && out.result.value == s.transfers[d.subject.transfer].flow)
      && (out.result.Success? && !Reopens(s, d) ==>
            out.result.value == NextId(s, d, tag) && Opened(s, out.fabric, d, declared, out.result.value))
  {
    ValidationMeaning(s, d);
    if declared <= s.config.maxPayload { CeilingMeaning(s, d.treatment.traffic, declared); }
    if d.subject.Serving? {
      OpenExactly(s.ledger, d.subject.request, d.subject.attempt, d.treatment.traffic, declared, now, tag);
    }
  }

  /** Releasing a flow removes it from every table that knows it; an unknown one changes nothing. */
  lemma ReleaseFlowExactly(s: Fabric, f: FlowId)
    requires Coherent(s)
    ensures var out := C.ReleaseFlow(s, f);
      && (out.result.Success? <==> f in s.book.flows) && (out.result.Failure? ==> out.fabric == s)
      && out.fabric.book.flows == s.book.flows - {f} && out.fabric.ledger.flows == s.ledger.flows - {f}
      && (forall t {:trigger At(t)} :: At(t) && t in s.transfers ==>
            && t in out.fabric.transfers
            && out.fabric.transfers[t] == if f in s.book.flows && s.transfers[t].flow == f
                                          then s.transfers[t].(flow := NO_FLOW) else s.transfers[t])
  {
    View(s);
    ReleasedOne(s, f);
    assert At(f);
    LedgerRelease(s.ledger, f);
    if f in s.book.flows && s.book.flows[f].owner.OfTransfer? {
      assert At(s.book.flows[f].owner.transfer);
    }
  }

  /** Observed bytes are added to the flow; a serving flow's also to its request, in the direction given. */
  lemma ObserveExactly(s: Fabric, f: FlowId, bytes: nat, inbound: bool)
    ensures var out := C.RecordFlowBytes(s, f, bytes, inbound);
      var fits := f in s.book.flows && s.book.flows[f].observedBytes + bytes < TWO_64;
      && (!fits ==> out.fabric == s && out.result.Failure?)
      && (fits ==>
            var x := s.book.flows[f];
            var serving := LedgerModel.RecordFlowBytes(s.ledger, f, bytes, inbound);
            && out.fabric.book == s.book.(flows := s.book.flows[f := x.(observedBytes := x.observedBytes + bytes)])
            && (x.owner.OfTransfer? ==> out.result.Success? && out.fabric == s.(book := out.fabric.book))
            && (x.owner.OfRequest? ==>
                  out.result == serving.result && out.fabric == s.(book := out.fabric.book, ledger := serving.ledger)))
  {
  }

  // ---------------------------------------------------------------------------------------------
  // Authorization
  // ---------------------------------------------------------------------------------------------

  /** What the caller is told: the decision's class of service and stamp, and whether the transfer may go. */
  predicate Tells(a: Authorization, t: Id, d: Decision, authorized: bool, reason: Reason, f: FlowId) {
    && a.transfer == t && a.authorized == authorized && a.reason == reason && a.flow == f
    && a.authority == d.authority && a.traffic == d.treatment.traffic && a.integrity == d.treatment.integrity
    && a.pacing == d.treatment.pacing && a.priority == d.treatment.priority
  }

  lemma RefusedAuthorization(s: Fabric, d: Decision, t: Id, now: int, tag: bv64)
    requires Coherent(s) && t in s.transfers && !d.Permits()
    ensures var out := Conclude(s, d, t, now, tag);
      && out.result.Success? && Tells(out.result.value, t, d, false, d.reason, NO_FLOW)
      && EndsAs(s, out.fabric, t, s.transfers[t].verifiedBytes, TransferRefused, d.reason)
      && out.fabric.refused == s.refused + 1 && out.fabric.finished == s.finished
  {
    EndTransferExactly(s, t, s.transfers[t].(state := TransferRefused, reason := d.reason));
  }

  /** A permitted transfer that does not fit is refused, and keeps whatever flow it has. */
  lemma UnfitAuthorization(s: Fabric, d: Decision, t: Id, now: int, tag: bv64)
    requires Coherent(s) && t in s.transfers && d.Permits() && d.subject == Moving(t)
    requires Reopens(s, d) || NextId(s, d, tag) !in s.book.flows
    requires !MayOpen(s, d, s.transfers[t].payloadBytes)
    ensures var out := Conclude(s, d, t, now, tag);
      && out.result.Success? && Tells(out.result.value, t, d, false, REJECTED_FLOW_LIMIT, NO_FLOW)
      && out.fabric == s.(transfers := s.transfers[t := s.transfers[t].(state := TransferRefused,
                                                                        reason := REJECTED_FLOW_LIMIT)],
                          refused := s.refused + 1)
  {
    OpenFlowExactly(s, d, s.transfers[t].payloadBytes, now, tag);
  }

  /** A permitted transfer that fits is authorized, with its flow open. */
  lemma GrantedAuthorization(s: Fabric, d: Decision, t: Id, now: int, tag: bv64)
    requires Coherent(s) && d.Permits() && d.subject == Moving(t) && t in s.transfers
    requires Reopens(s, d) || NextId(s, d, tag) !in s.book.flows
    requires MayOpen(s, d, s.transfers[t].payloadBytes)
    ensures var out := Conclude(s, d, t, now, tag);
      var f := if Reopens(s, d) then s.transfers[t].flow else NextId(s, d, tag);
      && out.result.Success? && Tells(out.result.value, t, d, true, d.reason, f)
      && out.fabric.transfers == s.transfers[t := s.transfers[t].(state := Authorized, flow := f)]
      && out.fabric.started == s.started + 1 && out.fabric.refused == s.refused && out.fabric.ledger == s.ledger
      && f in out.fabric.book.flows && out.fabric.book.flows[f].owner == OfTransfer(t)
  {
    OpenFlowExactly(s, d, s.transfers[t].payloadBytes, now, tag);
    View(s);
    assert At(t);
  }

  lemma ConclusionExactly(s: Fabric, d: Decision, t: Id, now: int, tag: bv64)
    requires Coherent(s) && d.subject == Moving(t) && t in s.transfers
    requires FlowId(s.book.nextFlow + 1, tag) !in s.book.flows
    ensures var out := Conclude(s, d, t, now, tag);
      && out.result.Success? && t in out.fabric.transfers && out.fabric.sequence == s.sequence
      && (out.result.value.authorized <==> d.Permits() && MayOpen(s, d, s.transfers[t].payloadBytes))
      && out.fabric.transfers[t].state == (if out.result.value.authorized then Authorized else TransferRefused)
  {
    if !d.Permits() {
      RefusedAuthorization(s, d, t, now, tag);
    } else if MayOpen(s, d, s.transfers[t].payloadBytes) {
      GrantedAuthorization(s, d, t, now, tag);
      OpenFlowExactly(s, d, s.transfers[t].payloadBytes, now, tag);
    } else {
      UnfitAuthorization(s, d, t, now, tag);
    }
  }

  /** Right after its own evaluation a permission stands, so only the fit is left to ask. */
  lemma PermissionOpens(s: Fabric, q: TrafficRequest, now: int, choice: Key, t: Id)
    requires Coherent(s) && Booted(s) && q.subject == Some(Moving(t)) && t in s.transfers
    requires Evaluate(s, q, now, choice).1.Permits()
    ensures SubjectKnown(s, SubjectOf(q))
    ensures var e, payload := Evaluate(s, q, now, choice), s.transfers[t].payloadBytes;
      MayOpen(e.0, e.1, payload) <==>
      payload <= s.config.maxPayload && FitsCeiling(s, EffectiveClass(s, q), payload)
  {
    LedgerView(s);
    EvaluateRefinesFences(s, q, now, choice);
    DecisionsValidateExactly(s, q, now, choice);
    var e := Evaluate(s, q, now, choice);
    ValidationMeaning(e.0, e.1);
  }

  /**
   * A transfer is authorized exactly when, as things stand before the call, every fence holds, it is not put
   * off, and its payload fits; otherwise it is refused.
   */
  lemma AuthorizationExactly(s: Fabric, q: TrafficRequest, now: int, choice: Key, tag: bv64, t: Id)
    requires Coherent(s) && Booted(s) && q.subject == Some(Moving(t)) && t in s.transfers
    requires FlowId(s.book.nextFlow + 1, tag) !in s.book.flows
    ensures var out := AuthorizeTransfer(s, q, now, choice, tag);
      && out.result.Success? && t in out.fabric.transfers
      && (out.result.value.authorized <==>
            && Fences(s, q, now) && !PutOff(s, q, now) && s.transfers[t].payloadBytes <= s.config.maxPayload
            && FitsCeiling(s, EffectiveClass(s, q), s.transfers[t].payloadBytes))
      && out.fabric.transfers[t].state == (if out.result.value.authorized then Authorized else TransferRefused)
      && out.fabric.sequence == s.sequence + 1
  {
    View(s);
    BulkNeverWraps(s, 0);
    VerdictExactly(s, q, now, choice);
    EvaluateCoheres(s, q, now, choice);
    var e := Evaluate(s, q, now, choice);
    if e.1.Permits() { PermissionOpens(s, q, now, choice, t); }
    ConclusionExactly(e.0, e.1, t, now, tag);
  }
}
