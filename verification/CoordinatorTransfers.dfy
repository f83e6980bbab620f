/**
 * Transfers and the bulk ceiling over whole runs: what completion promises is kept, ended transfers hold
 * no flow unless an authorization strands one, and the bytes in flight stay under a ceiling that is set.
 */
module CoordinatorTransfers {
  import opened Ids
  import opened Traffic
  import opened LedgerModel
  import opened LedgerRecords
  import opened Deferral
  import opened CoordinatorModel
  import C = CoordinatorModel
  import opened Evaluation
  import opened EvaluationProofs
  import opened CoordinatorRuns
  import opened CoordinatorCoherence
  import opened CoordinatorInvariant
  import opened CoordinatorEvolution
  import opened CoordinatorSafety

  // ---------------------------------------------------------------------------------------------
  // What each kind of call leaves alone
  // ---------------------------------------------------------------------------------------------

  /** What only a boot touches. */
  ghost predicate SameBoot(s: Fabric, s': Fabric) {
    s'.config == s.config && s'.epoch == s.epoch && s'.incarnation == s.incarnation
    && s'.bootCount == s.bootCount
  }

  /** What only the evidence calls touch. */
  ghost predicate Standing(s: Fabric, s': Fabric) {
    && SameBoot(s, s')
    && s'.policy == s.policy && s'.models == s.models && s'.states == s.states && s'.topology == s.topology
  }

  ghost predicate Quiet(s: Fabric, s': Fabric) { Standing(s, s') && s'.defers == s.defers }

  lemma LedgerQuiet(s: Fabric, b: Book, l: Ledger)
    ensures Quiet(s, s.(book := b).(ledger := l))
  {
  }

  lemma TransfersQuiet(s: Fabric, b: Book, transfers: map<Id, Transfer>)
    ensures Quiet(s, s.(book := b).(transfers := transfers))
  {
  }

  lemma ReleaseOneQuiet(s: Fabric, f: FlowId)
    ensures Quiet(s, ReleaseOne(s, f))
  {
    if f in s.book.flows {
      match s.book.flows[f].owner
      case OfRequest(_, _) => ServingReleaseQuiet(s, f);
      case OfTransfer(t) => TransfersQuiet(s, DropFlow(s.book, f), Unlinked(s.transfers, t, f));
    }
  }

  lemma ServingReleaseQuiet(s: Fabric, f: FlowId)
    requires f in s.book.flows
    ensures Quiet(s, s.(book := DropFlow(s.book, f)).(ledger := LedgerModel.ReleaseFlow(s.ledger, f).ledger))
  {
    LedgerQuiet(s, DropFlow(s.book, f), LedgerModel.ReleaseFlow(s.ledger, f).ledger);
  }

  lemma OpenServingQuiet(s: Fabric, d: Decision, declared: nat, now: int, tag: bv64)
    requires d.subject.Serving?
    ensures Quiet(s, OpenServing(s, d, declared, now, tag).fabric)
  {
  }

  lemma OpenMovingQuiet(s: Fabric, d: Decision, declared: nat, tag: bv64)
    requires !d.subject.Serving?
    ensures Quiet(s, OpenMoving(s, d, declared, tag).fabric)
  {
  }

  lemma OpenQuiet(s: Fabric, d: Decision, declared: nat, now: int, tag: bv64)
    ensures Quiet(s, C.OpenFlow(s, d, declared, now, tag).fabric)
  {
    if d.subject.Serving? { OpenServingQuiet(s, d, declared, now, tag); }
    else { OpenMovingQuiet(s, d, declared, tag); }
  }

  lemma {:induction false} ReleaseAllQuiet(s: Fabric, victims: set<FlowId>)
    ensures Quiet(s, ReleaseAll(s, victims))
    decreases victims
  {
    if victims == {} {
    } else {
      var f :| f in victims && ReleaseAll(s, victims) == ReleaseAll(ReleaseOne(s, f), victims - {f});
      ReleaseOneQuiet(s, f);
      ReleaseAllQuiet(ReleaseOne(s, f), victims - {f});
    }
  }

  lemma ReleaseRequestQuiet(s: Fabric, id: Id)
    ensures Quiet(s, ReleaseRequest(s, id))
  {
    ReleaseAllQuiet(s.(transfers := AbandonOwned(s, id)), ServingVictims(s, id) + TransferVictims(s, id));
  }

  lemma ReleaseTransferQuiet(s: Fabric, t: Id)
    ensures Quiet(s, ReleaseTransfer(s, t))
  {
    ReleaseAllQuiet(s, set p | p in s.book.byTransfer && p.0 == t :: p.1);
  }

  lemma RequestQuiet(s: Fabric, call: RequestCall)
    ensures Quiet(s, ActRequest(s, call))
  {
    match call
    case CallCancel(id, reason, now) => CancellationQuiet(s, id, reason, now);
    case CallFail(id, a, reason, now) => FailureQuiet(s, id, a, reason, now);
    case CallReplace(id, a, b, h, now) => ReplacementQuiet(s, id, a, b, h, now);
    case CallPublish(p, now) => PublicationQuiet(s, p, now);
    case _ =>
  }

  lemma CancellationQuiet(s: Fabric, id: Id, reason: Reasons.Reason, now: int)
    ensures Quiet(s, C.CancelRequest(s, id, reason, now).fabric)
  {
    var out := LedgerModel.CancelRequest(s.ledger, id, reason, s.sequence + 1, now);
    ReleaseRequestQuiet(s.(sequence := s.sequence + 1, ledger := out.ledger), id);
  }

  lemma FailureQuiet(s: Fabric, id: Id, a: Id, reason: Reasons.Reason, now: int)
    ensures Quiet(s, C.FailAttempt(s, id, a, reason, now).fabric)
  {
    ReleaseRequestQuiet(s.(ledger := LedgerModel.FailAttempt(s.ledger, id, a, reason, now).ledger), id);
  }

  lemma ReplacementQuiet(s: Fabric, id: Id, a: Id, b: Id, h: Word64, now: int)
    ensures Quiet(s, ReplaceAttempt(s, id, a, b, h, now).fabric)
  {
    ReleaseRequestQuiet(s.(ledger := SupersedeAttempt(s.ledger, id, a, b, now).ledger), id);
  }

  lemma PublicationQuiet(s: Fabric, p: Publication, now: int)
    ensures Quiet(s, C.PublishCompletion(s, p, now).fabric)
  {
    ReleaseRequestQuiet(s.(ledger := LedgerModel.PublishCompletion(s.ledger, p, now).ledger), p.request);
  }

  lemma TransferStands(s: Fabric, call: TransferCall)
    ensures Standing(s, ActTransfer(s, call))
    ensures !call.CallAuthorize? ==> ActTransfer(s, call).defers == s.defers
  {
    match call
    case CallAuthorize(q, now, choice, tag) => AuthorizeStands(s, q, now, choice, tag);
    case CallComplete(t, verified) => CompleteQuiet(s, t, verified);
    case CallAbandon(t, reason) => AbandonmentQuiet(s, t, reason);
    case CallTransfer(r) => TransferTakenQuiet(s, r);
    case CallStart(t, a) => StartQuiet(s, t, a);
  }

  lemma TransferTakenQuiet(s: Fabric, r: TransferSpec)
    ensures Quiet(s, RegisterTransfer(s, r).fabric)
  {
  }

  lemma StartQuiet(s: Fabric, t: Id, a: Authorization)
    ensures Quiet(s, StartTransfer(s, t, a).fabric)
  {
  }

  lemma AbandonmentQuiet(s: Fabric, t: Id, reason: Reasons.Reason)
    ensures Quiet(s, AbandonTransfer(s, t, reason).fabric)
  {
    if t in s.transfers { ReleaseTransferQuiet(WithState(s, t, Abandoned, reason), t); }
  }

  lemma AuthorizeStands(s: Fabric, q: TrafficRequest, now: int, choice: Key, tag: bv64)
    ensures var s' := AuthorizeTransfer(s, q, now, choice, tag).fabric;
      && Standing(s, s')
      && s'.defers == if q.subject.Some? && q.subject.value.Moving? then Evaluate(s, q, now, choice).0.defers
                      else s.defers
  {
    if q.subject.Some? && q.subject.value.Moving? {
      var e := Evaluate(s, q, now, choice);
      ConcludeQuiet(e.0, e.1, q.subject.value.transfer, now, tag);
    }
  }

  lemma ConcludeQuiet(s: Fabric, d: Decision, t: Id, now: int, tag: bv64)
    ensures Quiet(s, Conclude(s, d, t, now, tag).fabric)
  {
    if t in s.transfers {
      if d.Permits() { OpenQuiet(s, d, s.transfers[t].payloadBytes, now, tag); }
      else { ReleaseTransferQuiet(WithState(s, t, TransferRefused, d.reason), t); }
    }
  }

  lemma CompleteQuiet(s: Fabric, t: Id, verified: nat)
    ensures Quiet(s, CompleteTransfer(s, t, verified).fabric)
  {
    if t in s.transfers {
      ReleaseTransferQuiet(WithState(s, t, TransferRefused, Reasons.REJECTED_INTEGRITY_UNAVAILABLE), t);
      var done := s.(transfers := s.transfers[t := s.transfers[t].(verifiedBytes := verified)]);
      ReleaseTransferQuiet(WithState(done, t, TransferCompleted, Reasons.COMMITTED_COMPLETION), t);
    }
  }

  lemma BytesQuiet(s: Fabric, f: FlowId, bytes: nat, inbound: bool)
    ensures Quiet(s, C.RecordFlowBytes(s, f, bytes, inbound).fabric)
  {
    if f in s.book.flows && s.book.flows[f].observedBytes + bytes < TWO_64 {
      var flow := s.book.flows[f].(observedBytes := s.book.flows[f].observedBytes + bytes);
      LedgerQuiet(s, s.book.(flows := s.book.flows[f := flow]),
                  LedgerModel.RecordFlowBytes(s.ledger, f, bytes, inbound).ledger);
    }
  }

  lemma FlowStands(s: Fabric, call: FlowCall)
    ensures Standing(s, ActFlow(s, call))
    ensures !call.CallEvaluate? ==> ActFlow(s, call).defers == s.defers
  {
    match call
    case CallEvaluate(_, _, _) =>
    case CallOpen(d, declared, now, tag) => OpenQuiet(s, d, declared, now, tag);
    case CallRelease(f) => ReleaseOneQuiet(s, f);
    case CallBytes(f, bytes, inbound) => BytesQuiet(s, f, bytes, inbound);
  }

  predicate SetsPolicy(call: Call) { call.OnEvidence? && call.evidence.CallPolicy? }

  predicate Decides(call: Call) {
    (call.OnFlow? && call.flow.CallEvaluate?) || (call.OnTransfer? && call.transfer.CallAuthorize?)
  }

  lemma EvidenceKeepsPolicy(s: Fabric, call: EvidenceCall)
    requires !call.CallPolicy?
    ensures ActEvidence(s, call).policy == s.policy
  {
  }

  /** Only evidence calls change the evidence, and only decisions the deferral table. */
  lemma ActQuiet(s: Fabric, call: Call)
    ensures SameBoot(s, Act(s, call))
    ensures !call.OnEvidence? ==> Standing(s, Act(s, call))
    ensures !SetsPolicy(call) ==> Act(s, call).policy == s.policy
    ensures !Decides(call) ==> Act(s, call).defers == s.defers
  {
    match call
    case OnRequest(r) => RequestQuiet(s, r);
    case OnEvidence(e) =>
      EvidenceUnmoved(s, e);
      if !e.CallPolicy? { EvidenceKeepsPolicy(s, e); }
    case OnFlow(f) => FlowStands(s, f);
    case OnTransfer(t) => TransferStands(s, t);
  }

  // ---------------------------------------------------------------------------------------------
  // The bulk ceiling
  // ---------------------------------------------------------------------------------------------

  ghost predicate KeepsPolicy(calls: seq<Call>) {
    forall i | 0 <= i < |calls| :: !SetsPolicy(calls[i])
  }

  /** Under one policy with a ceiling, the bulk flows open at any time never add up to more than it. */
  lemma {:induction false} BulkStaysUnderCeiling(s: Fabric, calls: seq<Call>)
    requires Coherent(s) && MintsDistinctly(s, calls) && KeepsPolicy(calls)
    requires 0 < s.policy.bulkCap && s.book.bulk <= s.policy.bulkCap
    ensures var end := ActAll(s, calls);
      && Coherent(end) && end.policy == s.policy
      && end.book.bulk == BulkSum(end.book.flows) <= s.policy.bulkCap
    decreases |calls|
  {
    if calls == [] {
      View(s);
    } else {
      ActCoheres(s, calls[0]);
      ActOnward(s, calls[0]);
      ActQuiet(s, calls[0]);
      BulkStaysUnderCeiling(Act(s, calls[0]), calls[1..]);
    }
  }

  // ---------------------------------------------------------------------------------------------
  // Promises of completion
  // ---------------------------------------------------------------------------------------------

  ghost predicate PromisesKept(transfers: Transfers) {
    forall t {:trigger At(t)} :: At(t) && t in transfers ==>
      && transfers[t].verifiedBytes <= transfers[t].payloadBytes
      && (transfers[t].state.TransferCompleted? ==> Delivered(transfers[t]))
  }

  /** No run verifies more than the payload, or completes a verified transfer with less. */
  lemma {:induction false} TransfersKeepPromises(s: Fabric, calls: seq<Call>)
    requires Coherent(s) && MintsDistinctly(s, calls) && PromisesKept(s.transfers)
    ensures PromisesKept(ActAll(s, calls).transfers)
    decreases |calls|
  {
    if calls == [] {
    } else {
      ActCoheres(s, calls[0]);
      ActOnward(s, calls[0]);
      PromisesStep(s, Act(s, calls[0]), Revalidates(calls[0]));
      TransfersKeepPromises(Act(s, calls[0]), calls[1..]);
    }
  }

  lemma PromisesStep(s: Fabric, s': Fabric, named: set<Id>)
    requires Onward(s, s', named) && PromisesKept(s.transfers)
    ensures PromisesKept(s'.transfers)
  {
  }

  // ---------------------------------------------------------------------------------------------
  // Ended transfers hold no flow
  // ---------------------------------------------------------------------------------------------

  /** The transfers that end in a step end without a flow. */
  ghost predicate EndsClean(before: Transfers, after: Transfers) {
    forall t {:trigger At(t)} :: At(t) && t in before && t in after ==>
      TransferEnded(before[t].state) || !TransferEnded(after[t].state) || after[t].flow.IsNil()
  }

  ghost predicate EndedFlowless(transfers: Transfers) {
    forall t {:trigger At(t)} :: At(t) && t in transfers && TransferEnded(transfers[t].state) ==>
      transfers[t].flow.IsNil()
  }

  lemma EndedFlowlessStep(s: Fabric, s': Fabric, named: set<Id>)
    requires Forward(s, s', named) && EndedFlowless(s.transfers) && EndsClean(s.transfers, s'.transfers)
    ensures EndedFlowless(s'.transfers)
  {
  }

  lemma ReleaseRequestEndsClean(s: Fabric, s1: Fabric, id: Id)
    requires Coherent(s) && !id.IsNil() && LedgerOk(s1.ledger)
    requires s1 == s.(ledger := s1.ledger, sequence := s1.sequence) && s1.ledger.limits == s.ledger.limits
    requires DropsOnly(s.ledger.flows, s1.ledger.flows, id)
    ensures EndsClean(s.transfers, ReleaseRequest(s1, id).transfers)
  {
    EndingCoheres(s, s1, id);
    View(s);
    var s' := ReleaseRequest(s1, id);
    forall t | At(t) && t in s.transfers && t in s'.transfers
               && !TransferEnded(s.transfers[t].state) && TransferEnded(s'.transfers[t].state)
      ensures s'.transfers[t].flow.IsNil()
    {
      assert t in OwnedBy(s1, id);
      assert At((id, t));
    }
  }

  lemma EndingCallEndsClean(s: Fabric, call: RequestCall)
    requires Coherent(s)
    ensures EndsClean(s.transfers, ActRequest(s, call).transfers)
  {
    LedgerView(s);
    match call
    case CallCancel(id, reason, now) =>
      CancelLedger(s.ledger, id, reason, s.sequence + 1, now);
      var out := LedgerModel.CancelRequest(s.ledger, id, reason, s.sequence + 1, now);
      if out.result.Success? {
        ReleaseRequestEndsClean(s, s.(sequence := s.sequence + 1, ledger := out.ledger), id);
      }
    case CallFail(id, a, reason, now) => FailEndsClean(s, id, a, reason, now);
    case CallReplace(id, a, b, h, now) => ReplaceEndsClean(s, id, a, b, h, now);
    case CallPublish(p, now) => PublishEndsClean(s, p, now);
    case _ =>
  }

  lemma FailEndsClean(s: Fabric, id: Id, a: Id, reason: Reasons.Reason, now: int)
    requires Coherent(s)
    ensures EndsClean(s.transfers, C.FailAttempt(s, id, a, reason, now).fabric.transfers)
  {
    LedgerView(s);
    var op := OpFail(id, a, reason, now);
    LedgerStep(s.ledger, op);
    StepKeepsRecords(s.ledger, op);
    FailDrops(s.ledger, op);
    if LedgerModel.FailAttempt(s.ledger, id, a, reason, now).result.Success? {
      KnownIsNotNil(s.ledger, id);
      ReleaseRequestEndsClean(s, s.(ledger := Step(s.ledger, op)), id);
    }
  }

  lemma ReplaceEndsClean(s: Fabric, id: Id, a: Id, b: Id, h: Word64, now: int)
    requires Coherent(s)
    ensures EndsClean(s.transfers, ReplaceAttempt(s, id, a, b, h, now).fabric.transfers)
  {
    LedgerView(s);
    var op := OpSupersede(id, a, b, now);
    LedgerStep(s.ledger, op);
    StepKeepsRecords(s.ledger, op);
    if SupersedeAttempt(s.ledger, id, a, b, now).result.Success? {
      KnownIsNotNil(s.ledger, id);
      ReleaseRequestEndsClean(s, s.(ledger := Step(s.ledger, op)), id);
    }
  }

  lemma PublishEndsClean(s: Fabric, p: Publication, now: int)
    requires Coherent(s)
    ensures EndsClean(s.transfers, C.PublishCompletion(s, p, now).fabric.transfers)
  {
    LedgerView(s);
    var op := OpPublish(p, now);
    LedgerStep(s.ledger, op);
    StepKeepsRecords(s.ledger, op);
    PublishDrops(s.ledger, op);
    var out := LedgerModel.PublishCompletion(s.ledger, p, now);
    if out.result.Success? && out.result.value.disposition.Committed? {
      ReleaseRequestEndsClean(s, s.(ledger := out.ledger), p.request);
    }
  }

  /** Taking a transfer's flow leaves it without one, and ends no other. */
  lemma ReleaseTransferClean(s: Fabric, t: Id, r: Transfer)
    requires Coherent(s) && t in s.transfers
    requires r.flow == s.transfers[t].flow && r.request == s.transfers[t].request
    ensures var s' := ReleaseTransfer(s.(transfers := s.transfers[t := r]), t);
      && EndsClean(s.transfers, s'.transfers)
      && t in s'.transfers && s'.transfers[t].flow.IsNil() && s'.transfers[t].state == r.state
  {
    var s1 := s.(transfers := s.transfers[t := r]);
    TransferRewritten(s, t, r);
    ReleaseUnlinks(s1, t);
    OnlyOneEnds(s.transfers, t, r, ReleaseTransfer(s1, t).transfers);
  }

  /** Releasing a transfer's flows touches the flow field of transfers only, and empties its own. */
  lemma ReleaseUnlinks(s: Fabric, t: Id)
    requires Coherent(s) && t in s.transfers
    ensures var s' := ReleaseTransfer(s, t);
      SameTransfers(s.transfers, s'.transfers) && t in s'.transfers && s'.transfers[t].flow.IsNil()
  {
    View(s);
    assert At(t);
    ReleaseAllSettles(s, set p | p in s.book.byTransfer && p.0 == t :: p.1, {});
    LinkedIsVictim(s, t);
  }

  lemma OnlyOneEnds(before: Transfers, t: Id, r: Transfer, after: Transfers)
    requires SameTransfers(before[t := r], after) && t in after && after[t].flow.IsNil()
    ensures EndsClean(before, after) && after[t].state == r.state
  {
    assert At(t);
  }

  lemma LinkedIsVictim(s: Fabric, t: Id)
    requires Settled(s) && t in s.transfers
    ensures s.transfers[t].flow.IsNil()
            || s.transfers[t].flow in set p | p in s.book.byTransfer && p.0 == t :: p.1
  {
    var f := s.transfers[t].flow;
    if !f.IsNil() {
      assert At(t) && At((t, f));
      assert (t, f) in s.book.byTransfer;
    }
  }

  /**
   * An authorization strands a flow when the transfer already holds one, every fence is up and nothing
   * defers it, and the payload no longer fits: the transfer is refused and keeps the flow.
   */
  ghost predicate Strands(s: Fabric, q: TrafficRequest, now: int, choice: Key) {
    && q.subject.Some? && q.subject.value.Moving? && q.subject.value.transfer in s.transfers
    && var t := s.transfers[q.subject.value.transfer];
       && !t.flow.IsNil() && Fences(s, q, now)
       && (Pressure(s, q, EffectiveClass(s, q), now).None? || Starved(s, q, now, choice))
       && Unfit(s, EffectiveClass(s, q), t.payloadBytes)
  }

  predicate Unfit(s: Fabric, c: TrafficClass, payload: nat) {
    payload > s.config.maxPayload || BulkExhausted(s, c, payload)
  }

  lemma StrandsMeaning(s: Fabric, q: TrafficRequest, now: int, choice: Key)
    requires q.subject.Some? && q.subject.value.Moving? && q.subject.value.transfer in s.transfers
    ensures var t := s.transfers[q.subject.value.transfer];
      var d := Evaluate(s, q, now, choice).1;
      Strands(s, q, now, choice) <==> !t.flow.IsNil() && d.Permits() && Unfit(s, d.treatment.traffic, t.payloadBytes)
  {
    EvaluateRefinesFences(s, q, now, choice);
  }

  lemma OpenFailsExactly(s: Fabric, d: Decision, declared: nat, now: int, tag: bv64)
    requires d.subject.Moving? && d.subject.transfer in s.transfers && ValidateDecision(s, d).Ok?
    ensures C.OpenFlow(s, d, declared, now, tag).result.Failure? <==>
            declared > s.config.maxPayload || BulkExhausted(s, d.treatment.traffic, declared)
  {
  }

  lemma AuthorizePermitted(s: Fabric, q: TrafficRequest, now: int, choice: Key, tag: bv64)
    requires Coherent(s) && Booted(s) && EndedFlowless(s.transfers)
    requires q.subject.Some? && q.subject.value.Moving? && q.subject.value.transfer in s.transfers
    requires Evaluate(s, q, now, choice).1.Permits()
    ensures var s' := AuthorizeTransfer(s, q, now, choice, tag).fabric;
      EndedFlowless(s'.transfers) <==> !Strands(s, q, now, choice)
  {
    LedgerView(s);
    StrandsMeaning(s, q, now, choice);
    DecisionsValidateExactly(s, q, now, choice);
    PermittedIsOpen(s, q, now, choice);
    var e := Evaluate(s, q, now, choice);
    ConcludePermitted(e.0, e.1, q.subject.value.transfer, now, tag);
  }

  lemma ConcludePermitted(s: Fabric, d: Decision, t: Id, now: int, tag: bv64)
    requires d.subject == Moving(t) && t in s.transfers && !TransferEnded(s.transfers[t].state)
    requires ValidateDecision(s, d).Ok? && d.Permits() && EndedFlowless(s.transfers)
    ensures EndedFlowless(Conclude(s, d, t, now, tag).fabric.transfers) <==>
            s.transfers[t].flow.IsNil() || !Unfit(s, d.treatment.traffic, s.transfers[t].payloadBytes)
  {
    OpenFailsExactly(s, d, s.transfers[t].payloadBytes, now, tag);
    assert At(t);
    var out := C.OpenFlow(s, d, s.transfers[t].payloadBytes, now, tag);
    if out.result.Success? { OpenedIsNamed(s, d, s.transfers[t].payloadBytes, now, tag); }
  }

  /** Ended transfers stay flowless after an authorization exactly when it strands nothing. */
  lemma AuthorizeEndsFlowless(s: Fabric, q: TrafficRequest, now: int, choice: Key, tag: bv64)
    requires Coherent(s) && Booted(s) && EndedFlowless(s.transfers)
    ensures EndedFlowless(AuthorizeTransfer(s, q, now, choice, tag).fabric.transfers)
            <==> !Strands(s, q, now, choice)
  {
    if q.subject.Some? && q.subject.value.Moving? && q.subject.value.transfer in s.transfers {
      var t := q.subject.value.transfer;
      var e := Evaluate(s, q, now, choice);
      if e.1.Permits() {
        AuthorizePermitted(s, q, now, choice, tag);
      } else {
        EvaluateCoheres(s, q, now, choice);
        StrandsMeaning(s, q, now, choice);
        RefuseFlowless(e.0, t, e.1.reason);
      }
    } else if q.subject.Some? && q.subject.value.Moving? {
      EvaluateRefinesFences(s, q, now, choice);
    }
  }

  lemma RefuseFlowless(s: Fabric, t: Id, reason: Reasons.Reason)
    requires Coherent(s) && t in s.transfers && EndedFlowless(s.transfers)
    ensures EndedFlowless(RefuseTransfer(s, t, reason).transfers)
  {
    ReleaseTransferClean(s, t, s.transfers[t].(state := TransferRefused, reason := reason));
    RefuseForward(s, t, reason);
    EndedFlowlessStep(s, RefuseTransfer(s, t, reason), {});
  }

  ghost predicate NeverStrands(s: Fabric, call: Call) {
    match call
    case OnTransfer(CallAuthorize(q, now, choice, _)) => !Strands(s, q, now, choice)
    case _ => true
  }

  lemma TransferCallEndsClean(s: Fabric, call: TransferCall)
    requires Coherent(s) && !call.CallAuthorize?
    ensures EndsClean(s.transfers, ActTransfer(s, call).transfers)
  {
    match call
    case CallComplete(t, verified) => CompleteEndsClean(s, t, verified);
    case CallAbandon(t, reason) =>
      if t in s.transfers {
        ReleaseTransferClean(s, t, s.transfers[t].(state := Abandoned, reason := reason));
      }
    case _ =>
  }

  lemma CompleteEndsClean(s: Fabric, t: Id, verified: nat)
    requires Coherent(s)
    ensures EndsClean(s.transfers, CompleteTransfer(s, t, verified).fabric.transfers)
  {
    if t in s.transfers {
      var r := s.transfers[t];
      ReleaseTransferClean(s, t, r.(state := TransferRefused, reason := Reasons.REJECTED_INTEGRITY_UNAVAILABLE));
      var r' := r.(verifiedBytes := verified, state := TransferCompleted, reason := Reasons.COMMITTED_COMPLETION);
      ReleaseTransferClean(s, t, r');
      assert WithState(s.(transfers := s.transfers[t := r.(verifiedBytes := verified)]), t,
                       TransferCompleted, Reasons.COMMITTED_COMPLETION)
          == s.(transfers := s.transfers[t := r']);
    }
  }

  lemma OpenEndsClean(s: Fabric, d: Decision, declared: nat, now: int, tag: bv64)
    ensures EndsClean(s.transfers, C.OpenFlow(s, d, declared, now, tag).fabric.transfers)
  {
  }

  lemma FlowCallEndsClean(s: Fabric, call: FlowCall)
    ensures EndsClean(s.transfers, ActFlow(s, call).transfers)
  {
    match call
    case CallOpen(d, declared, now, tag) => OpenEndsClean(s, d, declared, now, tag);
    case CallRelease(f) => ReleaseOneTrims(s, f);
    case _ =>
  }

  lemma ActEndedFlowless(s: Fabric, call: Call)
    requires Coherent(s) && Booted(s) && EndedFlowless(s.transfers)
    requires MintsDistinct(s, call) && RevivesNone(s, call) && NeverStrands(s, call)
    ensures EndedFlowless(Act(s, call).transfers)
  {
    ActForward(s, call);
    match call
    case OnRequest(r) =>
      EndingCallEndsClean(s, r);
      EndedFlowlessStep(s, ActRequest(s, r), Revalidates(call));
    case OnEvidence(e) => EvidenceUnmoved(s, e);
    case OnFlow(f) =>
      FlowCallEndsClean(s, f);
      EndedFlowlessStep(s, ActFlow(s, f), {});
    case OnTransfer(t) =>
      if t.CallAuthorize? {
        AuthorizeEndsFlowless(s, t.query, t.now, t.choice, t.tag);
      } else {
        TransferCallEndsClean(s, t);
        EndedFlowlessStep(s, ActTransfer(s, t), {});
      }
  }

  ghost predicate NeverStrand(s: Fabric, calls: seq<Call>)
    decreases |calls|
  {
    calls != [] ==> NeverStrands(s, calls[0]) && NeverStrand(Act(s, calls[0]), calls[1..])
  }

  /** Every opening mints an identity that is not in use, and none revives an ended transfer. */
  ghost predicate Proper(s: Fabric, calls: seq<Call>)
    decreases |calls|
  {
    calls != [] ==>
      MintsDistinct(s, calls[0]) && RevivesNone(s, calls[0]) && Proper(Act(s, calls[0]), calls[1..])
  }

  /** Over every run in which nothing revives a transfer or strands a flow, ended transfers hold none. */
  lemma {:induction false} EndedTransfersStayFlowless(s: Fabric, calls: seq<Call>)
    requires Coherent(s) && Booted(s) && EndedFlowless(s.transfers)
    requires Proper(s, calls) && NeverStrand(s, calls)
    ensures EndedFlowless(ActAll(s, calls).transfers)
    decreases |calls|
  {
    if calls == [] {
    } else {
      ActCoheres(s, calls[0]);
      ActForward(s, calls[0]);
      ActEndedFlowless(s, calls[0]);
      EndedTransfersStayFlowless(Act(s, calls[0]), calls[1..]);
    }
  }
}
