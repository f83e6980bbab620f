/** Every operation of the coordinator, and so every run, keeps it coherent. */
module CoordinatorInvariant {
  import opened Ids
  import opened Traffic
  import opened Policies
  import opened LedgerModel
  import opened LedgerRecords
  import opened Deferral
  import opened CoordinatorModel
  import C = CoordinatorModel
  import opened Evaluation
  import opened CoordinatorRuns
  import opened CoordinatorCoherence

  /** The identity this call would mint is not already open: the two id spaces do not meet here. */
  predicate MintsDistinct(s: Fabric, call: Call) {
    match call
    case OnFlow(CallOpen(d, _, _, tag)) => NextId(s, d, tag) !in s.book.flows
    case OnTransfer(CallAuthorize(_, _, _, tag)) => FlowId(s.book.nextFlow + 1, tag) !in s.book.flows
    case _ => true
  }

  // ---------------------------------------------------------------------------------------------
  // Evaluation
  // ---------------------------------------------------------------------------------------------

  lemma DecideTable(s: Fabric, q: TrafficRequest, now: int, choice: Key)
    requires TableOk(s.defers)
    ensures TableOk(Decide(s, q, now, choice).table)
  {
    var g := GateOf(s, q, now);
    if g.Passed? {
      TablesStayOk(s.defers, PartyOf(SubjectOf(q)), g.traffic, RuleOf(s.policy, g.traffic).starvationProtected, now,
                   choice);
    }
  }

  /** Whichever branch is taken, the table is noted, cleared, or both. */
  lemma TablesStayOk(t: Table, p: Party, c: TrafficClass, protected: bool, now: int, choice: Key)
    requires TableOk(t)
    ensures var noted := Note(t, p, c, protected, now, choice);
      TableOk(Clear(t, p, c)) && TableOk(noted) && TableOk(Clear(noted, p, c))
  {
    ClearOk(t, p, c);
    NoteOk(t, p, c, protected, now, choice);
    ClearOk(Note(t, p, c, protected, now, choice), p, c);
  }

  lemma CountedOk(l: Ledger, x: Subject, v: Verdict)
    requires LedgerOk(l)
    ensures LedgerOk(Counted(l, x, v)) && Counted(l, x, v).flows == l.flows
    ensures Counted(l, x, v).limits == l.limits
  {
    if x.Serving? { LedgerStep(l, OpDecision(x.request, x.attempt, v)); }
  }

  lemma EvaluateCoheres(s: Fabric, q: TrafficRequest, now: int, choice: Key)
    requires Coherent(s)
    ensures Coherent(Evaluate(s, q, now, choice).0)
  {
    var e := Evaluate(s, q, now, choice);
    View(s);
    DecideTable(s, q, now, choice);
    CountedOk(s.ledger, SubjectOf(q), e.1.verdict);
    LedgerSwapped(s, e.0.ledger, {});
    Close(e.0);
  }

  // ---------------------------------------------------------------------------------------------
  // Requests
  // ---------------------------------------------------------------------------------------------

  lemma LedgerOpCoheres(s: Fabric, op: Op)
    requires Coherent(s)
    requires op.OpRegister? || op.OpAttempt? || op.OpRevalidate? || op.OpAdvance?
    ensures Coherent(s.(ledger := Step(s.ledger, op)))
  {
    View(s);
    LedgerStep(s.ledger, op);
    StepKeepsRecords(s.ledger, op);
    SwapCoheres(s, Step(s.ledger, op));
  }

  lemma SwapCoheres(s: Fabric, l: Ledger)
    requires Coherent(s) && LedgerOk(l) && l.flows == s.ledger.flows && l.limits == s.ledger.limits
    ensures Coherent(s.(ledger := l))
  {
    View(s);
    LedgerSwapped(s, l, {});
    Close(s.(ledger := l));
  }

  lemma TrimmedBounded(s: Fabric, s': Fabric, victims: set<FlowId>)
    requires Bounded(s) && Trimmed(s, s', victims)
    ensures Bounded(s')
  {
    assert |s'.transfers| == |s'.transfers.Keys| == |s.transfers|;
  }

  /** A request that the ledger has just dealt with, and whose flows the coordinator now takes. */
  lemma EndingCoheres(s: Fabric, s1: Fabric, id: Id)
    requires Coherent(s) && !id.IsNil() && LedgerOk(s1.ledger)
    requires s1 == s.(ledger := s1.ledger, sequence := s1.sequence) && s1.ledger.limits == s.ledger.limits
    requires DropsOnly(s.ledger.flows, s1.ledger.flows, id)
    ensures Coherent(ReleaseRequest(s1, id)) && Flowless(ReleaseRequest(s1, id), id)
    ensures Trimmed(s1.(transfers := AbandonOwned(s1, id)), ReleaseRequest(s1, id),
                    ServingVictims(s1, id) + TransferVictims(s1, id))
  {
    View(s);
    DroppedSettles(s, s1, id);
    ReleaseRequestBounded(s1, id);
    Close(ReleaseRequest(s1, id));
  }

  lemma DroppedSettles(s: Fabric, s1: Fabric, id: Id)
    requires Settled(s) && LedgerOk(s1.ledger) && s1.ledger.limits == s.ledger.limits
    requires s1 == s.(ledger := s1.ledger, sequence := s1.sequence)
    requires DropsOnly(s.ledger.flows, s1.ledger.flows, id)
    ensures Settling(s1, {id}) && Bounded(s1) && TableOk(s1.defers)
  {
    LedgerDropped(s, s1.ledger, id);
  }

  lemma ReleaseRequestBounded(s: Fabric, id: Id)
    requires Settling(s, {id}) && Bounded(s) && TableOk(s.defers) && !id.IsNil()
    ensures Settled(ReleaseRequest(s, id)) && Flowless(ReleaseRequest(s, id), id)
    ensures Trimmed(s.(transfers := AbandonOwned(s, id)), ReleaseRequest(s, id),
                    ServingVictims(s, id) + TransferVictims(s, id))
  {
    ReleaseRequestSettles(s, id);
    AbandonOwnedBounded(s, id);
    TrimmedBounded(s.(transfers := AbandonOwned(s, id)), ReleaseRequest(s, id),
                   ServingVictims(s, id) + TransferVictims(s, id));
  }

  lemma AbandonOwnedBounded(s: Fabric, id: Id)
    requires Bounded(s)
    ensures Bounded(s.(transfers := AbandonOwned(s, id)))
  {
    assert AbandonOwned(s, id).Keys == s.transfers.Keys;
    assert |AbandonOwned(s, id)| == |AbandonOwned(s, id).Keys| == |s.transfers|;
  }

  lemma LedgerView(s: Fabric)
    requires Coherent(s)
    ensures LedgerOk(s.ledger)
  {
    View(s);
  }

  lemma KnownIsNotNil(l: Ledger, id: Id)
    requires Structured(l) && id in l.requests
    ensures !id.IsNil()
  {
    assert At(id);
  }

  lemma CancelLedger(l: Ledger, id: Id, reason: Reasons.Reason, sequence: Generation, now: int)
    requires LedgerOk(l)
    ensures var out := LedgerModel.CancelRequest(l, id, reason, sequence, now);
      && LedgerOk(out.ledger) && out.ledger.limits == l.limits && DropsOnly(l.flows, out.ledger.flows, id)
      && (out.result.Success? ==> !id.IsNil())
      && (out.result.Failure? ==> out.ledger == l)
  {
    var op := OpCancel(id, reason, sequence, now);
    LedgerStep(l, op);
    StepKeepsRecords(l, op);
    CancelDrops(l, op);
    if id in l.requests { KnownIsNotNil(l, id); }
  }

  lemma CancelCoheres(s: Fabric, id: Id, reason: Reasons.Reason, now: int)
    requires Coherent(s)
    ensures Coherent(C.CancelRequest(s, id, reason, now).fabric)
  {
    LedgerView(s);
    CancelLedger(s.ledger, id, reason, s.sequence + 1, now);
    var out := LedgerModel.CancelRequest(s.ledger, id, reason, s.sequence + 1, now);
    var s1 := s.(sequence := s.sequence + 1, ledger := out.ledger);
    if out.result.Success? { EndingCoheres(s, s1, id); } else { Unmoved(s, s1); }
  }

  lemma FailCoheres(s: Fabric, id: Id, a: Id, reason: Reasons.Reason, now: int)
    requires Coherent(s)
    ensures Coherent(C.FailAttempt(s, id, a, reason, now).fabric)
  {
    var op := OpFail(id, a, reason, now);
    LedgerView(s);
    LedgerStep(s.ledger, op);
    StepKeepsRecords(s.ledger, op);
    FailDrops(s.ledger, op);
    if LedgerModel.FailAttempt(s.ledger, id, a, reason, now).result.Success? {
      KnownIsNotNil(s.ledger, id);
      EndingCoheres(s, s.(ledger := Step(s.ledger, op)), id);
    }
  }

  lemma PublishCoheres(s: Fabric, p: Publication, now: int)
    requires Coherent(s)
    ensures Coherent(C.PublishCompletion(s, p, now).fabric)
  {
    var op := OpPublish(p, now);
    LedgerView(s);
    LedgerStep(s.ledger, op);
    StepKeepsRecords(s.ledger, op);
    PublishDrops(s.ledger, op);
    var out := LedgerModel.PublishCompletion(s.ledger, p, now);
    if out.result.Success? && out.result.value.disposition.Committed? {
      EndingCoheres(s, s.(ledger := Step(s.ledger, op)), p.request);
    } else {
      SwapCoheres(s, out.ledger);
    }
  }

  lemma ReplaceCoheres(s: Fabric, id: Id, a: Id, b: Id, h: Word64, now: int)
    requires Coherent(s)
    ensures Coherent(ReplaceAttempt(s, id, a, b, h, now).fabric)
  {
    var model := if h == 0 then Success(0) else RequireGeneration(s.models, h);
    var out := SupersedeAttempt(s.ledger, id, a, b, now);
    if model.Success? && out.result.Success? {
      SupersedeCoheres(s, id, a, b, now);
      RemodelCoheres(ReleaseRequest(s.(ledger := out.ledger), id), id, a, b, h, model.value);
    }
  }

  lemma SupersedeCoheres(s: Fabric, id: Id, a: Id, b: Id, now: int)
    requires Coherent(s) && SupersedeAttempt(s.ledger, id, a, b, now).result.Success?
    ensures Coherent(ReleaseRequest(s.(ledger := SupersedeAttempt(s.ledger, id, a, b, now).ledger), id))
  {
    var op := OpSupersede(id, a, b, now);
    LedgerView(s);
    LedgerStep(s.ledger, op);
    StepKeepsRecords(s.ledger, op);
    KnownIsNotNil(s.ledger, id);
    EndingCoheres(s, s.(ledger := Step(s.ledger, op)), id);
  }

  lemma RemodelCoheres(s: Fabric, id: Id, a: Id, b: Id, h: Word64, g: Generation)
    requires Coherent(s)
    ensures Coherent(s.(ledger := SetAttemptModel(s.ledger, id, b, h, g).ledger, routes := s.routes - {a}))
  {
    var op := OpSetModel(id, b, h, g);
    LedgerView(s);
    LedgerStep(s.ledger, op);
    StepKeepsRecords(s.ledger, op);
    SwapCoheres(s, Step(s.ledger, op));
    Unmoved(s.(ledger := Step(s.ledger, op)),
            s.(ledger := SetAttemptModel(s.ledger, id, b, h, g).ledger, routes := s.routes - {a}));
  }

  // ---------------------------------------------------------------------------------------------
  // Flows and transfers
  // ---------------------------------------------------------------------------------------------

  lemma ReleaseFlowCoheres(s: Fabric, f: FlowId)
    requires Coherent(s)
    ensures Coherent(C.ReleaseFlow(s, f).fabric)
  {
    View(s);
    ReleaseOneSettles(s, f, {});
    ReleaseOneTrims(s, f);
    TrimmedBounded(s, ReleaseOne(s, f), {f});
    Close(ReleaseOne(s, f));
  }

  lemma ObservedBook(b: Book, transfers: Transfers, entries: map<FlowId, LedgerFlow>, f: FlowId, n: nat)
    requires BookOk(b, transfers, entries, {}) && f in b.flows
    ensures var b' := b.(flows := b.flows[f := b.flows[f].(observedBytes := n)]);
      BookOk(b', transfers, if f in entries then entries[f := entries[f].(observedBytes := n)] else entries, {})
  {
    BulkSumSame(b.flows, f, b.flows[f].(observedBytes := n));
  }

  lemma ObservedCoheres(s: Fabric, b: Book, l: Ledger)
    requires Settled(s) && BookOk(b, s.transfers, l.flows, {}) && LedgerOk(l) && l.limits == s.ledger.limits
    requires Sized(b.flows, s.config.maxPayload)
    ensures Coherent(s.(book := b, ledger := l))
  {
    Close(s.(book := b, ledger := l));
  }

  lemma LedgerBytes(l: Ledger, f: FlowId, bytes: nat, inbound: bool)
    requires LedgerOk(l)
    ensures var l' := LedgerModel.RecordFlowBytes(l, f, bytes, inbound).ledger;
      && LedgerOk(l') && l'.limits == l.limits
      && l'.flows == if f in l.flows && l.flows[f].observedBytes + bytes < TWO_64
                     then l.flows[f := l.flows[f].(observedBytes := l.flows[f].observedBytes + bytes)]
                     else l.flows
  {
    LedgerStep(l, OpBytes(f, bytes, inbound));
    StepKeepsRecords(l, OpBytes(f, bytes, inbound));
  }

  lemma BytesCoheres(s: Fabric, f: FlowId, bytes: nat, inbound: bool)
    requires Coherent(s)
    ensures Coherent(C.RecordFlowBytes(s, f, bytes, inbound).fabric)
  {
    if f in s.book.flows && s.book.flows[f].observedBytes + bytes < TWO_64 {
      if s.book.flows[f].owner.OfRequest? {
        ServingBytesCoheres(s, f, bytes, inbound);
      } else {
        MovingBytesCoheres(s, f, s.book.flows[f].observedBytes + bytes);
      }
    }
  }

  function Observed(b: Book, f: FlowId, n: nat): Book
    requires f in b.flows
  {
    b.(flows := b.flows[f := b.flows[f].(observedBytes := n)])
  }

  lemma MovingBytesCoheres(s: Fabric, f: FlowId, n: nat)
    requires Coherent(s) && f in s.book.flows && s.book.flows[f].owner.OfTransfer?
    ensures Coherent(s.(book := Observed(s.book, f, n)))
  {
    View(s);
    assert At(f);
    ObservedBook(s.book, s.transfers, s.ledger.flows, f, n);
    ObservedCoheres(s, Observed(s.book, f, n), s.ledger);
  }

  lemma ServingBytesCoheres(s: Fabric, f: FlowId, bytes: nat, inbound: bool)
    requires Coherent(s) && f in s.book.flows && s.book.flows[f].owner.OfRequest?
    requires s.book.flows[f].observedBytes + bytes < TWO_64
    ensures Coherent(s.(book := Observed(s.book, f, s.book.flows[f].observedBytes + bytes),
                        ledger := LedgerModel.RecordFlowBytes(s.ledger, f, bytes, inbound).ledger))
  {
    View(s);
    LedgerBytes(s.ledger, f, bytes, inbound);
    assert At(f);
    var n := s.book.flows[f].observedBytes + bytes;
    ObservedBook(s.book, s.transfers, s.ledger.flows, f, n);
    ObservedCoheres(s, Observed(s.book, f, n),
                    LedgerModel.RecordFlowBytes(s.ledger, f, bytes, inbound).ledger);
  }

  /** Changing what is recorded of a transfer, but not its flow or its owner. */
  lemma TransferRewritten(s: Fabric, t: Id, r: Transfer)
    requires Coherent(s) && t in s.transfers
    requires r.flow == s.transfers[t].flow && r.request == s.transfers[t].request
    ensures Coherent(s.(transfers := s.transfers[t := r]))
  {
    View(s);
    assert s.transfers[t := r].Keys == s.transfers.Keys;
    assert |s.transfers[t := r]| == |s.transfers|;
    assert Linked(s.book.flows, s.transfers[t := r]);
    Close(s.(transfers := s.transfers[t := r]));
  }

  lemma ReleaseTransferCoheres(s: Fabric, t: Id)
    requires Coherent(s)
    ensures Coherent(ReleaseTransfer(s, t))
  {
    if !t.IsNil() {
      var victims := set p | p in s.book.byTransfer && p.0 == t :: p.1;
      View(s);
      ReleaseAllSettles(s, victims, {});
      TrimmedBounded(s, ReleaseTransfer(s, t), victims);
      Close(ReleaseTransfer(s, t));
    }
  }

  lemma RegisterTransferCoheres(s: Fabric, r: TransferSpec)
    requires Coherent(s)
    ensures Coherent(RegisterTransfer(s, r).fabric)
  {
    if RegistrationCheck(s, r).Ok? {
      var s' := RegisterTransfer(s, r).fabric;
      NewTransferCoheres(s, r.id, s'.transfers[r.id]);
    }
  }

  function WithTransfer(s: Fabric, id: Id, t: Transfer): Fabric {
    s.(transfers := s.transfers[id := t],
       owned := if t.request.IsNil() then s.owned else s.owned + {(t.request, id)})
  }

  lemma NewTransferCoheres(s: Fabric, id: Id, t: Transfer)
    requires Coherent(s) && id !in s.transfers && !id.IsNil() && t.flow.IsNil()
    requires |s.transfers| < s.config.maxTransfers
    ensures Coherent(WithTransfer(s, id, t))
  {
    View(s);
    NewTransferBook(s.book, s.transfers, s.ledger.flows, id, t);
    NewTransferOwned(s.owned, s.transfers, id, t);
    Close(WithTransfer(s, id, t));
  }

  lemma NewTransferBook(b: Book, transfers: Transfers, entries: map<FlowId, LedgerFlow>, id: Id, t: Transfer)
    requires BookOk(b, transfers, entries, {}) && id !in transfers && !id.IsNil() && t.flow.IsNil()
    ensures BookOk(b, transfers[id := t], entries, {}) && |transfers[id := t]| == |transfers| + 1
  {
    assert Linked(b.flows, transfers[id := t]);
  }

  lemma NewTransferOwned(owned: set<(Id, Id)>, transfers: Transfers, id: Id, t: Transfer)
    requires OwnedExact(owned, transfers) && id !in transfers
    ensures OwnedExact(if t.request.IsNil() then owned else owned + {(t.request, id)}, transfers[id := t])
  {
  }

  lemma RefuseCoheres(s: Fabric, t: Id, reason: Reasons.Reason)
    requires Coherent(s) && t in s.transfers
    ensures Coherent(RefuseTransfer(s, t, reason))
  {
    TransferRewritten(s, t, s.transfers[t].(state := TransferRefused, reason := reason));
    ReleaseTransferCoheres(WithState(s, t, TransferRefused, reason), t);
    Unmoved(ReleaseTransfer(WithState(s, t, TransferRefused, reason), t), RefuseTransfer(s, t, reason));
  }

  /** A transfer's flow, once opened or found open, is the one its record names. */
  lemma OpenedIsNamed(s: Fabric, d: Decision, declared: nat, now: int, tag: bv64)
    requires d.subject.Moving? && C.OpenFlow(s, d, declared, now, tag).result.Success?
    ensures var out := C.OpenFlow(s, d, declared, now, tag);
      d.subject.transfer in out.fabric.transfers
      && out.fabric.transfers[d.subject.transfer].flow == out.result.value
  {
  }

  lemma AuthoriseCoheres(s: Fabric, t: Id, f: FlowId, a: Authorization)
    requires Coherent(s) && t in s.transfers && s.transfers[t].flow == f
    ensures Coherent(Authorise(s, t, f, a).fabric)
  {
    var s1 := s.(transfers := s.transfers[t := s.transfers[t].(state := Authorized, flow := f)]);
    TransferRewritten(s, t, s1.transfers[t]);
    Unmoved(s1, Authorise(s, t, f, a).fabric);
  }

  lemma AuthorizeCoheres(s: Fabric, q: TrafficRequest, now: int, choice: Key, tag: bv64)
    requires Coherent(s) && FlowId(s.book.nextFlow + 1, tag) !in s.book.flows
    ensures Coherent(AuthorizeTransfer(s, q, now, choice, tag).fabric)
  {
    if q.subject.Some? && q.subject.value.Moving? {
      EvaluateCoheres(s, q, now, choice);
      var e := Evaluate(s, q, now, choice);
      ConcludeCoheres(e.0, e.1, q.subject.value.transfer, now, tag);
    }
  }

  lemma ConcludeCoheres(s: Fabric, d: Decision, t: Id, now: int, tag: bv64)
    requires Coherent(s) && FlowId(s.book.nextFlow + 1, tag) !in s.book.flows && d.subject == Moving(t)
    ensures Coherent(Conclude(s, d, t, now, tag).fabric)
  {
    if t !in s.transfers {
      Unmoved(s, s.(refused := s.refused + 1));
    } else if !d.Permits() {
      RefuseCoheres(s, t, d.reason);
    } else {
      OpenedCoheres(s, d, t, now, tag, AuthorizationFor(t, d));
    }
  }

  lemma OpenedCoheres(s: Fabric, d: Decision, t: Id, now: int, tag: bv64, a: Authorization)
    requires Coherent(s) && FlowId(s.book.nextFlow + 1, tag) !in s.book.flows
    requires d.subject == Moving(t) && t in s.transfers
    ensures var out := C.OpenFlow(s, d, s.transfers[t].payloadBytes, now, tag);
      if out.result.Failure?
      then Coherent(WithState(s, t, TransferRefused, Reasons.REJECTED_FLOW_LIMIT).(refused := s.refused + 1))
      else Coherent(Authorise(out.fabric, t, out.result.value, a).fabric)
  {
    var out := C.OpenFlow(s, d, s.transfers[t].payloadBytes, now, tag);
    if out.result.Failure? {
      var s1 := WithState(s, t, TransferRefused, Reasons.REJECTED_FLOW_LIMIT);
      TransferRewritten(s, t, s1.transfers[t]);
      Unmoved(s1, s1.(refused := s.refused + 1));
    } else {
      OpenFlowCoheres(s, d, s.transfers[t].payloadBytes, now, tag);
      OpenedIsNamed(s, d, s.transfers[t].payloadBytes, now, tag);
      AuthoriseCoheres(out.fabric, t, out.result.value, a);
    }
  }

  lemma CompleteCoheres(s: Fabric, t: Id, verified: nat)
    requires Coherent(s)
    ensures Coherent(CompleteTransfer(s, t, verified).fabric)
  {
    if t in s.transfers {
      RefuseCoheres(s, t, Reasons.REJECTED_INTEGRITY_UNAVAILABLE);
      var r := s.transfers[t].(verifiedBytes := verified);
      TransferRewritten(s, t, r);
      var done := s.(transfers := s.transfers[t := r]);
      TransferRewritten(done, t, r.(state := TransferCompleted, reason := Reasons.COMMITTED_COMPLETION));
      var ended := WithState(done, t, TransferCompleted, Reasons.COMMITTED_COMPLETION);
      ReleaseTransferCoheres(ended, t);
      Unmoved(ReleaseTransfer(ended, t), ReleaseTransfer(ended, t).(finished := s.finished + 1));
    }
  }

  lemma AbandonCoheres(s: Fabric, t: Id, reason: Reasons.Reason)
    requires Coherent(s)
    ensures Coherent(AbandonTransfer(s, t, reason).fabric)
  {
    if t in s.transfers {
      TransferRewritten(s, t, s.transfers[t].(state := Abandoned, reason := reason));
      var ended := WithState(s, t, Abandoned, reason);
      ReleaseTransferCoheres(ended, t);
      Unmoved(ReleaseTransfer(ended, t), ReleaseTransfer(ended, t).(refused := s.refused + 1));
    }
  }

  lemma StartCoheres(s: Fabric, t: Id, a: Authorization)
    requires Coherent(s)
    ensures Coherent(StartTransfer(s, t, a).fabric)
  {
    if t in s.transfers { TransferRewritten(s, t, s.transfers[t].(state := InProgress)); }
  }

  // ---------------------------------------------------------------------------------------------
  // Steps and runs
  // ---------------------------------------------------------------------------------------------

  lemma RegisterCoheres(s: Fabric, id: Id, now: int)
    requires Coherent(s)
    ensures Coherent(C.RegisterRequest(s, id, now).fabric)
  {
    LedgerOpCoheres(s, OpRegister(id, now));
  }

  lemma RevalidateCoheres(s: Fabric, id: Id, a: Id, now: int)
    requires Coherent(s)
    ensures Coherent(C.RevalidateRequest(s, id, a, now).fabric)
  {
    LedgerOpCoheres(s, OpRevalidate(id, a, now));
  }

  lemma AdvanceCoheres(s: Fabric, id: Id, a: Id, target: Stage, now: int)
    requires Coherent(s)
    ensures Coherent(C.AdvanceStage(s, id, a, target, now).fabric)
  {
    LedgerOpCoheres(s, OpAdvance(id, a, target, now));
  }

  lemma AttemptCoheres(s: Fabric, id: Id, a: Id, h: Word64, now: int)
    requires Coherent(s)
    ensures Coherent(C.RegisterAttempt(s, id, a, h, now).fabric)
  {
    var model := if h == 0 then Success(0) else RequireGeneration(s.models, h);
    if model.Success? { LedgerOpCoheres(s, OpAttempt(id, a, h, model.value, 0, now)); }
  }

  lemma RequestCoheres(s: Fabric, call: RequestCall)
    requires Coherent(s)
    ensures Coherent(ActRequest(s, call))
  {
    match call
    case CallRegister(id, now) => RegisterCoheres(s, id, now);
    case CallAttempt(id, a, h, now) => AttemptCoheres(s, id, a, h, now);
    case CallRevalidate(id, a, now) => RevalidateCoheres(s, id, a, now);
    case CallAdvance(id, a, target, now) => AdvanceCoheres(s, id, a, target, now);
    case CallCancel(id, reason, now) => CancelCoheres(s, id, reason, now);
    case CallFail(id, a, reason, now) => FailCoheres(s, id, a, reason, now);
    case CallReplace(id, a, b, h, now) => ReplaceCoheres(s, id, a, b, h, now);
    case CallPublish(p, now) => PublishCoheres(s, p, now);
  }

  /** Nothing but evidence and policy differs. */
  ghost predicate EvidenceOnly(s: Fabric, s': Fabric) {
    && s'.book == s.book && s'.transfers == s.transfers && s'.owned == s.owned
    && s'.ledger == s.ledger && s'.config == s.config && s'.defers == s.defers
    && s'.epoch == s.epoch && s'.incarnation == s.incarnation && s'.sequence == s.sequence
    && s'.bootCount == s.bootCount
  }

  lemma ContractEvidence(s: Fabric, id: Id, tail: Word64, deadline: nat, share: nat)
    ensures EvidenceOnly(s, RegisterSlo(s, id, tail, deadline, share).fabric)
  {
  }

  lemma RouteEvidence(s: Fabric, id: Id, a: Id)
    ensures EvidenceOnly(s, IssueRoute(s, id, a).fabric)
  {
  }

  lemma ModelEvidence(s: Fabric, h: Word64, expected: Option<Generation>)
    ensures EvidenceOnly(s, SetModelGeneration(s, h, expected).fabric)
  {
  }

  lemma StateEvidence(s: Fabric, h: Word64, expected: Option<Generation>)
    ensures EvidenceOnly(s, AdvanceStateGeneration(s, h, expected).fabric)
  {
  }

  lemma ConfirmationEvidence(s: Fabric, h: Word64)
    ensures EvidenceOnly(s, RevalidateModel(s, h).fabric) && EvidenceOnly(s, RevalidateState(s, h).fabric)
  {
  }

  lemma PolicyEvidence(s: Fabric, p: Policy)
    ensures EvidenceOnly(s, ApplyPolicy(s, p).fabric)
  {
  }

  lemma TopologyEvidence(s: Fabric, t: Topology, now: int)
    ensures EvidenceOnly(s, PublishTopology(s, t, now).fabric)
  {
  }

  lemma EvidenceUnmoved(s: Fabric, call: EvidenceCall)
    ensures EvidenceOnly(s, ActEvidence(s, call))
  {
    match call
    case CallSlo(id, tail, deadline, share) => ContractEvidence(s, id, tail, deadline, share);
    case CallRoute(id, a) => RouteEvidence(s, id, a);
    case CallModel(h, expected) => ModelEvidence(s, h, expected);
    case CallState(h, expected) => StateEvidence(s, h, expected);
    case CallModelConfirm(h) => ConfirmationEvidence(s, h);
    case CallStateConfirm(h) => ConfirmationEvidence(s, h);
    case CallPolicy(p) => PolicyEvidence(s, p);
    case CallTopology(t, now) => TopologyEvidence(s, t, now);
  }

  lemma FlowCoheres(s: Fabric, call: FlowCall)
    requires Coherent(s) && MintsDistinct(s, OnFlow(call))
    ensures Coherent(ActFlow(s, call))
  {
    match call
    case CallEvaluate(q, now, choice) => EvaluateCoheres(s, q, now, choice);
    case CallOpen(d, declared, now, tag) => OpenFlowCoheres(s, d, declared, now, tag);
    case CallRelease(f) => ReleaseFlowCoheres(s, f);
    case CallBytes(f, bytes, inbound) => BytesCoheres(s, f, bytes, inbound);
  }

  lemma TransferCoheres(s: Fabric, call: TransferCall)
    requires Coherent(s) && MintsDistinct(s, OnTransfer(call))
    ensures Coherent(ActTransfer(s, call))
  {
    match call
    case CallTransfer(r) => RegisterTransferCoheres(s, r);
    case CallAuthorize(q, now, choice, tag) => AuthorizeCoheres(s, q, now, choice, tag);
    case CallStart(t, a) => StartCoheres(s, t, a);
    case CallComplete(t, verified) => CompleteCoheres(s, t, verified);
    case CallAbandon(t, reason) => AbandonCoheres(s, t, reason);
  }

  /** Every public operation keeps the coordinator coherent. */
  lemma ActCoheres(s: Fabric, call: Call)
    requires Coherent(s) && MintsDistinct(s, call)
    ensures Coherent(Act(s, call))
  {
    match call
    case OnRequest(r) => RequestCoheres(s, r);
    case OnEvidence(e) =>
      EvidenceUnmoved(s, e);
      Unmoved(s, ActEvidence(s, e));
    case OnFlow(f) => FlowCoheres(s, f);
    case OnTransfer(t) => TransferCoheres(s, t);
  }

  ghost predicate MintsDistinctly(s: Fabric, calls: seq<Call>)
    decreases |calls|
  {
    calls != [] ==> MintsDistinct(s, calls[0]) && MintsDistinctly(Act(s, calls[0]), calls[1..])
  }

  /** Over every run, the coordinator stays coherent. */
  lemma {:induction false} RunsCohere(s: Fabric, calls: seq<Call>)
    requires Coherent(s) && MintsDistinctly(s, calls)
    ensures Coherent(ActAll(s, calls))
    decreases |calls|
  {
    if calls == [] {
    } else {
      ActCoheres(s, calls[0]);
      RunsCohere(Act(s, calls[0]), calls[1..]);
    }
  }
}
