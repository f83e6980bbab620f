/**
 * The directions in which one incarnation of the coordinator moves: records and transfers only go
 * forward, generations only grow, and ended things stay ended.
 */
module CoordinatorEvolution {
  import opened Ids
  import opened Policies
  import opened LedgerModel
  import opened LedgerRecords
  import opened LedgerCurrency
  import opened Deferral
  import opened CoordinatorModel
  import C = CoordinatorModel
  import opened Evaluation
  import opened EvaluationProofs
  import opened CoordinatorRuns
  import opened CoordinatorCoherence
  import opened CoordinatorInvariant

  /** What completion promises: all the payload when it must be verified, and never more than that. */
  predicate Delivered(t: Transfer) {
    t.verifiedBytes <= t.payloadBytes && (t.integrity.ChecksumAndVerify? ==> t.verifiedBytes == t.payloadBytes)
  }

  /** A transfer keeps its identity; once ended it stays ended, with its bytes, and gains no flow. */
  ghost predicate TransferMoves(a: Transfer, b: Transfer) {
    && b == a.(state := b.state, reason := b.reason, flow := b.flow, verifiedBytes := b.verifiedBytes)
    && (TransferEnded(a.state) ==> TransferEnded(b.state) && (b.flow == a.flow || b.flow.IsNil()))
    && (|| (b.verifiedBytes == a.verifiedBytes && (b.state.TransferCompleted? ==> a.state.TransferCompleted?))
        || (!TransferEnded(a.state) && Delivered(b)))
  }

  predicate OwnerOpen(requests: map<Id, Request>, t: Transfer) {
    t.request !in requests || !requests[t.request].lifecycle.Cancelled?
  }

  /** Transfers move forward; a new one starts open, without a flow, and not for a cancelled request. */
  ghost predicate TransfersMove(before: Transfers, after: Transfers, requests: map<Id, Request>) {
    forall t {:trigger At(t)} :: At(t) ==>
      && (t in before ==> t in after && TransferMoves(before[t], after[t]))
      && (t in after && t !in before ==>
            after[t].state.TransferRegistered? && after[t].flow.IsNil() && after[t].verifiedBytes == 0
            && (!after[t].request.IsNil() ==> OwnerOpen(requests, after[t])))
  }

  ghost predicate RegistryGrows(m: map<Word64, Registration>, m': map<Word64, Registration>) {
    forall h: Word64 {:trigger At<Word64>(h)} :: At<Word64>(h) && h in m
      ==> h in m' && m[h].generation <= m'[h].generation
  }

  ghost predicate Forward(s: Fabric, s': Fabric, named: set<Id>) {
    && RecordsMove(s.ledger.requests, s'.ledger.requests, named)
    && TransfersMove(s.transfers, s'.transfers, s.ledger.requests)
    && RegistryGrows(s.models, s'.models) && RegistryGrows(s.states, s'.states)
    && s'.config == s.config && s'.epoch == s.epoch && s'.incarnation == s.incarnation
    && s.sequence <= s'.sequence
    && BulkMoves(s, s')
  }

  /** The bulk count falls, or rises no further than a ceiling that is set. */
  predicate BulkMoves(s: Fabric, s': Fabric) {
    s'.book.bulk <= s.book.bulk || (s.policy.bulkCap > 0 ==> s'.book.bulk <= s.policy.bulkCap)
  }

  /** The request a call revalidates, if it does. */
  function Revalidates(call: Call): set<Id> {
    match call
    case OnRequest(CallRevalidate(id, _, _)) => {id}
    case _ => {}
  }

  /** A decision without a subject kind that names an ended transfer holding no flow would give it one. */
  predicate Revives(s: Fabric, d: Decision) {
    && d.subject.Unkinded? && d.subject.transfer in s.transfers
    && TransferEnded(s.transfers[d.subject.transfer].state) && s.transfers[d.subject.transfer].flow.IsNil()
  }

  predicate RevivesNone(s: Fabric, call: Call) {
    match call
    case OnFlow(CallOpen(d, _, _, _)) => !Revives(s, d)
    case _ => true
  }

  // ---------------------------------------------------------------------------------------------
  // Pieces
  // ---------------------------------------------------------------------------------------------

  lemma SameRecordsMove(before: map<Id, Request>, after: map<Id, Request>)
    requires SameRecords(before, after)
    ensures RecordsMove(before, after, {})
  {
    forall id | At(id) && id in before && id in after
      ensures Moves(before[id], after[id])
    {
      SteadyByCurrent(before[id], after[id]);
    }
  }

  lemma RecordsStand(requests: map<Id, Request>)
    ensures RecordsMove(requests, requests, {})
  {
    SameRecordsMove(requests, requests);
  }

  /** One ledger step, and then only flow counts. */
  lemma RecordsMoveOn(a: map<Id, Request>, b: map<Id, Request>, c: map<Id, Request>)
    requires RecordsMove(a, b, {}) && RecordsMove(b, c, {}) && c.Keys <= b.Keys
    ensures RecordsMove(a, c, {})
  {
    forall id | At(id) && id in a && id in c
      ensures Moves(a[id], c[id])
    {
      MovesTransitive(a[id], b[id], c[id]);
    }
  }

  lemma TransfersMoveOn(a: Transfers, b: Transfers, c: Transfers, requests: map<Id, Request>)
    requires TransfersMove(a, b, requests) && b.Keys == a.Keys && SameTransfers(b, c)
    ensures TransfersMove(a, c, requests)
  {
  }

  lemma AbandonMoves(s: Fabric, id: Id, requests: map<Id, Request>)
    ensures TransfersMove(s.transfers, AbandonOwned(s, id), requests)
    ensures AbandonOwned(s, id).Keys == s.transfers.Keys
  {
  }

  lemma OneMoves(transfers: Transfers, t: Id, r: Transfer, requests: map<Id, Request>)
    requires t in transfers && TransferMoves(transfers[t], r)
    ensures TransfersMove(transfers, transfers[t := r], requests)
    ensures transfers[t := r].Keys == transfers.Keys
  {
  }

  // ---------------------------------------------------------------------------------------------
  // Requests
  // ---------------------------------------------------------------------------------------------

  lemma EndingForward(s: Fabric, s1: Fabric, id: Id)
    requires Coherent(s) && !id.IsNil() && LedgerOk(s1.ledger)
    requires s1 == s.(ledger := s1.ledger, sequence := s1.sequence) && s1.ledger.limits == s.ledger.limits
    requires s.sequence <= s1.sequence
    requires DropsOnly(s.ledger.flows, s1.ledger.flows, id)
    requires RecordsMove(s.ledger.requests, s1.ledger.requests, {})
    ensures Forward(s, ReleaseRequest(s1, id), {})
    ensures ReleaseRequest(s1, id).ledger.requests.Keys == s1.ledger.requests.Keys
  {
    EndingCoheres(s, s1, id);
    var s' := ReleaseRequest(s1, id);
    SameRecordsMove(s1.ledger.requests, s'.ledger.requests);
    RecordsMoveOn(s.ledger.requests, s1.ledger.requests, s'.ledger.requests);
    AbandonMoves(s1, id, s.ledger.requests);
    TransfersMoveOn(s.transfers, AbandonOwned(s1, id), s'.transfers, s.ledger.requests);
  }

  lemma LedgerForward(s: Fabric, s': Fabric, named: set<Id>)
    requires s' == s.(ledger := s'.ledger, sequence := s'.sequence, defers := s'.defers)
    requires s.sequence <= s'.sequence
    requires RecordsMove(s.ledger.requests, s'.ledger.requests, named)
    ensures Forward(s, s', named)
  {
  }

  lemma PlainForward(s: Fabric, op: Op)
    requires Coherent(s)
    requires op.OpRegister? || op.OpAttempt? || op.OpRevalidate? || op.OpAdvance?
    ensures Forward(s, s.(ledger := Step(s.ledger, op)), Named(op))
  {
    LedgerView(s);
    StepMoves(s.ledger, op);
    LedgerForward(s, s.(ledger := Step(s.ledger, op)), Named(op));
  }

  lemma StandForward(s: Fabric)
    ensures Forward(s, s, {})
  {
    RecordsStand(s.ledger.requests);
  }

  lemma AttemptForward(s: Fabric, id: Id, a: Id, h: Word64, now: int)
    requires Coherent(s)
    ensures Forward(s, C.RegisterAttempt(s, id, a, h, now).fabric, {})
  {
    var model := if h == 0 then Success(0) else RequireGeneration(s.models, h);
    StandForward(s);
    if model.Success? { PlainForward(s, OpAttempt(id, a, h, model.value, 0, now)); }
  }

  lemma CancelMoves(l: Ledger, id: Id, reason: Reasons.Reason, sequence: Generation, now: int)
    requires Structured(l)
    ensures RecordsMove(l.requests, LedgerModel.CancelRequest(l, id, reason, sequence, now).ledger.requests, {})
  {
    StepMoves(l, OpCancel(id, reason, sequence, now));
  }

  lemma CancelForward(s: Fabric, id: Id, reason: Reasons.Reason, now: int)
    requires Coherent(s)
    ensures Forward(s, C.CancelRequest(s, id, reason, now).fabric, {})
  {
    LedgerView(s);
    CancelLedger(s.ledger, id, reason, s.sequence + 1, now);
    CancelMoves(s.ledger, id, reason, s.sequence + 1, now);
    var out := LedgerModel.CancelRequest(s.ledger, id, reason, s.sequence + 1, now);
    var s1 := s.(sequence := s.sequence + 1, ledger := out.ledger);
    EndedForward(s, s1, id, out.result.Success?);
  }

  lemma EndedForward(s: Fabric, s1: Fabric, id: Id, ended: bool)
    requires Coherent(s) && LedgerOk(s1.ledger) && (ended ==> !id.IsNil())
    requires s1 == s.(ledger := s1.ledger, sequence := s1.sequence) && s1.ledger.limits == s.ledger.limits
    requires s.sequence <= s1.sequence
    requires DropsOnly(s.ledger.flows, s1.ledger.flows, id)
    requires RecordsMove(s.ledger.requests, s1.ledger.requests, {})
    ensures Forward(s, if ended then ReleaseRequest(s1, id) else s1, {})
  {
    if ended { EndingForward(s, s1, id); } else { LedgerForward(s, s1, {}); }
  }

  lemma FailForward(s: Fabric, id: Id, a: Id, reason: Reasons.Reason, now: int)
    requires Coherent(s)
    ensures Forward(s, C.FailAttempt(s, id, a, reason, now).fabric, {})
  {
    LedgerView(s);
    var op := OpFail(id, a, reason, now);
    StandForward(s);
    StepMoves(s.ledger, op);
    LedgerStep(s.ledger, op);
    StepKeepsRecords(s.ledger, op);
    FailDrops(s.ledger, op);
    if LedgerModel.FailAttempt(s.ledger, id, a, reason, now).result.Success? {
      KnownIsNotNil(s.ledger, id);
      EndingForward(s, s.(ledger := Step(s.ledger, op)), id);
    }
  }

  lemma PublishForward(s: Fabric, p: Publication, now: int)
    requires Coherent(s)
    ensures Forward(s, C.PublishCompletion(s, p, now).fabric, {})
  {
    LedgerView(s);
    var op := OpPublish(p, now);
    StepMoves(s.ledger, op);
    LedgerStep(s.ledger, op);
    StepKeepsRecords(s.ledger, op);
    PublishDrops(s.ledger, op);
    var out := LedgerModel.PublishCompletion(s.ledger, p, now);
    var s1 := s.(ledger := out.ledger);
    if out.result.Success? && out.result.value.disposition.Committed? {
      EndingForward(s, s1, p.request);
    } else {
      LedgerForward(s, s1, {});
    }
  }

  lemma ReplaceForward(s: Fabric, id: Id, a: Id, b: Id, h: Word64, now: int)
    requires Coherent(s)
    ensures Forward(s, ReplaceAttempt(s, id, a, b, h, now).fabric, {})
  {
    LedgerView(s);
    StandForward(s);
    SupersedeLedger(s.ledger, id, a, b, now);
    var model := if h == 0 then Success(0) else RequireGeneration(s.models, h);
    var out := SupersedeAttempt(s.ledger, id, a, b, now);
    if model.Success? && out.result.Success? {
      var s1 := s.(ledger := out.ledger);
      EndingForward(s, s1, id);
      EndingCoheres(s, s1, id);
      RemodelForward(s, ReleaseRequest(s1, id), id, a, b, h, model.value);
    }
  }

  lemma SupersedeLedger(l: Ledger, id: Id, a: Id, b: Id, now: int)
    requires LedgerOk(l)
    ensures var out := SupersedeAttempt(l, id, a, b, now);
      && LedgerOk(out.ledger) && out.ledger.limits == l.limits && out.ledger.flows == l.flows
      && RecordsMove(l.requests, out.ledger.requests, {})
      && (out.result.Success? ==> !id.IsNil())
      && (out.result.Failure? ==> out.ledger == l)
  {
    var op := OpSupersede(id, a, b, now);
    LedgerStep(l, op);
    StepKeepsRecords(l, op);
    StepMoves(l, op);
    if id in l.requests { KnownIsNotNil(l, id); }
  }

  lemma RemodelForward(s: Fabric, s2: Fabric, id: Id, a: Id, b: Id, h: Word64, g: Generation)
    requires Forward(s, s2, {}) && Coherent(s2)
    ensures Forward(s, s2.(ledger := SetAttemptModel(s2.ledger, id, b, h, g).ledger, routes := s2.routes - {a}), {})
  {
    LedgerView(s2);
    var op := OpSetModel(id, b, h, g);
    StepMoves(s2.ledger, op);
    RecordsMoveOn(s.ledger.requests, s2.ledger.requests, Step(s2.ledger, op).requests);
  }

  // ---------------------------------------------------------------------------------------------
  // Registries, flows and transfers
  // ---------------------------------------------------------------------------------------------

  lemma EvidenceForward(s: Fabric, call: EvidenceCall)
    ensures Forward(s, ActEvidence(s, call), {})
  {
    RecordsStand(s.ledger.requests);
    EvidenceUnmoved(s, call);
    EvidenceGrows(s, call);
  }

  lemma EvidenceGrows(s: Fabric, call: EvidenceCall)
    ensures RegistryGrows(s.models, ActEvidence(s, call).models)
    ensures RegistryGrows(s.states, ActEvidence(s, call).states)
  {
  }

  lemma CountedIsStep(l: Ledger, x: Subject, v: Verdict)
    requires x.Serving?
    ensures Counted(l, x, v) == Step(l, OpDecision(x.request, x.attempt, v))
  {
  }

  lemma CountedMoves(l: Ledger, x: Subject, v: Verdict)
    requires Structured(l)
    ensures RecordsMove(l.requests, Counted(l, x, v).requests, {})
  {
    if x.Serving? {
      CountedIsStep(l, x, v);
      StepMoves(l, OpDecision(x.request, x.attempt, v));
    } else {
      RecordsStand(l.requests);
    }
  }

  lemma EvaluateForward(s: Fabric, q: TrafficRequest, now: int, choice: Key)
    requires Coherent(s)
    ensures Forward(s, Evaluate(s, q, now, choice).0, {})
  {
    LedgerView(s);
    var e := Evaluate(s, q, now, choice);
    CountedMoves(s.ledger, SubjectOf(q), e.1.verdict);
    LedgerForward(s, e.0, {});
  }

  lemma OpenForward(s: Fabric, d: Decision, declared: nat, now: int, tag: bv64)
    requires Coherent(s) && !Revives(s, d)
    ensures Forward(s, C.OpenFlow(s, d, declared, now, tag).fabric, {})
  {
    StandForward(s);
    if ValidateDecision(s, d).Ok? && !BulkExhausted(s, d.treatment.traffic, declared) {
      if d.subject.Serving? {
        OpenServingForward(s, d, declared, now, tag);
      } else {
        OpenMovingForward(s, d, declared, tag);
      }
    }
  }

  lemma OpenServingForward(s: Fabric, d: Decision, declared: nat, now: int, tag: bv64)
    requires Coherent(s) && d.subject.Serving? && !BulkExhausted(s, d.treatment.traffic, declared)
    ensures Forward(s, OpenServing(s, d, declared, now, tag).fabric, {})
  {
    LedgerView(s);
    StandForward(s);
    var x, c := d.subject, d.treatment.traffic;
    var out := LedgerModel.OpenFlow(s.ledger, x.request, x.attempt, c, declared, now, tag);
    StepMoves(s.ledger, OpOpen(x.request, x.attempt, c, declared, now, tag));
    if out.result.Success? {
      ServedForward(s, out.ledger, out.result.value,
                    Flow(OfRequest(x.request, x.attempt), c, declared, 0, d.authority.sequence, BulkClass(s, c)));
    }
  }

  lemma ServedForward(s: Fabric, l: Ledger, f: FlowId, flow: Flow)
    requires RecordsMove(s.ledger.requests, l.requests, {})
    requires flow.bulk ==> !BulkExhausted(s, flow.traffic, flow.declaredBytes) && BulkClass(s, flow.traffic)
    ensures Forward(s, Served(s, l, f, flow), {})
  {
  }

  lemma OpenMovingForward(s: Fabric, d: Decision, declared: nat, tag: bv64)
    requires !d.subject.Serving? && ValidateDecision(s, d).Ok? && !Revives(s, d)
    requires !BulkExhausted(s, d.treatment.traffic, declared)
    ensures Forward(s, OpenMoving(s, d, declared, tag).fabric, {})
  {
    StandForward(s);
    var t := d.subject.transfer;
    if t in s.transfers && s.transfers[t].flow.IsNil() {
      OneMoves(s.transfers, t, s.transfers[t].(flow := FlowId(s.book.nextFlow + 1, tag)), s.ledger.requests);
    }
  }

  lemma ReleaseForward(s: Fabric, f: FlowId)
    ensures Forward(s, ReleaseOne(s, f), {})
  {
    ReleaseOneTrims(s, f);
    SameRecordsMove(s.ledger.requests, ReleaseOne(s, f).ledger.requests);
  }

  lemma BytesIsStep(l: Ledger, f: FlowId, bytes: nat, inbound: bool)
    ensures LedgerModel.RecordFlowBytes(l, f, bytes, inbound).ledger == Step(l, OpBytes(f, bytes, inbound))
  {
  }

  lemma BytesMoves(l: Ledger, f: FlowId, bytes: nat, inbound: bool)
    requires Structured(l)
    ensures RecordsMove(l.requests, LedgerModel.RecordFlowBytes(l, f, bytes, inbound).ledger.requests, {})
  {
    BytesIsStep(l, f, bytes, inbound);
    StepMoves(l, OpBytes(f, bytes, inbound));
  }

  lemma BytesForward(s: Fabric, f: FlowId, bytes: nat, inbound: bool)
    requires Coherent(s)
    ensures Forward(s, C.RecordFlowBytes(s, f, bytes, inbound).fabric, {})
  {
    LedgerView(s);
    StandForward(s);
    BytesMoves(s.ledger, f, bytes, inbound);
  }

  lemma RewrittenForward(s: Fabric, t: Id, r: Transfer)
    requires t in s.transfers && TransferMoves(s.transfers[t], r)
    ensures Forward(s, s.(transfers := s.transfers[t := r]), {})
  {
    RecordsStand(s.ledger.requests);
    OneMoves(s.transfers, t, r, s.ledger.requests);
  }

  /** Rewriting one transfer, then taking its flow. */
  lemma ReleaseTransferForward(s: Fabric, t: Id, r: Transfer)
    requires Coherent(s) && t in s.transfers && TransferMoves(s.transfers[t], r)
    requires r.flow == s.transfers[t].flow
    ensures Forward(s, ReleaseTransfer(s.(transfers := s.transfers[t := r]), t), {})
    ensures var s' := ReleaseTransfer(s.(transfers := s.transfers[t := r]), t);
      s'.transfers.Keys == s.transfers.Keys && s'.ledger.requests.Keys == s.ledger.requests.Keys
  {
    var s1 := s.(transfers := s.transfers[t := r]);
    TransferRewritten(s, t, r);
    RewrittenForward(s, t, r);
    if !t.IsNil() {
      var victims := set p | p in s1.book.byTransfer && p.0 == t :: p.1;
      View(s1);
      ReleaseAllSettles(s1, victims, {});
      SameRecordsMove(s1.ledger.requests, ReleaseTransfer(s1, t).ledger.requests);
      TransfersMoveOn(s.transfers, s1.transfers, ReleaseTransfer(s1, t).transfers, s.ledger.requests);
    }
  }

  lemma RefuseForward(s: Fabric, t: Id, reason: Reasons.Reason)
    requires Coherent(s) && t in s.transfers
    ensures Forward(s, RefuseTransfer(s, t, reason), {})
    ensures RefuseTransfer(s, t, reason).transfers.Keys == s.transfers.Keys
    ensures RefuseTransfer(s, t, reason).ledger.requests.Keys == s.ledger.requests.Keys
  {
    ReleaseTransferForward(s, t, s.transfers[t].(state := TransferRefused, reason := reason));
  }

  /** What a permission of a transfer says about its record. */
  lemma PermittedIsOpen(s: Fabric, q: TrafficRequest, now: int, choice: Key)
    requires Evaluate(s, q, now, choice).1.Permits() && SubjectOf(q).Moving?
    ensures SubjectOf(q).transfer in s.transfers
    ensures !TransferEnded(s.transfers[SubjectOf(q).transfer].state)
  {
    EvaluateRefinesFences(s, q, now, choice);
  }

  lemma AuthorizeForward(s: Fabric, q: TrafficRequest, now: int, choice: Key, tag: bv64)
    requires Coherent(s) && FlowId(s.book.nextFlow + 1, tag) !in s.book.flows
    ensures Forward(s, AuthorizeTransfer(s, q, now, choice, tag).fabric, {})
  {
    StandForward(s);
    if q.subject.Some? && q.subject.value.Moving? {
      EvaluateForward(s, q, now, choice);
      EvaluateCoheres(s, q, now, choice);
      var e := Evaluate(s, q, now, choice);
      if e.1.Permits() { PermittedIsOpen(s, q, now, choice); }
      ConcludeForward(s, e.0, e.1, q.subject.value.transfer, now, tag);
    }
  }

  lemma ConcludeForward(s: Fabric, s1: Fabric, d: Decision, t: Id, now: int, tag: bv64)
    requires Coherent(s1) && Forward(s, s1, {}) && d.subject == Moving(t)
    requires s1.transfers == s.transfers && s1.models == s.models && s1.states == s.states
    requires s1.policy == s.policy && s1.book == s.book
    requires d.Permits() && t in s1.transfers ==> !TransferEnded(s1.transfers[t].state)
    ensures Forward(s, Conclude(s1, d, t, now, tag).fabric, {})
  {
    if t in s1.transfers {
      if !d.Permits() {
        RefuseForward(s1, t, d.reason);
        ThenForward(s, s1, RefuseTransfer(s1, t, d.reason));
      } else {
        OpenedForward(s, s1, d, t, now, tag, AuthorizationFor(t, d));
      }
    }
  }

  /** A forward step that follows one which moved nothing but the ledger's tallies. */
  lemma ThenForward(s: Fabric, s1: Fabric, s2: Fabric)
    requires Forward(s, s1, {}) && Forward(s1, s2, {}) && s1.transfers == s.transfers
    requires s1.models == s.models && s1.states == s.states && s1.policy == s.policy && s1.book == s.book
    requires s2.transfers.Keys == s1.transfers.Keys && s2.ledger.requests.Keys <= s1.ledger.requests.Keys
    ensures Forward(s, s2, {})
  {
    RecordsMoveOn(s.ledger.requests, s1.ledger.requests, s2.ledger.requests);
  }

  lemma RewrittenThenForward(s: Fabric, s1: Fabric, t: Id, r: Transfer)
    requires Forward(s, s1, {}) && s1.transfers == s.transfers && s1.models == s.models && s1.states == s.states
    requires s1.policy == s.policy && s1.book == s.book && t in s1.transfers && TransferMoves(s1.transfers[t], r)
    ensures Forward(s, s1.(transfers := s1.transfers[t := r]), {})
  {
    RewrittenForward(s1, t, r);
    ThenForward(s, s1, s1.(transfers := s1.transfers[t := r]));
  }

  lemma OpenedForward(s: Fabric, s1: Fabric, d: Decision, t: Id, now: int, tag: bv64, a: Authorization)
    requires Coherent(s1) && d.subject == Moving(t) && t in s1.transfers
    requires !TransferEnded(s1.transfers[t].state)
    requires Forward(s, s1, {}) && s1.transfers == s.transfers && s1.models == s.models && s1.states == s.states
    requires s1.policy == s.policy && s1.book == s.book
    ensures var out := C.OpenFlow(s1, d, s1.transfers[t].payloadBytes, now, tag);
      if out.result.Failure?
      then Forward(s, WithState(s1, t, TransferRefused, Reasons.REJECTED_FLOW_LIMIT).(refused := s1.refused + 1), {})
      else Forward(s, Authorise(out.fabric, t, out.result.value, a).fabric, {})
  {
    var out := C.OpenFlow(s1, d, s1.transfers[t].payloadBytes, now, tag);
    if out.result.Failure? {
      RewrittenThenForward(s, s1, t,
        s1.transfers[t].(state := TransferRefused, reason := Reasons.REJECTED_FLOW_LIMIT));
    } else {
      GrantedForward(s, s1, d, t, now, tag, a);
    }
  }

  lemma GrantedForward(s: Fabric, s1: Fabric, d: Decision, t: Id, now: int, tag: bv64, a: Authorization)
    requires d.subject == Moving(t) && t in s1.transfers && !TransferEnded(s1.transfers[t].state)
    requires Forward(s, s1, {}) && s1.transfers == s.transfers && s1.models == s.models && s1.states == s.states
    requires s1.policy == s.policy && s1.book == s.book
    requires C.OpenFlow(s1, d, s1.transfers[t].payloadBytes, now, tag).result.Success?
    ensures var out := C.OpenFlow(s1, d, s1.transfers[t].payloadBytes, now, tag);
      Forward(s, Authorise(out.fabric, t, out.result.value, a).fabric, {})
  {
    var out := C.OpenFlow(s1, d, s1.transfers[t].payloadBytes, now, tag);
    OpenedIsNamed(s1, d, s1.transfers[t].payloadBytes, now, tag);
    var r := s1.transfers[t].(state := Authorized, flow := out.result.value);
    RewrittenThenForward(s, s1, t, r);
    assert Authorise(out.fabric, t, out.result.value, a).fabric.transfers == s1.transfers[t := r];
  }

  lemma RegisterTransferForward(s: Fabric, r: TransferSpec)
    ensures Forward(s, RegisterTransfer(s, r).fabric, {})
  {
    StandForward(s);
  }

  lemma StartForward(s: Fabric, t: Id, a: Authorization)
    ensures Forward(s, StartTransfer(s, t, a).fabric, {})
  {
    StandForward(s);
    if t in s.transfers && s.transfers[t].state.Authorized? {
      RewrittenForward(s, t, s.transfers[t].(state := InProgress));
    }
  }

  lemma CompleteForward(s: Fabric, t: Id, verified: nat)
    requires Coherent(s)
    ensures Forward(s, CompleteTransfer(s, t, verified).fabric, {})
  {
    StandForward(s);
    if t in s.transfers {
      var r := s.transfers[t];
      RefuseForward(s, t, Reasons.REJECTED_INTEGRITY_UNAVAILABLE);
      if !TransferEnded(r.state) && Delivered(r.(verifiedBytes := verified)) { DeliverForward(s, t, verified); }
    }
  }

  lemma DeliverForward(s: Fabric, t: Id, verified: nat)
    requires Coherent(s) && t in s.transfers && !TransferEnded(s.transfers[t].state)
    requires Delivered(s.transfers[t].(verifiedBytes := verified))
    ensures var done := s.(transfers := s.transfers[t := s.transfers[t].(verifiedBytes := verified)]);
      Forward(s, ReleaseTransfer(WithState(done, t, TransferCompleted, Reasons.COMMITTED_COMPLETION), t), {})
  {
    var r := s.transfers[t];
    var r' := r.(verifiedBytes := verified, state := TransferCompleted, reason := Reasons.COMMITTED_COMPLETION);
    ReleaseTransferForward(s, t, r');
    assert WithState(s.(transfers := s.transfers[t := r.(verifiedBytes := verified)]), t,
                     TransferCompleted, Reasons.COMMITTED_COMPLETION)
        == s.(transfers := s.transfers[t := r']);
  }

  lemma AbandonForward(s: Fabric, t: Id, reason: Reasons.Reason)
    requires Coherent(s)
    ensures Forward(s, AbandonTransfer(s, t, reason).fabric, {})
  {
    StandForward(s);
    if t in s.transfers && !s.transfers[t].state.TransferCompleted? {
      ReleaseTransferForward(s, t, s.transfers[t].(state := Abandoned, reason := reason));
    }
  }

  // ---------------------------------------------------------------------------------------------
  // Steps
  // ---------------------------------------------------------------------------------------------

  lemma RequestForward(s: Fabric, call: RequestCall)
    requires Coherent(s)
    ensures Forward(s, ActRequest(s, call), Revalidates(OnRequest(call)))
  {
    match call
    case CallRegister(id, now) => PlainForward(s, OpRegister(id, now));
    case CallAttempt(id, a, h, now) => AttemptForward(s, id, a, h, now);
    case CallRevalidate(id, a, now) => PlainForward(s, OpRevalidate(id, a, now));
    case CallAdvance(id, a, target, now) => PlainForward(s, OpAdvance(id, a, target, now));
    case CallCancel(id, reason, now) => CancelForward(s, id, reason, now);
    case CallFail(id, a, reason, now) => FailForward(s, id, a, reason, now);
    case CallReplace(id, a, b, h, now) => ReplaceForward(s, id, a, b, h, now);
    case CallPublish(p, now) => PublishForward(s, p, now);
  }

  lemma FlowForward(s: Fabric, call: FlowCall)
    requires Coherent(s) && RevivesNone(s, OnFlow(call))
    ensures Forward(s, ActFlow(s, call), {})
  {
    match call
    case CallEvaluate(q, now, choice) => EvaluateForward(s, q, now, choice);
    case CallOpen(d, declared, now, tag) => OpenForward(s, d, declared, now, tag);
    case CallRelease(f) => ReleaseForward(s, f);
    case CallBytes(f, bytes, inbound) => BytesForward(s, f, bytes, inbound);
  }

  lemma TransferForward(s: Fabric, call: TransferCall)
    requires Coherent(s) && MintsDistinct(s, OnTransfer(call))
    ensures Forward(s, ActTransfer(s, call), {})
  {
    match call
    case CallTransfer(r) => RegisterTransferForward(s, r);
    case CallAuthorize(q, now, choice, tag) => AuthorizeForward(s, q, now, choice, tag);
    case CallStart(t, a) => StartForward(s, t, a);
    case CallComplete(t, verified) => CompleteForward(s, t, verified);
    case CallAbandon(t, reason) => AbandonForward(s, t, reason);
  }

  /** Every operation moves the coordinator forward. */
  lemma ActForward(s: Fabric, call: Call)
    requires Coherent(s) && MintsDistinct(s, call) && RevivesNone(s, call)
    ensures Forward(s, Act(s, call), Revalidates(call))
  {
    match call
    case OnRequest(r) => RequestForward(s, r);
    case OnEvidence(e) => EvidenceForward(s, e);
    case OnFlow(f) => FlowForward(s, f);
    case OnTransfer(t) => TransferForward(s, t);
  }

  // ---------------------------------------------------------------------------------------------
  // Without the flows of transfers
  // ---------------------------------------------------------------------------------------------

  /** What every call keeps of a transfer, also one that revives it. */
  ghost predicate TransferProceeds(a: Transfer, b: Transfer) {
    && b == a.(state := b.state, reason := b.reason, flow := b.flow, verifiedBytes := b.verifiedBytes)
    && (TransferEnded(a.state) ==> TransferEnded(b.state))
    && (|| (b.verifiedBytes == a.verifiedBytes && (b.state.TransferCompleted? ==> a.state.TransferCompleted?))
        || (!TransferEnded(a.state) && Delivered(b)))
  }

  ghost predicate TransfersProceed(before: Transfers, after: Transfers) {
    forall t {:trigger At(t)} :: At(t) ==>
      && (t in before ==> t in after && TransferProceeds(before[t], after[t]))
      && (t in after && t !in before ==> after[t].state.TransferRegistered? && after[t].verifiedBytes == 0)
  }

  ghost predicate Onward(s: Fabric, s': Fabric, named: set<Id>) {
    && RecordsMove(s.ledger.requests, s'.ledger.requests, named)
    && TransfersProceed(s.transfers, s'.transfers)
    && RegistryGrows(s.models, s'.models) && RegistryGrows(s.states, s'.states)
    && s.sequence <= s'.sequence && BulkMoves(s, s')
  }

  lemma ForwardIsOnward(s: Fabric, s': Fabric, named: set<Id>)
    requires Forward(s, s', named)
    ensures Onward(s, s', named)
  {
  }

  lemma ReviveOnward(s: Fabric, d: Decision, declared: nat, now: int, tag: bv64)
    requires Revives(s, d)
    ensures Onward(s, C.OpenFlow(s, d, declared, now, tag).fabric, {})
  {
    StandForward(s);
    ForwardIsOnward(s, s, {});
    if ValidateDecision(s, d).Ok? && !BulkExhausted(s, d.treatment.traffic, declared) {
      MovedOnward(s, d, declared, tag);
    }
  }

  lemma MovedOnward(s: Fabric, d: Decision, declared: nat, tag: bv64)
    requires Revives(s, d) && !BulkExhausted(s, d.treatment.traffic, declared)
    ensures Onward(s, OpenMoving(s, d, declared, tag).fabric, {})
  {
    RecordsStand(s.ledger.requests);
  }

  /** Every operation, whatever decision is presented, moves records, transfers and generations one way. */
  lemma ActOnward(s: Fabric, call: Call)
    requires Coherent(s) && MintsDistinct(s, call)
    ensures Onward(s, Act(s, call), Revalidates(call))
  {
    if RevivesNone(s, call) {
      ActForward(s, call);
      ForwardIsOnward(s, Act(s, call), Revalidates(call));
    } else {
      var c := call.flow;
      ReviveOnward(s, c.decision, c.declared, c.now, c.tag);
    }
  }
}
