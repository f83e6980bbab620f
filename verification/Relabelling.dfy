/**
 * A completed transfer that is authorized again is relabelled refused (src/coordinator.cpp): of all calls,
 * exactly that one makes a transfer that completed say otherwise.
 */
module Relabelling {
  import opened Ids
  import opened Reasons
  import opened LedgerModel
  import opened Deferral
  import opened CoordinatorModel
  import C = CoordinatorModel
  import opened Evaluation
  import opened EvaluationProofs
  import opened CoordinatorRuns
  import opened CoordinatorCoherence
  import opened CoordinatorInvariant
  import opened CoordinatorTransfers

  /** Every transfer that has completed still says so, unless it is excepted. */
  ghost predicate StayCompleted(before: map<Id, Transfer>, after: map<Id, Transfer>, except: set<Id>) {
    forall t {:trigger At(t)} :: At(t) && t in before && before[t].state.TransferCompleted? && t !in except ==>
      t in after && after[t].state.TransferCompleted?
  }

  lemma {:induction false} ReleasesKeepLabels(s: Fabric, victims: set<FlowId>)
    ensures StayCompleted(s.transfers, ReleaseAll(s, victims).transfers, {})
    decreases victims
  {
    if victims == {} {
    } else {
      var f :| f in victims && ReleaseAll(s, victims) == ReleaseAll(ReleaseOne(s, f), victims - {f});
      ReleasesKeepLabels(ReleaseOne(s, f), victims - {f});
    }
  }

  lemma ReleaseRequestKeepsLabels(s: Fabric, id: Id)
    ensures StayCompleted(s.transfers, ReleaseRequest(s, id).transfers, {})
  {
    var victims := ServingVictims(s, id) + TransferVictims(s, id);
    ReleasesKeepLabels(s.(transfers := AbandonOwned(s, id)), victims);
  }

  lemma ReleaseTransferKeepsLabels(s: Fabric, t: Id)
    ensures StayCompleted(s.transfers, ReleaseTransfer(s, t).transfers, {})
  {
    if !t.IsNil() { ReleasesKeepLabels(s, set p | p in s.book.byTransfer && p.0 == t :: p.1); }
  }

  lemma CancelKeepsLabels(s: Fabric, id: Id, reason: Reason, now: int)
    ensures StayCompleted(s.transfers, C.CancelRequest(s, id, reason, now).fabric.transfers, {})
  {
    var out := LedgerModel.CancelRequest(s.ledger, id, reason, s.sequence + 1, now);
    ReleaseRequestKeepsLabels(s.(sequence := s.sequence + 1, ledger := out.ledger), id);
  }

  lemma RequestKeepsLabels(s: Fabric, call: RequestCall)
    ensures StayCompleted(s.transfers, ActRequest(s, call).transfers, {})
  {
    match call
    case CallCancel(id, reason, now) => CancelKeepsLabels(s, id, reason, now);
    case CallFail(id, a, reason, now) =>
      ReleaseRequestKeepsLabels(s.(ledger := LedgerModel.FailAttempt(s.ledger, id, a, reason, now).ledger), id);
    case CallReplace(id, a, b, h, now) =>
      ReleaseRequestKeepsLabels(s.(ledger := SupersedeAttempt(s.ledger, id, a, b, now).ledger), id);
    case CallPublish(p, now) =>
      ReleaseRequestKeepsLabels(s.(ledger := LedgerModel.PublishCompletion(s.ledger, p, now).ledger), p.request);
    case _ =>
  }

  lemma OpenKeepsLabels(s: Fabric, d: Decision, declared: nat, now: int, tag: bv64)
    ensures StayCompleted(s.transfers, C.OpenFlow(s, d, declared, now, tag).fabric.transfers, {})
  {
    if d.subject.Serving? {
      ServingKeepsTransfers(s, d, declared, now, tag);
    } else {
      MovingKeepsLabels(s, d, declared, tag);
    }
  }

  lemma ServingKeepsTransfers(s: Fabric, d: Decision, declared: nat, now: int, tag: bv64)
    requires d.subject.Serving?
    ensures OpenServing(s, d, declared, now, tag).fabric.transfers == s.transfers
  {
  }

  lemma MovingKeepsLabels(s: Fabric, d: Decision, declared: nat, tag: bv64)
    requires !d.subject.Serving?
    ensures StayCompleted(s.transfers, OpenMoving(s, d, declared, tag).fabric.transfers, {})
  {
  }

  lemma FlowKeepsLabels(s: Fabric, call: FlowCall)
    ensures StayCompleted(s.transfers, ActFlow(s, call).transfers, {})
  {
    match call
    case CallOpen(d, declared, now, tag) => OpenKeepsLabels(s, d, declared, now, tag);
    case _ =>
  }

  lemma ConcludeKeepsLabels(s: Fabric, d: Decision, t: Id, now: int, tag: bv64)
    ensures StayCompleted(s.transfers, Conclude(s, d, t, now, tag).fabric.transfers, {t})
  {
    if t in s.transfers {
      if d.Permits() { OpenKeepsLabels(s, d, s.transfers[t].payloadBytes, now, tag); }
      else { ReleaseTransferKeepsLabels(WithState(s, t, TransferRefused, d.reason), t); }
    }
  }

  lemma AuthorizeKeepsLabels(s: Fabric, q: TrafficRequest, now: int, choice: Key, tag: bv64)
    ensures StayCompleted(s.transfers, AuthorizeTransfer(s, q, now, choice, tag).fabric.transfers, Named(q))
  {
    if q.subject.Some? && q.subject.value.Moving? {
      var e := Evaluate(s, q, now, choice);
      ConcludeKeepsLabels(e.0, e.1, q.subject.value.transfer, now, tag);
    }
  }

  /** The transfer an authorization names. */
  function Named(q: TrafficRequest): set<Id> {
    if q.subject.Some? && q.subject.value.Moving? then {q.subject.value.transfer} else {}
  }

  lemma CompleteKeepsLabels(s: Fabric, t: Id, verified: nat)
    ensures StayCompleted(s.transfers, CompleteTransfer(s, t, verified).fabric.transfers, {})
  {
    if t in s.transfers {
      ReleaseTransferKeepsLabels(WithState(s, t, TransferRefused, REJECTED_INTEGRITY_UNAVAILABLE), t);
      var done := s.(transfers := s.transfers[t := s.transfers[t].(verifiedBytes := verified)]);
      ReleaseTransferKeepsLabels(WithState(done, t, TransferCompleted, COMMITTED_COMPLETION), t);
    }
  }

  lemma AbandonKeepsLabels(s: Fabric, t: Id, reason: Reason)
    ensures StayCompleted(s.transfers, AbandonTransfer(s, t, reason).fabric.transfers, {})
  {
    if t in s.transfers { ReleaseTransferKeepsLabels(WithState(s, t, Abandoned, reason), t); }
  }

  lemma TransferKeepsLabels(s: Fabric, call: TransferCall)
    ensures StayCompleted(s.transfers, ActTransfer(s, call).transfers,
                          if call.CallAuthorize? then Named(call.query) else {})
  {
    match call
    case CallAuthorize(q, now, choice, tag) => AuthorizeKeepsLabels(s, q, now, choice, tag);
    case CallComplete(t, verified) => CompleteKeepsLabels(s, t, verified);
    case CallAbandon(t, reason) => AbandonKeepsLabels(s, t, reason);
    case _ =>
  }

  predicate Reauthorizes(call: Call, t: Id) {
    call.OnTransfer? && call.transfer.CallAuthorize? && t in Named(call.transfer.query)
  }

  /** Authorizing a completed transfer is refused by the terminal fence, and the refusal overwrites the state. */
  lemma ReauthorizationRefuses(s: Fabric, q: TrafficRequest, now: int, choice: Key, tag: bv64, t: Id)
    requires Coherent(s) && t in s.transfers && s.transfers[t].state.TransferCompleted? && t in Named(q)
    ensures var s' := AuthorizeTransfer(s, q, now, choice, tag).fabric;
      t in s'.transfers && s'.transfers[t].state.TransferRefused?
  {
    EvaluateRefinesFences(s, q, now, choice);
    EvaluateCoheres(s, q, now, choice);
    var e := Evaluate(s, q, now, choice);
    ReleaseTransferClean(e.0, t, e.0.transfers[t].(state := TransferRefused, reason := e.1.reason));
  }

  /** A completed transfer stays completed exactly when the call is not an authorization that names it. */
  lemma CompletedIsRelabelledExactly(s: Fabric, call: Call, t: Id)
    requires Coherent(s) && t in s.transfers && s.transfers[t].state.TransferCompleted?
    ensures var s' := Act(s, call);
      && t in s'.transfers
      && (s'.transfers[t].state.TransferCompleted? <==> !Reauthorizes(call, t))
      && (Reauthorizes(call, t) ==> s'.transfers[t].state.TransferRefused?)
  {
    assert At(t);
    match call
    case OnRequest(r) => RequestKeepsLabels(s, r);
    case OnEvidence(e) => EvidenceUnmoved(s, e);
    case OnFlow(f) => FlowKeepsLabels(s, f);
    case OnTransfer(c) =>
      TransferKeepsLabels(s, c);
      if Reauthorizes(call, t) { ReauthorizationRefuses(s, c.query, c.now, c.choice, c.tag, t); }
  }
}
