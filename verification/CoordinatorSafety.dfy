/**
 * Safety over whole runs of one incarnation: cancellation is final and refusals are irrevocable.
 */
module CoordinatorSafety {
  import opened Ids
  import opened LedgerModel
  import opened LedgerAccounting
  import opened LedgerRecords
  import opened LedgerCurrency
  import opened Deferral
  import opened CoordinatorModel
  import C = CoordinatorModel
  import opened Evaluation
  import opened EvaluationProofs
  import opened CoordinatorRuns
  import opened CoordinatorCoherence
  import opened CoordinatorInvariant
  import opened CoordinatorEvolution

  /** The call opens a flow for an ended transfer of the request, by a decision without a subject kind. */
  predicate Undoes(s: Fabric, call: Call, id: Id) {
    match call
    case OnFlow(CallOpen(d, declared, _, _)) =>
      && Revives(s, d) && s.transfers[d.subject.transfer].request == id
      && ValidateDecision(s, d).Ok? && declared <= s.config.maxPayload
      && !BulkExhausted(s, d.treatment.traffic, declared)
    case _ => false
  }

  ghost predicate NeverUndone(s: Fabric, calls: seq<Call>, id: Id)
    decreases |calls|
  {
    calls != [] ==> !Undoes(s, calls[0], id) && NeverUndone(Act(s, calls[0]), calls[1..], id)
  }

  /** The record is in the ledger in every state of the run. */
  ghost predicate Kept(s: Fabric, calls: seq<Call>, id: Id)
    decreases |calls|
  {
    id in s.ledger.requests && (calls != [] ==> Kept(Act(s, calls[0]), calls[1..], id))
  }

  // ---------------------------------------------------------------------------------------------
  // Cancellation is final
  // ---------------------------------------------------------------------------------------------

  /** Cancelled, without a flow in either table, its transfers ended and without a flow. */
  ghost predicate Dead(s: Fabric, id: Id) {
    id in s.ledger.requests && s.ledger.requests[id].lifecycle.Cancelled? && Flowless(s, id)
  }

  /** A coherent coordinator holds no serving flow of a request that may hold none. */
  lemma IdleIsServingFlowless(s: Fabric, id: Id)
    requires Coherent(s) && !MayHoldFlows(s.ledger.requests, id)
    ensures forall f {:trigger At(f)} :: At(f) && f in s.book.flows && s.book.flows[f].owner.OfRequest? ==>
              s.book.flows[f].owner.request != id
    ensures forall f {:trigger At(f)} :: At(f) && f in s.ledger.flows ==> s.ledger.flows[f].request != id
  {
    View(s);
    OpenBooks(s.ledger);
    IdleHoldsNone(s.ledger.requests, s.ledger.flows, s.ledger.nextFlow, id);
    forall f | At(f) && f in s.ledger.flows
      ensures s.ledger.flows[f].request != id
    {
      assert f !in FlowsOf(s.ledger.flows, id);
    }
  }

  lemma CancelMarks(l: Ledger, id: Id, reason: Reasons.Reason, sequence: Generation, now: int)
    requires LedgerModel.CancelRequest(l, id, reason, sequence, now).result.Success?
    ensures var l' := LedgerModel.CancelRequest(l, id, reason, sequence, now).ledger;
      id in l'.requests ==> l'.requests[id].lifecycle.Cancelled?
  {
    EndRecords(l, id, CancelledRecord(l.requests[id], reason, sequence, now),
               l.account.(cancelled := l.account.cancelled + 1));
  }

  /** A cancellation that succeeds kills the request, wherever it was. */
  lemma CancelKills(s: Fabric, id: Id, reason: Reasons.Reason, now: int)
    requires Coherent(s) && C.CancelRequest(s, id, reason, now).result.Success?
    ensures var s' := C.CancelRequest(s, id, reason, now).fabric;
      Coherent(s') && (id in s'.ledger.requests ==> Dead(s', id))
  {
    LedgerView(s);
    CancelLedger(s.ledger, id, reason, s.sequence + 1, now);
    CancelMarks(s.ledger, id, reason, s.sequence + 1, now);
    var out := LedgerModel.CancelRequest(s.ledger, id, reason, s.sequence + 1, now);
    EndedIsFlowless(s, s.(sequence := s.sequence + 1, ledger := out.ledger), id);
  }

  lemma EndedIsFlowless(s: Fabric, s1: Fabric, id: Id)
    requires Coherent(s) && !id.IsNil() && LedgerOk(s1.ledger)
    requires s1 == s.(ledger := s1.ledger, sequence := s1.sequence) && s1.ledger.limits == s.ledger.limits
    requires DropsOnly(s.ledger.flows, s1.ledger.flows, id)
    ensures var s' := ReleaseRequest(s1, id);
      && Coherent(s') && Flowless(s', id)
      && (id in s'.ledger.requests ==>
            id in s1.ledger.requests && s'.ledger.requests[id].lifecycle == s1.ledger.requests[id].lifecycle)
  {
    EndingCoheres(s, s1, id);
    assert At(id);
  }

  /** A call leaves a dead request dead exactly when it does not open a flow for a transfer of it. */
  lemma DeadStaysExactly(s: Fabric, call: Call, id: Id)
    requires Coherent(s) && Dead(s, id) && MintsDistinct(s, call) && id in Act(s, call).ledger.requests
    ensures Coherent(Act(s, call)) && (Dead(Act(s, call), id) <==> !Undoes(s, call, id))
  {
    ActCoheres(s, call);
    if RevivesNone(s, call) {
      ActForward(s, call);
      StillDead(s, Act(s, call), Revalidates(call), id);
    } else {
      var c := call.flow;
      RevivalUndoesExactly(s, id, c.decision, c.declared, c.now, c.tag);
    }
  }

  /** Reviving a transfer leaves a dead request dead exactly when the transfer is not its own. */
  lemma RevivedIsDeadExactly(s: Fabric, id: Id, d: Decision, declared: nat, tag: bv64)
    requires Dead(s, id) && Revives(s, d)
    ensures Dead(OpenMoving(s, d, declared, tag).fabric, id) <==> s.transfers[d.subject.transfer].request != id
  {
    assert At(d.subject.transfer);
  }

  lemma RevivalUndoesExactly(s: Fabric, id: Id, d: Decision, declared: nat, now: int, tag: bv64)
    requires Dead(s, id) && Revives(s, d)
    ensures Dead(C.OpenFlow(s, d, declared, now, tag).fabric, id) <==>
            !Undoes(s, OnFlow(CallOpen(d, declared, now, tag)), id)
  {
    RevivedIsDeadExactly(s, id, d, declared, tag);
  }

  lemma StillDead(s: Fabric, s': Fabric, named: set<Id>, id: Id)
    requires Coherent(s) && Dead(s, id) && Coherent(s') && Forward(s, s', named) && id in s'.ledger.requests
    ensures Dead(s', id)
  {
    assert At(id);
    LedgerView(s);
    KnownIsNotNil(s.ledger, id);
    IdleIsServingFlowless(s', id);
  }

  /** A subject that names the request, or a transfer it owns. */
  predicate About(s: Fabric, id: Id, x: Subject) {
    match x
    case Serving(r, _, _) => r == id
    case Moving(t) => t in s.transfers && s.transfers[t].request == id
    case Unkinded(_) => false
  }

  /** What nobody gets any more: no permission, no flow, no commit, for the request or its transfers. */
  ghost predicate Barred(s: Fabric, id: Id) {
    && (forall q, now, choice :: About(s, id, SubjectOf(q)) ==>
          Evaluate(s, q, now, choice).1.verdict.Rejected?)
    && (forall d: Decision, declared, now, tag :: About(s, id, d.subject) ==>
          C.OpenFlow(s, d, declared, now, tag) == Effect(s, Failure(ValidateDecision(s, d))))
    && (forall p: Publication, now :: p.request == id ==>
          var result := LedgerModel.PublishCompletion(s.ledger, p, now).result;
          result.Success? ==> !result.value.disposition.Committed?)
  }

  lemma DeadRejected(s: Fabric, id: Id, q: TrafficRequest, now: int, choice: Key)
    requires Dead(s, id) && About(s, id, SubjectOf(q))
    ensures Evaluate(s, q, now, choice).1.verdict.Rejected?
  {
    EvaluateRefinesFences(s, q, now, choice);
    if SubjectOf(q).Moving? { assert At(SubjectOf(q).transfer); }
  }

  lemma DeadInvalid(s: Fabric, id: Id, d: Decision)
    requires Dead(s, id) && About(s, id, d.subject)
    ensures !ValidateDecision(s, d).Ok?
  {
    if d.subject.Moving? { assert At(d.subject.transfer); }
  }

  lemma DeadUncommitted(l: Ledger, id: Id, p: Publication, now: int)
    requires id in l.requests && l.requests[id].lifecycle.Cancelled? && p.request == id
    ensures var result := LedgerModel.PublishCompletion(l, p, now).result;
      result.Success? ==> !result.value.disposition.Committed?
  {
  }

  lemma DeadIsBarred(s: Fabric, id: Id)
    requires Dead(s, id)
    ensures Barred(s, id)
  {
    forall q, now, choice | About(s, id, SubjectOf(q))
      ensures Evaluate(s, q, now, choice).1.verdict.Rejected?
    {
      DeadRejected(s, id, q, now, choice);
    }
    forall d: Decision, declared, now, tag | About(s, id, d.subject)
      ensures C.OpenFlow(s, d, declared, now, tag) == Effect(s, Failure(ValidateDecision(s, d)))
    {
      DeadInvalid(s, id, d);
    }
    forall p: Publication, now | p.request == id
      ensures var result := LedgerModel.PublishCompletion(s.ledger, p, now).result;
        result.Success? ==> !result.value.disposition.Committed?
    {
      DeadUncommitted(s.ledger, id, p, now);
    }
  }

  lemma {:induction false} DeadForever(s: Fabric, calls: seq<Call>, id: Id)
    requires Coherent(s) && Dead(s, id) && MintsDistinctly(s, calls) && Kept(s, calls, id)
    requires NeverUndone(s, calls, id)
    ensures Coherent(ActAll(s, calls)) && Dead(ActAll(s, calls), id)
    decreases |calls|
  {
    if calls == [] {
    } else {
      DeadStaysExactly(s, calls[0], id);
      DeadForever(Act(s, calls[0]), calls[1..], id);
    }
  }

  /**
   * After a successful cancellation, in every state any run reaches while the record is retained, the
   * request is cancelled and flowless, its transfers ended and flowless, and everything about it barred.
   */
  lemma CancellationIsFinal(s: Fabric, id: Id, reason: Reasons.Reason, now: int, calls: seq<Call>)
    requires Coherent(s) && C.CancelRequest(s, id, reason, now).result.Success?
    requires MintsDistinctly(C.CancelRequest(s, id, reason, now).fabric, calls)
    requires NeverUndone(C.CancelRequest(s, id, reason, now).fabric, calls, id)
    requires Kept(C.CancelRequest(s, id, reason, now).fabric, calls, id)
    ensures var end := ActAll(C.CancelRequest(s, id, reason, now).fabric, calls);
      Dead(end, id) && Barred(end, id)
  {
    CancelKills(s, id, reason, now);
    var s' := C.CancelRequest(s, id, reason, now).fabric;
    DeadForever(s', calls, id);
    DeadIsBarred(ActAll(s', calls), id);
  }

  ghost predicate DeadThroughout(s: Fabric, calls: seq<Call>, id: Id)
    decreases |calls|
  {
    Dead(s, id) && (calls != [] ==> DeadThroughout(Act(s, calls[0]), calls[1..], id))
  }

  /** Over a run that retains it, a dead request stays dead if and only if no call undoes it. */
  lemma {:induction false} DeadThroughoutExactly(s: Fabric, calls: seq<Call>, id: Id)
    requires Coherent(s) && Dead(s, id) && MintsDistinctly(s, calls) && Kept(s, calls, id)
    ensures DeadThroughout(s, calls, id) <==> NeverUndone(s, calls, id)
    decreases |calls|
  {
    if calls == [] {
    } else {
      KeptAlong(s, calls, id);
      DeadStaysExactly(s, calls[0], id);
      if !Undoes(s, calls[0], id) { DeadThroughoutExactly(Act(s, calls[0]), calls[1..], id); }
    }
  }

  lemma KeptAlong(s: Fabric, calls: seq<Call>, id: Id)
    requires Kept(s, calls, id) && calls != []
    ensures id in Act(s, calls[0]).ledger.requests
  {
  }

  // ---------------------------------------------------------------------------------------------
  // Refusals are irrevocable
  // ---------------------------------------------------------------------------------------------

  predicate Outdated(m: map<Word64, Registration>, h: Word64, g: Generation) {
    h in m && m[h].generation > g
  }

  /** Ended, or retired, or bound to a generation that has been passed. */
  ghost predicate Doomed(s: Fabric, x: Subject) {
    match x
    case Serving(id, a, _) =>
      id in s.ledger.requests
      && var r := s.ledger.requests[id];
         r.IsTerminal() || (!r.requiresRevalidation && Retired(r, a))
    case Moving(t) =>
      t in s.transfers
      && var r := s.transfers[t];
         || TransferEnded(r.state)
         || (r.modelHash != 0 && Outdated(s.models, r.modelHash, r.modelGeneration))
         || Outdated(s.states, r.stateHash, r.stateGeneration)
    case Unkinded(_) => false
  }

  /** Nothing about a doomed subject is permitted, whatever is asked. */
  lemma DoomedRejected(s: Fabric, x: Subject, q: TrafficRequest, now: int, choice: Key)
    requires Doomed(s, x) && SubjectOf(q) == x
    ensures Evaluate(s, q, now, choice).1.verdict.Rejected?
  {
    EvaluateRefinesFences(s, q, now, choice);
  }

  lemma DoomedInvalid(s: Fabric, x: Subject, d: Decision)
    requires Doomed(s, x) && d.subject == x
    ensures !ValidateDecision(s, d).Ok?
  {
  }

  lemma DoomedStep(s: Fabric, s': Fabric, named: set<Id>, x: Subject)
    requires Doomed(s, x) && Onward(s, s', named)
    requires x.Serving? ==> x.request in s'.ledger.requests
    ensures Doomed(s', x)
  {
    match x
    case Serving(id, a, _) => assert At(id) && At(a);
    case Moving(t) =>
      var r := s.transfers[t];
      assert At(t) && At<Word64>(r.modelHash) && At<Word64>(r.stateHash);
  }

  /** Once doomed, a subject is refused in every later state of the incarnation that retains it. */
  lemma {:induction false} RefusalsAreIrrevocable(s: Fabric, calls: seq<Call>, x: Subject)
    requires Coherent(s) && Doomed(s, x) && MintsDistinctly(s, calls)
    requires x.Serving? ==> Kept(s, calls, x.request)
    ensures Doomed(ActAll(s, calls), x)
    decreases |calls|
  {
    if calls == [] {
    } else {
      ActCoheres(s, calls[0]);
      ActOnward(s, calls[0]);
      DoomedStep(s, Act(s, calls[0]), Revalidates(calls[0]), x);
      RefusalsAreIrrevocable(Act(s, calls[0]), calls[1..], x);
    }
  }

  /** From then on no question about the subject is permitted and no decision about it opens anything. */
  lemma DoomedForever(s: Fabric, calls: seq<Call>, x: Subject)
    requires Coherent(s) && Doomed(s, x) && MintsDistinctly(s, calls)
    requires x.Serving? ==> Kept(s, calls, x.request)
    ensures var end := ActAll(s, calls);
      && (forall q, now, choice :: SubjectOf(q) == x ==> Evaluate(end, q, now, choice).1.verdict.Rejected?)
      && (forall d: Decision, declared, now, tag :: d.subject == x ==>
            C.OpenFlow(end, d, declared, now, tag) == Effect(end, Failure(ValidateDecision(end, d))))
  {
    RefusalsAreIrrevocable(s, calls, x);
    var end := ActAll(s, calls);
    forall q, now, choice | SubjectOf(q) == x
      ensures Evaluate(end, q, now, choice).1.verdict.Rejected?
    {
      DoomedRejected(end, x, q, now, choice);
    }
    forall d: Decision, declared, now, tag | d.subject == x
      ensures C.OpenFlow(end, d, declared, now, tag) == Effect(end, Failure(ValidateDecision(end, d)))
    {
      DoomedInvalid(end, x, d);
    }
  }
}
