/**
 * What each ledger call demands and what it leaves (src/ledger.cpp), without the order in which the code
 * asks: success exactly when every condition holds, the record it writes, and nothing else touched.
 */
module LedgerOperations {
  import opened Ids
  import opened Traffic
  import opened Reasons
  import opened LedgerModel
  import opened LedgerAccounting
  import opened LedgerRecords
  import opened LedgerCurrency
  import opened LedgerPublications
  import opened StageTable

  /** Only this record may differ; queue, flows, index and limits stand. */
  predicate OnlyRecord(s: Ledger, s': Ledger, id: Id) {
    && id in s'.requests && s'.requests == s.requests[id := s'.requests[id]]
    && s'.limits == s.limits && s'.terminalOrder == s.terminalOrder
    && s'.flows == s.flows && s'.index == s.index && s'.nextFlow == s.nextFlow
  }

  // ---------------------------------------------------------------------------------------------
  // Requests
  // ---------------------------------------------------------------------------------------------

  /** Known under its name since `now`, and nothing has happened to it. */
  predicate Pristine(r: Request, id: Id, now: int) {
    && r.id == id && r.generation == 1 && r.lifecycle.Registered? && r.stage.StageUnknown?
    && r.attempts == [] && r.currentAttempt.IsNil() && r.currentAttemptGeneration == 0
    && r.reason == UNKNOWN && r.registeredAt == now && r.terminalAt == 0
    && !r.requiresRevalidation && !r.accountingClosed
    && r.bytesIn == r.bytesOut == r.decisions == r.defers == r.rejections == r.activeFlows == r.authorityFloor == 0
  }

  lemma RegisterExactly(s: Ledger, id: Id, now: int)
    ensures var out := RegisterRequest(s, id, now);
      && (out.result.Success? <==> !id.IsNil() && id !in s.requests && LiveCount(s) < s.limits.maxLive)
      && (out.result.Failure? ==> out.ledger == s)
      && (out.result.Success? ==>
            && OnlyRecord(s, out.ledger, id) && Pristine(out.ledger.requests[id], id, now)
            && out.result.value == 1 && out.ledger.account.registered == s.account.registered + 1)
  {
  }

  // ---------------------------------------------------------------------------------------------
  // Attempts
  // ---------------------------------------------------------------------------------------------

  /** One more attempt, with the caller's model, is current and on no stage. */
  predicate Appended(r: Request, r': Request, a: Id, model: Word64, g: Generation, route: Generation, now: int) {
    && |r'.attempts| == |r.attempts| + 1 && r'.attempts[..|r.attempts|] == r.attempts
    && r'.currentAttempt == a && r'.currentAttemptGeneration == |r'.attempts| && r'.stage.StageUnknown?
    && var x := r'.attempts[|r.attempts|];
       && x.id == a && x.generation == |r'.attempts| && x.stage.StageUnknown? && x.lifecycle.AttemptRegistered?
       && x.modelHash == model && x.modelGeneration == g && x.routeGeneration == route
       && !x.successPublished && !x.failurePublished && x.reason == UNKNOWN
       && x.bytesIn == x.bytesOut == x.decisions == x.defers == x.rejections == 0
       && x.registeredAt == now && x.updatedAt == now
  }

  lemma BindExactly(s: Ledger, id: Id, a: Id, model: Word64, g: Generation, route: Generation, now: int)
    ensures var out := RegisterAttempt(s, id, a, model, g, route, now);
      && (out.result.Success? <==>
            && !a.IsNil() && id in s.requests && !s.requests[id].IsTerminal()
            && !s.requests[id].requiresRevalidation && (forall x | x in s.requests[id].attempts :: x.id != a)
            && |s.requests[id].attempts| < s.limits.maxAttempts)
      && (out.result.Failure? ==> out.ledger == s)
      && (out.result.Success? ==>
            var r, r' := s.requests[id], out.ledger.requests[id];
            && OnlyRecord(s, out.ledger, id) && Appended(r, r', a, model, g, route, now)
            && r' == r.(attempts := r'.attempts, currentAttempt := a, currentAttemptGeneration := |r'.attempts|,
                        stage := StageUnknown,
                        lifecycle := if r.lifecycle.Interrupted? then Active else r.lifecycle)
            && out.result.value == |r'.attempts|
            && out.ledger.account == s.account.(attemptsRegistered := s.account.attemptsRegistered + 1))
  {
    if id in s.requests { NotBound(s.requests[id].attempts, a); }
  }

  lemma NotBound(attempts: seq<Attempt>, a: Id)
    ensures Find(attempts, a) < 0 <==> forall x | x in attempts :: x.id != a
  {
    if Find(attempts, a) >= 0 { assert attempts[Find(attempts, a)] in attempts; }
  }

  lemma RevalidateExactly(s: Ledger, id: Id, a: Id, now: int)
    ensures var out := RevalidateRequest(s, id, a, now);
      && (out.result.Success? <==>
            && !a.IsNil() && id in s.requests && !s.requests[id].IsTerminal() && s.requests[id].requiresRevalidation
            && |s.requests[id].attempts| < s.limits.maxAttempts)
      && (out.result.Failure? ==> out.ledger == s)
      && (out.result.Success? ==>
            var r, r' := s.requests[id], out.ledger.requests[id];
            && OnlyRecord(s, out.ledger, id) && Appended(r, r', a, 0, 0, 0, now)
            && r' == r.(attempts := r'.attempts, currentAttempt := a, currentAttemptGeneration := |r'.attempts|,
                        stage := StageUnknown, lifecycle := Active, requiresRevalidation := false,
                        generation := r.generation + 1)
            && out.result.value == |r'.attempts|
            && out.ledger.account == s.account.(attemptsRegistered := s.account.attemptsRegistered + 1))
  {
  }

  /** The request can be acted on, and this is its current attempt, not yet ended. */
  predicate Workable(r: Request, a: Id) {
    && !r.IsTerminal() && !r.requiresRevalidation && r.IsCurrent(a)
    && Find(r.attempts, a) >= 0 && !AttemptTerminal(r.attempts[Find(r.attempts, a)].lifecycle)
  }

  lemma AdvanceExactly(s: Ledger, id: Id, a: Id, target: Stage, now: int)
    ensures var out := AdvanceStage(s, id, a, target, now);
      && (out.result.Success? <==>
            && id in s.requests && Workable(s.requests[id], a) && ServingActive(target)
            && MayFollow(s.requests[id].attempts[Find(s.requests[id].attempts, a)].stage, target))
      && (out.result.Failure? ==> out.ledger == s)
      && (out.result.Success? ==>
            var r, r', i := s.requests[id], out.ledger.requests[id], Find(s.requests[id].attempts, a);
            && OnlyRecord(s, out.ledger, id) && out.ledger.account == s.account
            && |r'.attempts| == |r.attempts|
            && r' == r.(attempts := r.attempts[i := r'.attempts[i]], stage := target,
                        lifecycle := if target.StageCompleting? then Completing else r.lifecycle)
            && r'.attempts[i] == r.attempts[i].(stage := target, updatedAt := now,
                 lifecycle := if target.StageCompleting? then AttemptDraining
                              else if r.attempts[i].lifecycle.AttemptRegistered? then AttemptActive
                              else r.attempts[i].lifecycle))
  {
    if id in s.requests && Find(s.requests[id].attempts, a) >= 0 {
      TransitionsAreTable(s.requests[id].attempts[Find(s.requests[id].attempts, a)].stage, target);
    }
  }

  /** Replacing the current attempt retires it, hands its model on, and starts a new request generation. */
  lemma ReplaceExactly(s: Ledger, id: Id, a: Id, b: Id, now: int)
    ensures var out := SupersedeAttempt(s, id, a, b, now);
      && (out.result.Success? <==>
            && !b.IsNil() && id in s.requests && !s.requests[id].IsTerminal() && s.requests[id].IsCurrent(a)
            && Find(s.requests[id].attempts, a) >= 0 && Find(s.requests[id].attempts, b) < 0
            && |s.requests[id].attempts| < s.limits.maxAttempts)
      && (out.result.Failure? ==> out.ledger == s)
      && (out.result.Success? ==>
            var r, r', i := s.requests[id], out.ledger.requests[id], Find(s.requests[id].attempts, a);
            var gone := r.attempts[i].(lifecycle := AttemptSuperseded, reason := ATTEMPT_SUPERSEDED, updatedAt := now);
            && OnlyRecord(s, out.ledger, id)
            && Appended(r.(attempts := r.attempts[i := gone]), r', b, gone.modelHash, gone.modelGeneration, 0, now)
            && r' == r.(attempts := r'.attempts, currentAttempt := b, currentAttemptGeneration := |r'.attempts|,
                        stage := StageUnknown, generation := r.generation + 1)
            && out.result.value == |r'.attempts|
            && out.ledger.account == s.account.(attemptsRegistered := s.account.attemptsRegistered + 1,
                                                attemptsSuperseded := s.account.attemptsSuperseded + 1))
  {
  }

  lemma RemodelExactly(s: Ledger, id: Id, a: Id, model: Word64, g: Generation)
    ensures var out := SetAttemptModel(s, id, a, model, g);
      && (out.result.Success? <==> id in s.requests && Find(s.requests[id].attempts, a) >= 0)
      && (out.result.Failure? ==> out.ledger == s)
      && (out.result.Success? ==>
            var r, r', i := s.requests[id], out.ledger.requests[id], Find(s.requests[id].attempts, a);
            && OnlyRecord(s, out.ledger, id) && out.ledger.account == s.account
            && r' == r.(attempts := r.attempts[i := r.attempts[i].(modelHash := model, modelGeneration := g)]))
  {
  }

  // ---------------------------------------------------------------------------------------------
  // Endings
  // ---------------------------------------------------------------------------------------------

  /** Retained records other than this one are as they were. */
  predicate OthersStand(s: Ledger, s': Ledger, id: Id) {
    forall k | k in s'.requests && k != id :: k in s.requests && s'.requests[k] == s.requests[k]
  }

  /** The attempt has failed for this reason, and the request with it. */
  predicate RecordFailed(r: Request, r': Request, i: nat, reason: Reason, now: int)
    requires i < |r.attempts|
  {
    && r' == r.(attempts := r.attempts[i := r.attempts[i].(
                  lifecycle := AttemptFailed, stage := StageFailed, failurePublished := true, reason := reason,
                  updatedAt := now)],
                lifecycle := Failed, stage := StageFailed, reason := reason, terminalAt := now,
                activeFlows := 0, accountingClosed := true)
  }

  lemma FailExactly(s: Ledger, id: Id, a: Id, reason: Reason, now: int)
    ensures var out := FailAttempt(s, id, a, reason, now);
      && (out.result.Success? <==>
            && id in s.requests && s.requests[id].IsCurrent(a) && Find(s.requests[id].attempts, a) >= 0
            && var l := s.requests[id].attempts[Find(s.requests[id].attempts, a)].lifecycle;
               l.AttemptFailed? || !AttemptTerminal(l))
      && (out.result.Failure? ==> out.ledger == s)
      && (out.result.Success? ==>
            var r, i := s.requests[id], Find(s.requests[id].attempts, a);
            && out.result.value == r.attempts[i].generation
            && (r.attempts[i].lifecycle.AttemptFailed? ==> out.ledger == s)
            && (!r.attempts[i].lifecycle.AttemptFailed? ==>
                  && OthersStand(s, out.ledger, id)
                  && (id in out.ledger.requests ==> RecordFailed(r, out.ledger.requests[id], i, reason, now))
                  && CountsEnding(s.account, out.ledger.account, 0, 0, 1)
                  && out.ledger.account.attemptsFailed == s.account.attemptsFailed + 1))
  {
    if id in s.requests {
      var r' := FailedRecord(s.requests[id], a, reason, now);
      if r'.Success? {
        var account := s.account.(attemptsFailed := s.account.attemptsFailed + 1, failed := s.account.failed + 1);
        EndRecords(s, id, r'.value, account);
        EndCounts(s, id, r'.value, account);
      }
    }
  }

  /** Every live attempt is cancelled for this reason; the ended ones are as they were. */
  predicate AttemptsCancelled(before: seq<Attempt>, after: seq<Attempt>, reason: Reason, now: int) {
    && |after| == |before|
    && forall i | 0 <= i < |before| ::
         && (AttemptTerminal(before[i].lifecycle) ==> after[i] == before[i])
         && (!AttemptTerminal(before[i].lifecycle) ==>
               after[i] == before[i].(lifecycle := AttemptCancelled, stage := StageCancelled, reason := reason,
                                      updatedAt := now))
  }

  /** Cancelling twice only raises the floor below which stamps are refused. */
  lemma CancelExactly(s: Ledger, id: Id, reason: Reason, sequence: Generation, now: int)
    ensures var out := CancelRequest(s, id, reason, sequence, now);
      && (out.result.Success? <==>
            id in s.requests && !s.requests[id].lifecycle.Completed? && !s.requests[id].lifecycle.Failed?)
      && (out.result.Failure? ==> out.ledger == s)
      && (out.result.Success? ==>
            var r := s.requests[id];
            && OthersStand(s, out.ledger, id)
            && (r.lifecycle.Cancelled? ==>
                  OnlyRecord(s, out.ledger, id) && out.ledger.account == s.account
                  && out.ledger.requests[id] == r.(authorityFloor := Max(r.authorityFloor, sequence)))
            && (!r.lifecycle.Cancelled? ==>
                  && CountsEnding(s.account, out.ledger.account, 0, 1, 0)
                  && (id in out.ledger.requests ==>
                        var r' := out.ledger.requests[id];
                        && AttemptsCancelled(r.attempts, r'.attempts, reason, now)
                        && r' == r.(attempts := r'.attempts, lifecycle := RequestLifecycle.Cancelled,
                                    stage := StageCancelled, reason := reason, terminalAt := now,
                                    requiresRevalidation := false, authorityFloor := Max(r.authorityFloor, sequence),
                                    activeFlows := 0, accountingClosed := true))))
  {
    if id in s.requests {
      var r', account := CancelledRecord(s.requests[id], reason, sequence, now),
                         s.account.(cancelled := s.account.cancelled + 1);
      EndRecords(s, id, r', account);
      EndCounts(s, id, r', account);
    }
  }

  /** An interruption withdraws live attempts and flows, and leaves the request to be confirmed. */
  lemma InterruptExactly(s: Ledger, id: Id, now: int)
    ensures var out := MarkInterrupted(s, id, now);
      && (out.result.Success? <==> id in s.requests)
      && (out.result.Failure? || s.requests[id].IsTerminal() ==> out.ledger == s)
      && (out.result.Success? && !s.requests[id].IsTerminal() ==>
            && id in out.ledger.requests && OthersStand(s, out.ledger, id)
            && out.ledger.requests.Keys == s.requests.Keys && out.ledger.terminalOrder == s.terminalOrder
            && out.ledger.account.interrupted == s.account.interrupted + 1
            && out.ledger.flows == s.flows - FlowIds(EntriesOf(s.index, id))
            && out.ledger.index == s.index - EntriesOf(s.index, id)
            && var r, r' := s.requests[id], out.ledger.requests[id];
               && |r'.attempts| == |r.attempts|
               && (forall i | 0 <= i < |r.attempts| ::
                     r'.attempts[i] == if AttemptTerminal(r.attempts[i].lifecycle) then r.attempts[i]
                       else r.attempts[i].(lifecycle := AttemptCancelled, reason := CANCELLED, updatedAt := now))
               && r' == r.(attempts := r'.attempts, lifecycle := Interrupted, requiresRevalidation := true,
                           activeFlows := 0, accountingClosed := false))
  {
  }

  // ---------------------------------------------------------------------------------------------
  // Flows
  // ---------------------------------------------------------------------------------------------

  lemma OpenExactly(s: Ledger, id: Id, a: Id, c: TrafficClass, declared: nat, now: int, tag: bv64)
    ensures var out := OpenFlow(s, id, a, c, declared, now, tag);
      && (out.result.Success? <==>
            && !c.ClassUnknown? && id in s.requests && Workable(s.requests[id], a)
            && s.requests[id].activeFlows < s.limits.maxFlowsPerRequest
            && s.account.activeTotal < s.limits.maxFlowsTotal)
      && (out.result.Failure? ==> out.ledger == s)
      && (out.result.Success? ==>
            var f, r := out.result.value, s.requests[id];
            && f == FlowId(s.nextFlow + 1, tag) && out.ledger.nextFlow == s.nextFlow + 1
            && out.ledger.flows == s.flows[f := LedgerFlow(id, c, declared, 0, now)]
            && out.ledger.index == s.index + {(id, f)}
            && out.ledger.requests == s.requests[id := r.(activeFlows := r.activeFlows + 1)]
            && out.ledger.account.activeTotal == s.account.activeTotal + 1
            && (forall k :: ClassCount(out.ledger.account.activeByClass, k) ==
                  ClassCount(s.account.activeByClass, k) + if k == c then 1 else 0)
            && out.ledger.terminalOrder == s.terminalOrder && out.ledger.limits == s.limits)
  {
  }

  /**
   * Bytes are added to the flow, and in the direction given to its request, unless a sum leaves 64 bits. When
   * only the request's sum does, the call fails after the flow was updated.
   */
  lemma BytesExactly(s: Ledger, f: FlowId, bytes: nat, inbound: bool)
    ensures var out := RecordFlowBytes(s, f, bytes, inbound);
      var fits := f in s.flows && s.flows[f].observedBytes + bytes < TWO_64;
      && (!fits ==> out.ledger == s && out.result.Failure?)
      && (fits ==>
            var id := s.flows[f].request;
            && out.ledger.flows == s.flows[f := s.flows[f].(observedBytes := s.flows[f].observedBytes + bytes)]
            && out.ledger == s.(flows := out.ledger.flows, requests := out.ledger.requests)
            && (out.result.Success? <==>
                  (id in s.requests ==>
                    (if inbound then s.requests[id].bytesIn else s.requests[id].bytesOut) + bytes < TWO_64))
            && (out.result.Failure? || id !in s.requests ==> out.ledger.requests == s.requests)
            && (out.result.Success? && id in s.requests ==>
                  var r := s.requests[id];
                  out.ledger.requests == s.requests[id :=
                    r.(bytesIn := r.bytesIn + (if inbound then bytes else 0),
                       bytesOut := r.bytesOut + (if inbound then 0 else bytes))]))
  {
  }

  // ---------------------------------------------------------------------------------------------
  // Limits and recovery
  // ---------------------------------------------------------------------------------------------

  /** Limits are taken as given, except that zero means one, and eight attempts where attempts are concerned. */
  lemma LimitsAreSane(l: Limits)
    ensures var n := Normalised(l);
      && n.maxLive > 0 && (l.maxLive > 0 ==> n.maxLive == l.maxLive) && (l.maxLive == 0 ==> n.maxLive == 1)
      && 0 < n.maxAttempts <= 8 && (0 < l.maxAttempts <= 8 ==> n.maxAttempts == l.maxAttempts)
      && (l.maxAttempts == 0 || l.maxAttempts > 8 ==> n.maxAttempts == 8)
      && n.maxRetained == l.maxRetained
      && n.maxFlowsPerRequest == Max(l.maxFlowsPerRequest, 1) && n.maxFlowsTotal == Max(l.maxFlowsTotal, 1)
  {
  }

  /** A record is restored exactly when it is usable and new; it is counted under the way it ended. */
  lemma RestoreExactly(s: Ledger, r: Request)
    ensures var out := RestoreRecord(s, r);
      && (out.result.Success? <==> !r.id.IsNil() && |r.attempts| <= 8 && r.id !in s.requests)
      && (out.result.Failure? ==> out.ledger == s)
      && (out.result.Success? ==>
            && OthersStand(s, out.ledger, r.id)
            && out.ledger.account.registered == s.account.registered + 1
            && out.ledger.account.completed == s.account.completed + (if r.lifecycle.Completed? then 1 else 0)
            && out.ledger.account.cancelled == s.account.cancelled + (if r.lifecycle.Cancelled? then 1 else 0)
            && out.ledger.account.failed == s.account.failed + (if r.lifecycle.Failed? then 1 else 0)
            && out.ledger.account.interrupted == s.account.interrupted + (if r.IsTerminal() then 0 else 1)
            && (!r.IsTerminal() ==> r.id in out.ledger.requests)
            && (r.id in out.ledger.requests ==>
                  out.ledger.requests[r.id] ==
                    if r.IsTerminal() then r.(activeFlows := 0, accountingClosed := true)
                    else r.(lifecycle := Interrupted, requiresRevalidation := true, activeFlows := 0,
                            accountingClosed := false)))
  {
    var put := s.(requests := s.requests[r.id := Restored(r)],
                  terminalOrder := if r.IsTerminal() then s.terminalOrder + [r.id] else s.terminalOrder,
                  account := RestoredAccount(s.account, r.lifecycle));
    EvictFramed(put);
    EvictCounts(put);
  }

  // ---------------------------------------------------------------------------------------------
  // Decision counts over runs
  // ---------------------------------------------------------------------------------------------

  predicate Decides(op: Op, id: Id) { op.OpDecision? && op.id == id }

  /** How many decisions of a run about the request had one of these outcomes. */
  function Decided(ops: seq<Op>, id: Id, outcomes: set<Verdict>): nat
    decreases |ops|
  {
    if ops == [] then 0
    else (if Decides(ops[0], id) && ops[0].verdict in outcomes then 1 else 0) + Decided(ops[1..], id, outcomes)
  }

  predicate SameCounts(r: Request, r': Request) {
    r'.decisions == r.decisions && r'.defers == r.defers && r'.rejections == r.rejections
  }

  lemma DecisionCounts(s: Ledger, op: Op, id: Id)
    requires Decides(op, id) && id in s.requests
    ensures var r, r' := s.requests[id], Step(s, op).requests[id];
      && r'.decisions == r.decisions + 1
      && r'.defers == r.defers + (if op.verdict.Deferred? then 1 else 0)
      && r'.rejections == r.rejections + (if op.verdict.Rejected? then 1 else 0)
      && |r'.attempts| == |r.attempts|
      && (forall i | 0 <= i < |r.attempts| ::
            var a := r.attempts[i];
            r'.attempts[i] == if i != Find(r.attempts, op.attempt) then a
              else a.(decisions := a.decisions + 1, defers := a.defers + (if op.verdict.Deferred? then 1 else 0),
                      rejections := a.rejections + (if op.verdict.Rejected? then 1 else 0)))
  {
  }

  lemma OthersCountNothing(s: Ledger, op: Op, id: Id)
    requires !Decides(op, id) && id in s.requests && id in Step(s, op).requests
    ensures SameCounts(s.requests[id], Step(s, op).requests[id])
  {
    match op
    case OpFail(x, a, reason, now) => FailExactly(s, x, a, reason, now);
    case OpCancel(x, reason, sequence, now) => CancelExactly(s, x, reason, sequence, now);
    case OpPublish(p, now) => PublicationCountsNothing(s, p, now, id);
    case OpRestore(r) => RestoreSpares(s, r, id);
    case OpOpen(_, _, _, _, _, _) => FlowsCountNothing(s, op, id);
    case OpRelease(_) => FlowsCountNothing(s, op, id);
    case OpBytes(_, _, _) => FlowsCountNothing(s, op, id);
    case OpInterrupt(_, _) => FlowsCountNothing(s, op, id);
    case _ => RewritingCountsNothing(s, op, id);
  }

  lemma FlowsCountNothing(s: Ledger, op: Op, id: Id)
    requires op.OpOpen? || op.OpRelease? || op.OpBytes? || op.OpInterrupt?
    requires id in s.requests && id in Step(s, op).requests
    ensures SameCounts(s.requests[id], Step(s, op).requests[id])
  {
  }

  lemma RewritingCountsNothing(s: Ledger, op: Op, id: Id)
    requires op.OpRegister? || op.OpAttempt? || op.OpRevalidate? || op.OpAdvance? || op.OpSupersede? || op.OpSetModel?
             || (op.OpDecision? && op.id != id)
    requires id in s.requests && id in Step(s, op).requests
    ensures SameCounts(s.requests[id], Step(s, op).requests[id])
  {
  }

  lemma PublicationCountsNothing(s: Ledger, p: Publication, now: int, id: Id)
    requires id in s.requests && id in PublishCompletion(s, p, now).ledger.requests
    ensures SameCounts(s.requests[id], PublishCompletion(s, p, now).ledger.requests[id])
  {
    if !p.request.IsNil() && !p.attempt.IsNil() && p.request in s.requests {
      PublicationExactly(s, p, now);
      if Committable(s.requests[p.request], p) { CommitLeaves(s, p, now); }
    } else {
      UnknownPublication(s, p, now);
    }
  }

  /** Over a run that retains it, a request's counters grow by exactly the decisions made about it. */
  lemma {:induction false} DecisionsAreCounted(s: Ledger, ops: seq<Op>, id: Id)
    requires Retained(s, ops, id)
    ensures id in Run(s, ops).requests
    ensures var r, r' := s.requests[id], Run(s, ops).requests[id];
      && r'.decisions == r.decisions + Decided(ops, id, {Allowed, Degraded, Deferred, Rejected})
      && r'.defers == r.defers + Decided(ops, id, {Deferred})
      && r'.rejections == r.rejections + Decided(ops, id, {Rejected})
    decreases |ops|
  {
    if ops == [] {
    } else {
      if Decides(ops[0], id) {
        DecisionCounts(s, ops[0], id);
      } else {
        OthersCountNothing(s, ops[0], id);
      }
      DecisionsAreCounted(Step(s, ops[0]), ops[1..], id);
    }
  }
}
