/**
 * The ledger as the source keeps it: an object whose operations update its maps, queue and counters in
 * place. Every operation is proved to compute the function of the same name in `LedgerModel`.
 */
module RequestLedgers {
  import opened Ids
  import opened Traffic
  import opened Reasons
  import opened LedgerModel
  import opened LedgerAccounting
  import M = LedgerModel

  class RequestLedger {
    var limits: Limits
    var requests: map<Id, Request>
    var terminalOrder: seq<Id>
    var flows: map<FlowId, LedgerFlow>
    var index: set<(Id, FlowId)>
    var nextFlow: nat
    var account: Account

    function State(): Ledger
      reads this
    {
      Ledger(limits, requests, terminalOrder, flows, index, nextFlow, account)
    }

    constructor (given: Limits)
      ensures State() == EmptyLedger(given)
    {
      var max := given.maxAttempts;
      if max == 0 || max > MAX_ATTEMPTS { max := MAX_ATTEMPTS; }
      limits := Limits(if given.maxLive == 0 then 1 else given.maxLive, max, given.maxRetained,
                       if given.maxFlowsPerRequest == 0 then 1 else given.maxFlowsPerRequest,
                       if given.maxFlowsTotal == 0 then 1 else given.maxFlowsTotal);
      requests, terminalOrder, flows, index, nextFlow := map[], [], map[], {}, 0;
      account := NO_ACCOUNT;
    }

    method Clear()
      modifies this
      ensures State() == Ledger(old(limits), map[], [], map[], {}, 0, NO_ACCOUNT)
    {
      requests, terminalOrder, flows, index, nextFlow := map[], [], map[], {}, 0;
      account := NO_ACCOUNT;
    }

    static method FindAttempt(attempts: seq<Attempt>, a: Id) returns (i: int)
      ensures i == Find(attempts, a)
    {
      var k := 0;
      while k < |attempts|
        invariant 0 <= k <= |attempts|
        invariant forall j | 0 <= j < k :: attempts[j].id != a
      {
        if attempts[k].id == a { return k; }
        k := k + 1;
      }
      return -1;
    }

    // -------------------------------------------------------------------------------------------
    // Flow accounting
    // -------------------------------------------------------------------------------------------

    method AccountFlowOpen(c: TrafficClass)
      modifies this`account
      ensures account == old(account).(
        activeTotal := old(account).activeTotal + 1,
        activeByClass := old(account).activeByClass[c := ClassCount(old(account).activeByClass, c) + 1])
    {
      account := account.(activeTotal := account.activeTotal + 1);
      account := account.(activeByClass := account.activeByClass[
        c := ClassCount(account.activeByClass, c) + 1]);
    }

    /** Both counters are guarded at zero. */
    method AccountFlowClose(c: TrafficClass)
      modifies this`account
      ensures account == Decremented(old(account), c)
    {
      if account.activeTotal > 0 { account := account.(activeTotal := account.activeTotal - 1); }
      if c in account.activeByClass && account.activeByClass[c] > 0 {
        account := account.(activeByClass := account.activeByClass[c := account.activeByClass[c] - 1]);
      }
    }

    /** One turn of the release loops: drops an index entry and closes its flow if it is live. */
    method CloseEntry(p: (Id, FlowId), ghost s: Ledger, ghost closed: set<(Id, FlowId)>)
      requires State() == CloseFlows(s, closed)
      modifies this
      ensures State() == CloseFlows(s, closed + {p})
    {
      CloseOneMore(s, closed, p);
      if p.1 in flows {
        AccountFlowClose(flows[p.1].traffic);
        flows := flows - {p.1};
      }
      index := index - {p};
    }

    method ReleaseRequestFlows(id: Id)
      requires id in requests
      modifies this
      ensures State() == M.ReleaseRequestFlows(old(State()), id, old(requests[id]))
    {
      ghost var before := State();
      var pending := set p | p in index && p.0 == id;
      ghost var closed: set<(Id, FlowId)> := {};
      CloseNothing(before);
      while pending != {}
        invariant pending !! closed && pending + closed == EntriesOf(before.index, id)
        invariant State() == CloseFlows(before, closed)
        decreases pending
      {
        var p :| p in pending;
        CloseEntry(p, before, closed);
        pending := pending - {p};
        closed := closed + {p};
      }
      requests := requests[id := requests[id].(activeFlows := 0, accountingClosed := true)];
    }

    method RefreshRequestCounts()
      modifies this`account
      ensures State() == Refresh(old(State()))
    {
      account := account.(retained := |terminalOrder|,
                          live := if |requests| > |terminalOrder| then |requests| - |terminalOrder| else 0);
    }

    method EvictIfNeeded()
      modifies this
      ensures State() == Evict(old(State()))
    {
      while |terminalOrder| > limits.maxRetained
        invariant Evict(State()) == Evict(old(State()))
        decreases |terminalOrder|
      {
        var victim := terminalOrder[0];
        terminalOrder := terminalOrder[1..];
        if victim in requests && requests[victim].IsTerminal() {
          requests := requests - {victim};
          account := account.(evicted := account.evicted + 1);
        }
      }
      RefreshRequestCounts();
    }

    // -------------------------------------------------------------------------------------------
    // Requests and attempts
    // -------------------------------------------------------------------------------------------

    method RegisterRequest(id: Id, now: int) returns (result: Result<Generation>)
      modifies this
      ensures Outcome(State(), result) == M.RegisterRequest(old(State()), id, now)
    {
      if id.IsNil() { return Failure(InvalidArgument); }
      if id in requests {
        if requests[id].IsTerminal() { return Failure(Conflict); }
        return Failure(AlreadyExists);
      }
      var live := SubWrap(|requests|, |terminalOrder|);
      if live >= limits.maxLive { return Failure(CapacityExhausted); }
      requests := requests[id := NewRequest(id, now)];
      account := account.(registered := account.registered + 1);
      RefreshRequestCounts();
      return Success(1);
    }

    method RegisterAttempt(id: Id, a: Id, modelHash: Word64, modelGeneration: Generation,
                           routeGeneration: Generation, now: int) returns (result: Result<Generation>)
      modifies this
      ensures Outcome(State(), result)
        == M.RegisterAttempt(old(State()), id, a, modelHash, modelGeneration, routeGeneration, now)
    {
      if a.IsNil() { return Failure(InvalidArgument); }
      if id !in requests { return Failure(NotFound); }
      var r := requests[id];
      if r.IsTerminal() { return Failure(Conflict); }
      if r.requiresRevalidation { return Failure(RevalidationRequired); }
      var i := FindAttempt(r.attempts, a);
      if i >= 0 { return Failure(AlreadyExists); }
      if |r.attempts| >= limits.maxAttempts { return Failure(CapacityExhausted); }
      var entry := NewAttempt(a, |r.attempts| + 1, modelHash, modelGeneration, routeGeneration, now);
      r := r.(attempts := r.attempts + [entry], currentAttempt := a,
              currentAttemptGeneration := entry.generation, stage := StageUnknown);
      if r.lifecycle.Interrupted? { r := r.(lifecycle := Active); }
      requests := requests[id := r];
      account := account.(attemptsRegistered := account.attemptsRegistered + 1);
      return Success(entry.generation);
    }

    method RevalidateRequest(id: Id, a: Id, now: int) returns (result: Result<Generation>)
      modifies this
      ensures Outcome(State(), result) == M.RevalidateRequest(old(State()), id, a, now)
    {
      if id !in requests { return Failure(NotFound); }
      var r := requests[id];
      if r.IsTerminal() { return Failure(Conflict); }
      if !r.requiresRevalidation { return Failure(Conflict); }
      if a.IsNil() { return Failure(InvalidArgument); }
      if |r.attempts| >= limits.maxAttempts { return Failure(CapacityExhausted); }
      var entry := NewAttempt(a, |r.attempts| + 1, 0, 0, 0, now);
      r := r.(attempts := r.attempts + [entry], currentAttempt := a,
              currentAttemptGeneration := entry.generation, stage := StageUnknown,
              lifecycle := Active, requiresRevalidation := false, generation := r.generation + 1);
      requests := requests[id := r];
      account := account.(attemptsRegistered := account.attemptsRegistered + 1);
      return Success(entry.generation);
    }

    method AdvanceStage(id: Id, a: Id, target: Stage, now: int) returns (result: Result<()>)
      modifies this
      ensures Outcome(State(), result) == M.AdvanceStage(old(State()), id, a, target, now)
    {
      if StageTerminal(target) { return Failure(InvalidArgument); }
      if target.StageUnknown? { return Failure(InvalidArgument); }
      if id !in requests { return Failure(NotFound); }
      var r := requests[id];
      if r.lifecycle.Cancelled? { return Failure(Status.Cancelled); }
      if r.IsTerminal() { return Failure(Conflict); }
      if r.requiresRevalidation { return Failure(RevalidationRequired); }
      var i := FindAttempt(r.attempts, a);
      if i < 0 { return Failure(NotFound); }
      if !r.IsCurrent(a) { return Failure(StaleGeneration); }
      var entry := r.attempts[i];
      if AttemptTerminal(entry.lifecycle) { return Failure(Conflict); }
      if !LegalTransition(entry.stage, target) { return Failure(InvalidTransition); }
      entry := entry.(stage := target, updatedAt := now);
      if entry.lifecycle.AttemptRegistered? { entry := entry.(lifecycle := AttemptActive); }
      if target.StageCompleting? { entry := entry.(lifecycle := AttemptDraining); }
      r := r.(attempts := r.attempts[i := entry], stage := target);
      if target.StageCompleting? { r := r.(lifecycle := Completing); }
      requests := requests[id := r];
      return Success(());
    }

    method FailAttempt(id: Id, a: Id, reason: Reason, now: int) returns (result: Result<Generation>)
      modifies this
      ensures Outcome(State(), result) == M.FailAttempt(old(State()), id, a, reason, now)
    {
      if id !in requests { return Failure(NotFound); }
      var r := requests[id];
      var i := FindAttempt(r.attempts, a);
      if i < 0 { return Failure(NotFound); }
      if !r.IsCurrent(a) { return Failure(StaleGeneration); }
      var entry := r.attempts[i];
      if AttemptTerminal(entry.lifecycle) {
        if entry.lifecycle.AttemptFailed? { return Success(entry.generation); }
        return Failure(Conflict);
      }
      entry := entry.(lifecycle := AttemptFailed, stage := StageFailed, failurePublished := true,
                      reason := reason, updatedAt := now);
      r := r.(attempts := r.attempts[i := entry], lifecycle := Failed, stage := StageFailed,
              reason := reason, terminalAt := now);
      requests := requests[id := r];
      EndStored(id, account.(attemptsFailed := account.attemptsFailed + 1, failed := account.failed + 1),
                old(State()), r);
      return Success(entry.generation);
    }

    /** Releases the flows of the record just stored, queues it and evicts. */
    method EndStored(id: Id, counted: Account, ghost s: Ledger, ghost r: Request)
      requires State() == s.(requests := s.requests[id := r])
      requires counted.activeTotal == account.activeTotal && counted.activeByClass == account.activeByClass
      modifies this
      ensures State() == M.End(s, id, r, counted)
    {
      ReleaseRequestFlows(id);
      ghost var released := State();
      assert released == M.ReleaseRequestFlows(s, id, r);
      terminalOrder := terminalOrder + [id];
      account := counted.(activeTotal := account.activeTotal, activeByClass := account.activeByClass);
      assert State() == released.(terminalOrder := terminalOrder, account := account);
      EvictIfNeeded();
    }

    method SupersedeAttempt(id: Id, a: Id, replacement: Id, now: int) returns (result: Result<Generation>)
      modifies this
      ensures Outcome(State(), result) == M.SupersedeAttempt(old(State()), id, a, replacement, now)
    {
      if replacement.IsNil() { return Failure(InvalidArgument); }
      if id !in requests { return Failure(NotFound); }
      var r := requests[id];
      if r.IsTerminal() { return Failure(Conflict); }
      var i := FindAttempt(r.attempts, a);
      if i < 0 { return Failure(NotFound); }
      if !r.IsCurrent(a) { return Failure(StaleGeneration); }
      var j := FindAttempt(r.attempts, replacement);
      if j >= 0 { return Failure(AlreadyExists); }
      if |r.attempts| >= limits.maxAttempts { return Failure(CapacityExhausted); }
      var entry := r.attempts[i].(lifecycle := AttemptSuperseded, reason := ATTEMPT_SUPERSEDED,
                                  updatedAt := now);
      var added := NewAttempt(replacement, |r.attempts| + 1, entry.modelHash, entry.modelGeneration, 0, now);
      r := r.(attempts := r.attempts[i := entry]);
      r := r.(attempts := r.attempts + [added], currentAttempt := replacement,
              currentAttemptGeneration := added.generation, stage := StageUnknown,
              generation := r.generation + 1);
      requests := requests[id := r];
      account := account.(attemptsSuperseded := account.attemptsSuperseded + 1,
                          attemptsRegistered := account.attemptsRegistered + 1);
      return Success(added.generation);
    }

    method SetAttemptModel(id: Id, a: Id, modelHash: Word64, modelGeneration: Generation)
      returns (result: Result<()>)
      modifies this
      ensures Outcome(State(), result) == M.SetAttemptModel(old(State()), id, a, modelHash, modelGeneration)
    {
      if id !in requests { return Failure(NotFound); }
      var r := requests[id];
      var i := FindAttempt(r.attempts, a);
      if i < 0 { return Failure(NotFound); }
      requests := requests[id := r.(attempts := r.attempts[i :=
        r.attempts[i].(modelHash := modelHash, modelGeneration := modelGeneration)])];
      return Success(());
    }

    method CancelRequest(id: Id, reason: Reason, sequence: Generation, now: int) returns (result: Result<()>)
      modifies this
      ensures Outcome(State(), result) == M.CancelRequest(old(State()), id, reason, sequence, now)
    {
      if id !in requests { return Failure(NotFound); }
      var r := requests[id];
      ghost var before := r;
      if r.lifecycle.Cancelled? {
        if sequence != 0 && sequence > r.authorityFloor { r := r.(authorityFloor := sequence); }
        requests := requests[id := r];
        return Success(());
      }
      if r.IsTerminal() { return Failure(Conflict); }
      r := r.(lifecycle := RequestLifecycle.Cancelled, stage := StageCancelled, reason := reason,
              terminalAt := now, requiresRevalidation := false);
      if sequence != 0 && sequence > r.authorityFloor { r := r.(authorityFloor := sequence); }
      var k := 0;
      while k < |r.attempts|
        invariant 0 <= k <= |r.attempts| == |before.attempts|
        invariant r == CancelledRecord(before, reason, sequence, now).(attempts := r.attempts)
        invariant forall j | 0 <= j < k ::
          r.attempts[j] == CancelledAttempt(before.attempts[j], reason, now)
        invariant forall j | k <= j < |r.attempts| :: r.attempts[j] == before.attempts[j]
      {
        var entry := r.attempts[k];
        if !AttemptTerminal(entry.lifecycle) {
          entry := entry.(lifecycle := AttemptCancelled, stage := StageCancelled, reason := reason,
                          updatedAt := now);
          r := r.(attempts := r.attempts[k := entry]);
        }
        k := k + 1;
      }
      assert r.attempts == CancelledRecord(before, reason, sequence, now).attempts;
      requests := requests[id := r];
      EndStored(id, account.(cancelled := account.cancelled + 1), old(State()), r);
      return Success(());
    }

    method MarkInterrupted(id: Id, now: int) returns (result: Result<()>)
      modifies this
      ensures Outcome(State(), result) == M.MarkInterrupted(old(State()), id, now)
    {
      if id !in requests { return Failure(NotFound); }
      var r := requests[id];
      ghost var before := r;
      if r.IsTerminal() { return Success(()); }
      r := r.(lifecycle := Interrupted, requiresRevalidation := true);
      var k := 0;
      while k < |r.attempts|
        invariant 0 <= k <= |r.attempts| == |before.attempts|
        invariant r == InterruptedRecord(before, now).(attempts := r.attempts)
        invariant forall j | 0 <= j < k :: r.attempts[j] == InterruptedAttempt(before.attempts[j], now)
        invariant forall j | k <= j < |r.attempts| :: r.attempts[j] == before.attempts[j]
      {
        var entry := r.attempts[k];
        if !AttemptTerminal(entry.lifecycle) {
          entry := entry.(lifecycle := AttemptCancelled, reason := CANCELLED, updatedAt := now);
          r := r.(attempts := r.attempts[k := entry]);
        }
        k := k + 1;
      }
      assert r.attempts == InterruptedRecord(before, now).attempts;
      requests := requests[id := r];
      ReleaseRequestFlows(id);
      requests := requests[id := requests[id].(accountingClosed := false)];
      account := account.(interrupted := account.interrupted + 1);
      return Success(());
    }

    // -------------------------------------------------------------------------------------------
    // Publication
    // -------------------------------------------------------------------------------------------

    method PublishCompletion(p: Publication, now: int) returns (result: Result<PublishOutcome>)
      modifies this
      ensures Outcome(State(), result) == M.PublishCompletion(old(State()), p, now)
    {
      if p.request.IsNil() || p.attempt.IsNil() { return Failure(InvalidArgument); }
      if p.request !in requests { return Failure(NotFound); }
      var r := requests[p.request];
      var i := FindAttempt(r.attempts, p.attempt);
      var code, reason := Ok, UNKNOWN;
      if i < 0 {
        code, reason := StaleGeneration, REJECTED_UNKNOWN_ATTEMPT;
      } else if p.attemptGeneration != 0 && p.attemptGeneration != r.attempts[i].generation {
        code, reason := StaleGeneration, REJECTED_STALE_ATTEMPT;
      } else if r.lifecycle.Cancelled? {
        code, reason := Status.Cancelled, REJECTED_REQUEST_CANCELLED;
      } else if r.lifecycle.Completed? {
        result := SuppressPublication();
        return;
      } else if r.IsTerminal() {
        code, reason := Conflict, REJECTED_REQUEST_TERMINAL;
      } else if r.attempts[i].lifecycle.AttemptSuperseded? {
        code, reason := StaleGeneration, REJECTED_STALE_ATTEMPT;
      } else if r.attempts[i].lifecycle.AttemptFailed? {
        code, reason := Conflict, ATTEMPT_FAILED;
      } else if r.attempts[i].lifecycle.AttemptCancelled? {
        code, reason := Status.Cancelled, REJECTED_REQUEST_CANCELLED;
      }
      if code != Ok {
        account := account.(refused := account.refused + 1);
        return Success(PublishOutcome(PublishRefused, code, reason, 0, 0, 0));
      }
      if (if p.success then r.attempts[i].successPublished else r.attempts[i].failurePublished) {
        result := SuppressPublication();
        return;
      }
      result := CommitPublication(i, p, now);
    }

    method SuppressPublication() returns (result: Result<PublishOutcome>)
      modifies this`account
      ensures account == old(account).(suppressed := old(account).suppressed + 1)
      ensures result == Success(PublishOutcome(DuplicateSuppressed, Ok, DUPLICATE_COMPLETION_SUPPRESSED,
                                               0, 0, 0))
    {
      account := account.(suppressed := account.suppressed + 1);
      return Success(PublishOutcome(DuplicateSuppressed, Ok, DUPLICATE_COMPLETION_SUPPRESSED, 0, 0, 0));
    }

    method CommitPublication(i: nat, p: Publication, now: int) returns (result: Result<PublishOutcome>)
      requires p.request in requests && i < |requests[p.request].attempts|
      modifies this
      ensures State() == M.End(old(State()), p.request,
                               CommittedRecord(old(requests[p.request]), i, p, now),
                               CommitAccount(old(account), p.success))
      ensures result == Success(
        if p.success then PublishOutcome(Committed, Ok, COMMITTED_COMPLETION, p.bytesIn, p.bytesOut,
                                         old(requests[p.request]).activeFlows)
        else PublishOutcome(Committed, Ok, ATTEMPT_FAILED, 0, 0, 0))
    {
      var r := requests[p.request];
      var entry := r.attempts[i];
      entry := entry.(updatedAt := now, bytesIn := Max(entry.bytesIn, p.bytesIn),
                      bytesOut := Max(entry.bytesOut, p.bytesOut));
      var outcome;
      if p.success {
        entry := entry.(successPublished := true, lifecycle := AttemptCompleted, stage := StageCompleted);
        r := r.(lifecycle := Completed, stage := StageCompleted, reason := COMMITTED_COMPLETION);
        outcome := PublishOutcome(Committed, Ok, COMMITTED_COMPLETION, p.bytesIn, p.bytesOut, r.activeFlows);
      } else {
        var reason := if p.reason == UNKNOWN then ATTEMPT_FAILED else p.reason;
        entry := entry.(failurePublished := true, lifecycle := AttemptFailed, stage := StageFailed,
                        reason := reason);
        r := r.(lifecycle := Failed, stage := StageFailed, reason := reason);
        outcome := PublishOutcome(Committed, Ok, ATTEMPT_FAILED, 0, 0, 0);
      }
      r := r.(attempts := r.attempts[i := entry], terminalAt := now,
              bytesIn := Max(r.bytesIn, p.bytesIn), bytesOut := Max(r.bytesOut, p.bytesOut));
      requests := requests[p.request := r];
      EndStored(p.request, CommitAccount(account, p.success), old(State()), r);
      return Success(outcome);
    }

    // -------------------------------------------------------------------------------------------
    // Flows
    // -------------------------------------------------------------------------------------------

    method OpenFlow(id: Id, a: Id, c: TrafficClass, declared: nat, now: int) returns (result: Result<FlowId>)
      modifies this
      ensures Outcome(State(), result)
        == M.OpenFlow(old(State()), id, a, c, declared, now, FlowTag(id, a, c))
    {
      result := OpenTaggedFlow(id, a, c, declared, now, FlowTag(id, a, c));
    }

    method OpenTaggedFlow(id: Id, a: Id, c: TrafficClass, declared: nat, now: int, tag: bv64)
      returns (result: Result<FlowId>)
      modifies this
      ensures Outcome(State(), result) == M.OpenFlow(old(State()), id, a, c, declared, now, tag)
    {
      if c.ClassUnknown? { return Failure(InvalidArgument); }
      if id !in requests { return Failure(NotFound); }
      var r := requests[id];
      if r.lifecycle.Cancelled? { return Failure(Status.Cancelled); }
      if r.IsTerminal() { return Failure(Conflict); }
      if r.requiresRevalidation { return Failure(RevalidationRequired); }
      var i := FindAttempt(r.attempts, a);
      if i < 0 { return Failure(NotFound); }
      if !r.IsCurrent(a) { return Failure(StaleGeneration); }
      if r.attempts[i].lifecycle.AttemptSuperseded? { return Failure(StaleGeneration); }
      if AttemptTerminal(r.attempts[i].lifecycle) { return Failure(Conflict); }
      if r.activeFlows >= limits.maxFlowsPerRequest { return Failure(CapacityExhausted); }
      if account.activeTotal >= limits.maxFlowsTotal { return Failure(CapacityExhausted); }
      var flow := MintFlow(id, c, declared, now, tag);
      return Success(flow);
    }

    method MintFlow(id: Id, c: TrafficClass, declared: nat, now: int, tag: bv64) returns (flow: FlowId)
      requires id in requests
      modifies this
      ensures flow == FlowId(old(nextFlow) + 1, tag)
      ensures State() == WithFlow(old(State()), flow, LedgerFlow(id, c, declared, 0, now))
    {
      nextFlow := nextFlow + 1;
      flow := FlowId(nextFlow, tag);
      flows := flows[flow := LedgerFlow(id, c, declared, 0, now)];
      index := index + {(id, flow)};
      requests := requests[id := requests[id].(activeFlows := requests[id].activeFlows + 1)];
      AccountFlowOpen(c);
    }

    method ReleaseFlow(f: FlowId) returns (result: Result<()>)
      modifies this
      ensures Outcome(State(), result) == M.ReleaseFlow(old(State()), f)
    {
      if f !in flows { return Failure(NotFound); }
      var flow := flows[f];
      CloseNothing(State());
      CloseEntry((flow.request, f), State(), {});
      if flow.request in requests && requests[flow.request].activeFlows > 0 {
        requests := requests[flow.request :=
          requests[flow.request].(activeFlows := requests[flow.request].activeFlows - 1)];
      }
      return Success(());
    }

    method RecordFlowBytes(f: FlowId, bytes: nat, inbound: bool) returns (result: Result<()>)
      modifies this
      ensures Outcome(State(), result) == M.RecordFlowBytes(old(State()), f, bytes, inbound)
    {
      if f !in flows { return Failure(NotFound); }
      var flow := flows[f];
      if flow.observedBytes + bytes >= TWO_64 { return Failure(BoundsExceeded); }
      flows := flows[f := flow.(observedBytes := flow.observedBytes + bytes)];
      if flow.request !in requests { return Success(()); }
      var r := requests[flow.request];
      if inbound {
        if r.bytesIn + bytes >= TWO_64 { return Failure(BoundsExceeded); }
        r := r.(bytesIn := r.bytesIn + bytes);
      } else {
        if r.bytesOut + bytes >= TWO_64 { return Failure(BoundsExceeded); }
        r := r.(bytesOut := r.bytesOut + bytes);
      }
      requests := requests[flow.request := r];
      return Success(());
    }

    method RecordDecision(id: Id, a: Id, v: Verdict) returns (result: Result<()>)
      modifies this
      ensures Outcome(State(), result) == M.RecordDecision(old(State()), id, a, v)
    {
      if id !in requests { return Failure(NotFound); }
      var r := requests[id];
      var defers := if v.Deferred? then 1 else 0;
      var rejections := if v.Rejected? then 1 else 0;
      var i := FindAttempt(r.attempts, a);
      if i >= 0 {
        var entry := r.attempts[i];
        r := r.(attempts := r.attempts[i :=
          entry.(decisions := entry.decisions + 1, defers := entry.defers + defers,
                 rejections := entry.rejections + rejections)]);
      }
      requests := requests[id := r.(decisions := r.decisions + 1, defers := r.defers + defers,
                                    rejections := r.rejections + rejections)];
      return Success(());
    }

    // -------------------------------------------------------------------------------------------
    // Recovery and export
    // -------------------------------------------------------------------------------------------

    method RestoreRecord(r: Request) returns (result: Result<()>)
      modifies this
      ensures Outcome(State(), result) == M.RestoreRecord(old(State()), r)
    {
      if r.id.IsNil() { return Failure(InvalidArgument); }
      if |r.attempts| > MAX_ATTEMPTS { return Failure(MalformedInput); }
      if r.id in requests { return Failure(AlreadyExists); }
      var restored := r;
      if r.IsTerminal() {
        restored := restored.(accountingClosed := true, activeFlows := 0);
        terminalOrder := terminalOrder + [r.id];
        if r.lifecycle.Completed? { account := account.(completed := account.completed + 1); }
        if r.lifecycle.Cancelled? { account := account.(cancelled := account.cancelled + 1); }
        if r.lifecycle.Failed? { account := account.(failed := account.failed + 1); }
      } else {
        restored := restored.(lifecycle := Interrupted, requiresRevalidation := true, activeFlows := 0,
                              accountingClosed := false);
        account := account.(interrupted := account.interrupted + 1);
      }
      account := account.(registered := account.registered + 1);
      requests := requests[restored.id := restored];
      EvictIfNeeded();
      return Success(());
    }

    method ExportTerminalRecords(max: nat) returns (out: seq<Request>)
      ensures out == ExportTerminal(State(), terminalOrder, max)
    {
      out := [];
      var k := |terminalOrder|;
      assert terminalOrder[..k] == terminalOrder;
      while k > 0 && |out| < max
        invariant 0 <= k <= |terminalOrder| && |out| <= max
        invariant ExportTerminal(State(), terminalOrder, max)
          == out + ExportTerminal(State(), terminalOrder[..k], max - |out|)
      {
        k := k - 1;
        var id := terminalOrder[k];
        assert terminalOrder[..k + 1][..k] == terminalOrder[..k];
        if id in requests { out := out + [requests[id]]; }
      }
    }

    /** Every record is filed under its own id. */
    ghost predicate Keyed()
      reads this
    {
      forall id | id in requests :: requests[id].id == id
    }

    method ExportLiveRecords() returns (out: seq<Request>)
      requires Keyed()
      ensures ListsLive(requests, out)
    {
      out := [];
      var left := requests.Keys;
      while left != {}
        invariant left <= requests.Keys
        invariant forall i, j | 0 <= i < j < |out| :: out[i].id != out[j].id
        invariant forall i | 0 <= i < |out| ::
          out[i].id in requests && requests[out[i].id] == out[i] && !out[i].IsTerminal() && out[i].id !in left
        invariant forall id | id in requests && id !in left && !requests[id].IsTerminal() :: requests[id] in out
        decreases left
      {
        var id :| id in left;
        if !requests[id].IsTerminal() { out := out + [requests[id]]; }
        left := left - {id};
      }
    }

    method CountFlows() returns (total: nat, byClass: map<TrafficClass, nat>)
      ensures total == |flows|
      ensures forall c :: ClassCount(byClass, c) == |FlowsOfClass(flows, c)|
    {
      total, byClass := 0, map[];
      var pending := flows.Keys;
      while pending != {}
        invariant pending <= flows.Keys
        invariant total == |flows.Keys - pending|
        invariant forall c :: ClassCount(byClass, c) == |CountedOfClass(flows, pending, c)|
        decreases pending
      {
        var f :| f in pending;
        CountOneMore(flows, pending, f, byClass);
        assert flows.Keys - (pending - {f}) == (flows.Keys - pending) + {f};
        total := total + 1;
        byClass := byClass[flows[f].traffic := ClassCount(byClass, flows[f].traffic) + 1];
        pending := pending - {f};
      }
      assert flows.Keys - pending == flows.Keys;
      assert forall c :: CountedOfClass(flows, pending, c) == FlowsOfClass(flows, c);
    }

    method IdleRequestsClosed() returns (closed: bool)
      ensures closed <==> forall id | id in requests :: IdleIsClosed(requests[id])
    {
      var ids := requests.Keys;
      while ids != {}
        invariant ids <= requests.Keys
        invariant forall id | id in requests && id !in ids :: IdleIsClosed(requests[id])
        decreases ids
      {
        var id :| id in ids;
        if requests[id].IsTerminal() && requests[id].activeFlows != 0 { return false; }
        if !requests[id].IsTerminal() && requests[id].requiresRevalidation
           && requests[id].activeFlows != 0 { return false; }
        ids := ids - {id};
      }
      return true;
    }

    /** Compares the counters with a fresh count over the live records, as `verify_closure` does. */
    method VerifyClosure() returns (code: Status)
      ensures code.Ok? <==> ClosureHolds(State())
      ensures !code.Ok? ==> code.Internal?
    {
      var total, byClass := CountFlows();
      if total != account.activeTotal { return Internal; }
      var classes := CLASSES;
      forall c ensures c in classes { EveryClass(c); }
      while classes != {}
        invariant forall c :: c !in classes ==>
          ClassCount(byClass, c) == ClassCount(account.activeByClass, c)
        decreases classes
      {
        var c :| c in classes;
        if ClassCount(byClass, c) != ClassCount(account.activeByClass, c) { return Internal; }
        classes := classes - {c};
      }
      var closed := IdleRequestsClosed();
      return if closed then Ok else Internal;
    }
  }

  // ---------------------------------------------------------------------------------------------
  // One entry at a time
  // ---------------------------------------------------------------------------------------------

  function Decremented(a: Account, c: TrafficClass): Account {
    a.(activeTotal := Monus(a.activeTotal, 1),
       activeByClass := if c in a.activeByClass
                        then a.activeByClass[c := Monus(a.activeByClass[c], 1)] else a.activeByClass)
  }

  lemma CloseNothing(s: Ledger)
    ensures CloseFlows(s, {}) == s
  {
    assert FlowIds({}) == {} && Among(s.flows, {}) == {};
    assert forall c :: AmongOfClass(s.flows, {}, c) == {};
    assert ClosedAccount(s.account, s.flows, {}).activeByClass == s.account.activeByClass;
    assert s.flows - {} == s.flows;
  }

  lemma CountUp(flows: Flows, ids: set<FlowId>, f: FlowId, c: TrafficClass)
    requires f in flows && f !in ids
    ensures |Among(flows, ids + {f})| == |Among(flows, ids)| + 1
    ensures |AmongOfClass(flows, ids + {f}, c)|
            == |AmongOfClass(flows, ids, c)| + if c == flows[f].traffic then 1 else 0
  {
    assert Among(flows, ids + {f}) == Among(flows, ids) + {f};
    assert AmongOfClass(flows, ids + {f}, c)
           == AmongOfClass(flows, ids, c) + (if c == flows[f].traffic then {f} else {});
  }

  lemma CountSame(flows: Flows, ids: set<FlowId>, f: FlowId)
    requires f !in flows || f in ids
    ensures Among(flows, ids + {f}) == Among(flows, ids)
    ensures forall c :: AmongOfClass(flows, ids + {f}, c) == AmongOfClass(flows, ids, c)
  {
  }

  /** Closing one more entry is what one turn of the release loop does. */
  lemma CloseOneMore(s: Ledger, closed: set<(Id, FlowId)>, p: (Id, FlowId))
    ensures var t := CloseFlows(s, closed);
      var u := CloseFlows(s, closed + {p});
      && u.index == t.index - {p}
      && u.flows == t.flows - {p.1}
      && u.account == (if p.1 in t.flows then Decremented(t.account, t.flows[p.1].traffic) else t.account)
      && u == t.(flows := u.flows, index := u.index, account := u.account)
  {
    var ids := FlowIds(closed);
    assert FlowIds(closed + {p}) == ids + {p.1};
    CloseAccountOneMore(s.account, s.flows, ids, p.1);
  }

  lemma CloseAccountOneMore(a: Account, flows: Flows, ids: set<FlowId>, f: FlowId)
    ensures ClosedAccount(a, flows, ids + {f})
            == if f in flows && f !in ids then Decremented(ClosedAccount(a, flows, ids), flows[f].traffic)
               else ClosedAccount(a, flows, ids)
  {
    var t, u := ClosedAccount(a, flows, ids), ClosedAccount(a, flows, ids + {f});
    if f in flows && f !in ids {
      forall c | c in a.activeByClass
        ensures u.activeByClass[c] == Decremented(t, flows[f].traffic).activeByClass[c]
      {
        CountUp(flows, ids, f, c);
      }
      CountUp(flows, ids, f, ClassUnknown);
      assert u.activeByClass == Decremented(t, flows[f].traffic).activeByClass;
    } else {
      CountSame(flows, ids, f);
      assert u.activeByClass == t.activeByClass;
    }
  }

  // ---------------------------------------------------------------------------------------------
  // Closure
  // ---------------------------------------------------------------------------------------------

  predicate IdleIsClosed(r: Request) {
    r.IsTerminal() || r.requiresRevalidation ==> r.activeFlows == 0
  }

  ghost predicate ClosureHolds(s: Ledger) {
    && s.account.activeTotal == |s.flows|
    && (forall c :: |FlowsOfClass(s.flows, c)| == ClassCount(s.account.activeByClass, c))
    && (forall id | id in s.requests :: IdleIsClosed(s.requests[id]))
  }

  const CLASSES: set<TrafficClass> :=
    {ClassUnknown, RequestIngress, PrefillInput, PrefillDecodeHandoff, KvTransfer, StateTransfer,
     ModelTransfer, AdapterTransfer, DecodeStream, SpeculativeBranch, ResponseEgress, Control}

  lemma EveryClass(c: TrafficClass)
    ensures c in CLASSES
  {
    match c
    case _ =>
  }

  function CountedOfClass(flows: Flows, pending: set<FlowId>, c: TrafficClass): set<FlowId> {
    set f | f in flows && f !in pending && flows[f].traffic == c
  }

  lemma CountOneMore(flows: Flows, pending: set<FlowId>, f: FlowId, counts: map<TrafficClass, nat>)
    requires f in pending && pending <= flows.Keys
    requires forall c :: ClassCount(counts, c) == |CountedOfClass(flows, pending, c)|
    ensures forall c ::
      ClassCount(counts[flows[f].traffic := ClassCount(counts, flows[f].traffic) + 1], c)
      == |CountedOfClass(flows, pending - {f}, c)|
  {
    forall c
      ensures CountedOfClass(flows, pending - {f}, c)
              == CountedOfClass(flows, pending, c) + (if c == flows[f].traffic then {f} else {})
    {
    }
  }

  /** So the closure check never reports a divergence, whatever run led here. */
  lemma ClosureNeverDiverges(limits: Limits, ops: seq<Op>)
    ensures ClosureHolds(Run(EmptyLedger(limits), ops))
  {
    AccountingCloses(limits, ops);
  }
}
