/**
 * The request ledger (src/ledger.cpp) as functions on a ledger value: lifecycles, attempts,
 * publications, flow accounting and the bounded terminal history. The class `RequestLedger` runs
 * the same operations in place and is proved to compute these functions.
 */
module LedgerModel {
  import opened Ids
  import opened Traffic
  import opened Reasons

  const MAX_ATTEMPTS: nat := 8

  datatype RequestLifecycle =
    | RequestUnknown | Registered | Active | Completing | Completed | Cancelled | Failed | Interrupted

  datatype AttemptLifecycle =
    | AttemptUnknown | AttemptRegistered | AttemptActive | AttemptDraining
    | AttemptCompleted | AttemptFailed | AttemptCancelled | AttemptSuperseded

  predicate Terminal(l: RequestLifecycle) { l.Completed? || l.Cancelled? || l.Failed? }

  predicate AttemptTerminal(l: AttemptLifecycle) {
    l.AttemptCompleted? || l.AttemptFailed? || l.AttemptCancelled? || l.AttemptSuperseded?
  }

  datatype Attempt = Attempt(
    id: Id, generation: Generation, stage: Stage, lifecycle: AttemptLifecycle,
    modelHash: Word64, modelGeneration: Generation, routeGeneration: Generation,
    successPublished: bool, failurePublished: bool, reason: Reason,
    bytesIn: nat, bytesOut: nat, decisions: nat, defers: nat, rejections: nat,
    registeredAt: int, updatedAt: int)

  /** The inline attempt array and its count are one sequence: slots past the count hold nothing. */
  datatype Request = Request(
    id: Id, generation: Generation, lifecycle: RequestLifecycle, stage: Stage,
    currentAttempt: Id, currentAttemptGeneration: Generation, attempts: seq<Attempt>,
    reason: Reason, registeredAt: int, terminalAt: int,
    requiresRevalidation: bool, accountingClosed: bool,
    bytesIn: nat, bytesOut: nat, decisions: nat, defers: nat, rejections: nat,
    activeFlows: nat, authorityFloor: Generation)
  {
    predicate IsTerminal() { Terminal(lifecycle) }
    predicate IsCurrent(a: Id) { !currentAttempt.IsNil() && currentAttempt == a }
    predicate HasLiveAttempt() {
      exists i :: 0 <= i < |attempts| && !AttemptTerminal(attempts[i].lifecycle)
    }
  }

  datatype Limits = Limits(
    maxLive: nat, maxAttempts: nat, maxRetained: nat, maxFlowsPerRequest: nat, maxFlowsTotal: nat)

  datatype LedgerFlow = LedgerFlow(
    request: Id, traffic: TrafficClass, declaredBytes: nat, observedBytes: nat, openedAt: int)

  datatype Account = Account(
    activeTotal: nat, activeByClass: map<TrafficClass, nat>,
    registered: nat, completed: nat, cancelled: nat, failed: nat, interrupted: nat, evicted: nat,
    attemptsRegistered: nat, attemptsCompleted: nat, attemptsFailed: nat, attemptsSuperseded: nat,
    committed: nat, suppressed: nat, refused: nat, live: nat, retained: nat)

  const NO_ACCOUNT: Account := Account(0, map[], 0, 0, 0, 0, 0, 0, 0, 0, 0, 0, 0, 0, 0, 0, 0)

  /** `index` is the reverse index from requests to their flows; a flow is indexed once, when minted. */
  datatype Ledger = Ledger(
    limits: Limits, requests: map<Id, Request>, terminalOrder: seq<Id>,
    flows: map<FlowId, LedgerFlow>, index: set<(Id, FlowId)>, nextFlow: nat, account: Account)

  datatype Outcome<T> = Outcome(ledger: Ledger, result: Result<T>)

  function Normalised(l: Limits): Limits {
    Limits(
      if l.maxLive == 0 then 1 else l.maxLive,
      if l.maxAttempts == 0 || l.maxAttempts > MAX_ATTEMPTS then MAX_ATTEMPTS else l.maxAttempts,
      l.maxRetained,
      if l.maxFlowsPerRequest == 0 then 1 else l.maxFlowsPerRequest,
      if l.maxFlowsTotal == 0 then 1 else l.maxFlowsTotal)
  }

  function EmptyLedger(l: Limits): Ledger {
    Ledger(Normalised(l), map[], [], map[], {}, 0, NO_ACCOUNT)
  }

  // ---------------------------------------------------------------------------------------------
  // Attempts
  // ---------------------------------------------------------------------------------------------

  /** The first attempt bound under the id, as `find_attempt` returns it; -1 when there is none. */
  function Find(attempts: seq<Attempt>, a: Id): (i: int)
    ensures -1 <= i < |attempts|
    ensures i >= 0 ==> attempts[i].id == a && forall j :: 0 <= j < i ==> attempts[j].id != a
    ensures i == -1 ==> forall j :: 0 <= j < |attempts| ==> attempts[j].id != a
  {
    if attempts == [] then -1
    else if attempts[0].id == a then 0
    else
      var rest := Find(attempts[1..], a);
      if rest == -1 then -1
      else
        assert forall j :: 0 < j < 1 + rest ==> attempts[j] == attempts[1..][j - 1];
        1 + rest
  }

  function NewAttempt(a: Id, generation: Generation, modelHash: Word64, modelGeneration: Generation,
                      routeGeneration: Generation, now: int): Attempt
  {
    Attempt(a, generation, StageUnknown, AttemptRegistered, modelHash, modelGeneration,
            routeGeneration, false, false, UNKNOWN, 0, 0, 0, 0, 0, now, now)
  }

  /** Binds a fresh attempt behind the others and makes it current. */
  function Bind(r: Request, a: Attempt): Request {
    r.(attempts := r.attempts + [a], currentAttempt := a.id,
       currentAttemptGeneration := a.generation, stage := StageUnknown)
  }

  function WithAttempt(r: Request, i: nat, a: Attempt): Request
    requires i < |r.attempts|
  {
    r.(attempts := r.attempts[i := a])
  }

  // ---------------------------------------------------------------------------------------------
  // Flow accounting
  // ---------------------------------------------------------------------------------------------

  function ClassCount(m: map<TrafficClass, nat>, c: TrafficClass): nat { if c in m then m[c] else 0 }

  /** The index entries of one request. */
  function EntriesOf(index: set<(Id, FlowId)>, id: Id): set<(Id, FlowId)> {
    set p | p in index && p.0 == id
  }

  function FlowIds(entries: set<(Id, FlowId)>): set<FlowId> {
    set p | p in entries :: p.1
  }

  /** The live flows among `ids`, of one class when one is given. */
  function Among(flows: map<FlowId, LedgerFlow>, ids: set<FlowId>): set<FlowId> {
    set f | f in flows && f in ids
  }

  function AmongOfClass(flows: map<FlowId, LedgerFlow>, ids: set<FlowId>, c: TrafficClass): set<FlowId> {
    set f | f in flows && f in ids && flows[f].traffic == c
  }

  function ClosedAccount(a: Account, flows: map<FlowId, LedgerFlow>, ids: set<FlowId>): Account {
    a.(activeTotal := Monus(a.activeTotal, |Among(flows, ids)|),
       activeByClass := (map c | c in a.activeByClass ::
         Monus(a.activeByClass[c], |AmongOfClass(flows, ids, c)|)))
  }

  /** Closes the flow of every listed entry: its record, the entry and its share of the counters. */
  function CloseFlows(s: Ledger, entries: set<(Id, FlowId)>): Ledger {
    s.(flows := s.flows - FlowIds(entries),
       index := s.index - entries,
       account := ClosedAccount(s.account, s.flows, FlowIds(entries)))
  }

  /** The record with no flow open and its account closed. */
  function Closed(r: Request): Request { r.(activeFlows := 0, accountingClosed := true) }

  /** `release_request_flows` on the record `r`, which the caller has updated and not yet stored. */
  function ReleaseRequestFlows(s: Ledger, id: Id, r: Request): Ledger {
    CloseFlows(s, EntriesOf(s.index, id)).(
      requests := s.requests[id := r.(activeFlows := 0, accountingClosed := true)])
  }

  // ---------------------------------------------------------------------------------------------
  // Terminal history
  // ---------------------------------------------------------------------------------------------

  function Refresh(s: Ledger): Ledger {
    s.(account := s.account.(retained := |s.terminalOrder|,
                             live := Monus(|s.requests|, |s.terminalOrder|)))
  }

  /** `evict_if_needed`: oldest ending first, down to the retention ceiling. */
  function Evict(s: Ledger): Ledger
    decreases |s.terminalOrder|
  {
    if |s.terminalOrder| <= s.limits.maxRetained then Refresh(s)
    else
      var victim := s.terminalOrder[0];
      var popped := s.(terminalOrder := s.terminalOrder[1..]);
      if victim in s.requests && s.requests[victim].IsTerminal() then
        Evict(popped.(requests := s.requests - {victim},
                      account := s.account.(evicted := s.account.evicted + 1)))
      else Evict(popped)
  }

  /** Ends a request: releases its flows, queues it behind the earlier endings, then evicts. */
  function End(s: Ledger, id: Id, r: Request, account: Account): Ledger {
    var released := ReleaseRequestFlows(s, id, r);
    Evict(released.(terminalOrder := released.terminalOrder + [id],
                    account := account.(activeTotal := released.account.activeTotal,
                                        activeByClass := released.account.activeByClass)))
  }

  // ---------------------------------------------------------------------------------------------
  // What each operation does to one record
  // ---------------------------------------------------------------------------------------------

  function NewRequest(id: Id, now: int): Request {
    Request(id, 1, Registered, StageUnknown, NIL, 0, [], UNKNOWN, now, 0, false, false,
            0, 0, 0, 0, 0, 0, 0)
  }

  function BoundRecord(l: Limits, r: Request, a: Id, modelHash: Word64, modelGeneration: Generation,
                       routeGeneration: Generation, now: int): Result<Request>
  {
    if r.IsTerminal() then Failure(Conflict)
    else if r.requiresRevalidation then Failure(RevalidationRequired)
    else if Find(r.attempts, a) >= 0 then Failure(AlreadyExists)
    else if |r.attempts| >= l.maxAttempts then Failure(CapacityExhausted)
    else
      var entry := NewAttempt(a, |r.attempts| + 1, modelHash, modelGeneration, routeGeneration, now);
      Success(Bind(r, entry).(lifecycle := if r.lifecycle.Interrupted? then Active else r.lifecycle))
  }

  /** The attempt id is not compared with those already bound. */
  function RevalidatedRecord(l: Limits, r: Request, a: Id, now: int): Result<Request> {
    if r.IsTerminal() then Failure(Conflict)
    else if !r.requiresRevalidation then Failure(Conflict)
    else if a.IsNil() then Failure(InvalidArgument)
    else if |r.attempts| >= l.maxAttempts then Failure(CapacityExhausted)
    else
      Success(Bind(r, NewAttempt(a, |r.attempts| + 1, 0, 0, 0, now)).(
                lifecycle := Active, requiresRevalidation := false, generation := r.generation + 1))
  }

  function AdvancedAttempt(a: Attempt, target: Stage, now: int): Attempt {
    a.(stage := target, updatedAt := now,
       lifecycle := if target.StageCompleting? then AttemptDraining
                    else if a.lifecycle.AttemptRegistered? then AttemptActive
                    else a.lifecycle)
  }

  function AdvancedRecord(r: Request, a: Id, target: Stage, now: int): Result<Request> {
    if r.lifecycle.Cancelled? then Failure(Status.Cancelled)
    else if r.IsTerminal() then Failure(Conflict)
    else if r.requiresRevalidation then Failure(RevalidationRequired)
    else
      var i := Find(r.attempts, a);
      if i < 0 then Failure(NotFound)
      else if !r.IsCurrent(a) then Failure(StaleGeneration)
      else if AttemptTerminal(r.attempts[i].lifecycle) then Failure(Conflict)
      else if !LegalTransition(r.attempts[i].stage, target) then Failure(InvalidTransition)
      else
        Success(WithAttempt(r, i, AdvancedAttempt(r.attempts[i], target, now)).(
                  stage := target,
                  lifecycle := if target.StageCompleting? then Completing else r.lifecycle))
  }

  function FailedAttempt(a: Attempt, reason: Reason, now: int): Attempt {
    a.(lifecycle := AttemptFailed, stage := StageFailed, failurePublished := true, reason := reason,
       updatedAt := now)
  }

  /** Whether the request has ended is not tested; a failed attempt is left as it is. */
  function FailedRecord(r: Request, a: Id, reason: Reason, now: int): Result<Request> {
    var i := Find(r.attempts, a);
    if i < 0 then Failure(NotFound)
    else if !r.IsCurrent(a) then Failure(StaleGeneration)
    else if r.attempts[i].lifecycle.AttemptFailed? then Success(r)
    else if AttemptTerminal(r.attempts[i].lifecycle) then Failure(Conflict)
    else
      Success(WithAttempt(r, i, FailedAttempt(r.attempts[i], reason, now)).(
                lifecycle := Failed, stage := StageFailed, reason := reason, terminalAt := now))
  }

  function SupersededRecord(l: Limits, r: Request, a: Id, replacement: Id, now: int): Result<Request> {
    if r.IsTerminal() then Failure(Conflict)
    else
      var i := Find(r.attempts, a);
      if i < 0 then Failure(NotFound)
      else if !r.IsCurrent(a) then Failure(StaleGeneration)
      else if Find(r.attempts, replacement) >= 0 then Failure(AlreadyExists)
      else if |r.attempts| >= l.maxAttempts then Failure(CapacityExhausted)
      else
        var entry := r.attempts[i].(lifecycle := AttemptSuperseded, reason := ATTEMPT_SUPERSEDED,
                                    updatedAt := now);
        Success(Bind(WithAttempt(r, i, entry),
                     NewAttempt(replacement, |r.attempts| + 1, entry.modelHash, entry.modelGeneration,
                                0, now)).(generation := r.generation + 1))
  }

  function RemodelledRecord(r: Request, a: Id, modelHash: Word64, modelGeneration: Generation)
    : Result<Request>
  {
    var i := Find(r.attempts, a);
    if i < 0 then Failure(NotFound)
    else Success(WithAttempt(r, i, r.attempts[i].(modelHash := modelHash,
                                                  modelGeneration := modelGeneration)))
  }

  function RaisedFloor(floor: Generation, sequence: Generation): Generation {
    if sequence != 0 && sequence > floor then sequence else floor
  }

  function CancelledAttempt(a: Attempt, reason: Reason, now: int): Attempt {
    if AttemptTerminal(a.lifecycle) then a
    else a.(lifecycle := AttemptCancelled, stage := StageCancelled, reason := reason, updatedAt := now)
  }

  function CancelledRecord(r: Request, reason: Reason, sequence: Generation, now: int): Request {
    r.(lifecycle := RequestLifecycle.Cancelled, stage := StageCancelled, reason := reason,
       terminalAt := now, requiresRevalidation := false,
       authorityFloor := RaisedFloor(r.authorityFloor, sequence),
       attempts := seq(|r.attempts|, i requires 0 <= i < |r.attempts| =>
         CancelledAttempt(r.attempts[i], reason, now)))
  }

  function InterruptedAttempt(a: Attempt, now: int): Attempt {
    if AttemptTerminal(a.lifecycle) then a
    else a.(lifecycle := AttemptCancelled, reason := CANCELLED, updatedAt := now)
  }

  function InterruptedRecord(r: Request, now: int): Request {
    r.(lifecycle := Interrupted, requiresRevalidation := true,
       attempts := seq(|r.attempts|, i requires 0 <= i < |r.attempts| =>
         InterruptedAttempt(r.attempts[i], now)))
  }

  datatype Publication = Publication(
    request: Id, attempt: Id, attemptGeneration: Generation, success: bool, reason: Reason,
    bytesIn: nat, bytesOut: nat)

  datatype Judgement =
    | Refuse(code: Status, reason: Reason)
    | Suppress
    | Commit(attempt: nat)

  /** How a publication about a known request is judged. Currency of the attempt is not tested. */
  function Judge(r: Request, p: Publication): (j: Judgement)
    ensures j.Commit? ==> j.attempt < |r.attempts| && !r.IsTerminal()
  {
    var i := Find(r.attempts, p.attempt);
    if i < 0 then Refuse(StaleGeneration, REJECTED_UNKNOWN_ATTEMPT)
    else if p.attemptGeneration != 0 && p.attemptGeneration != r.attempts[i].generation then
      Refuse(StaleGeneration, REJECTED_STALE_ATTEMPT)
    else if r.lifecycle.Cancelled? then Refuse(Status.Cancelled, REJECTED_REQUEST_CANCELLED)
    else if r.lifecycle.Completed? then Suppress
    else if r.IsTerminal() then Refuse(Conflict, REJECTED_REQUEST_TERMINAL)
    else if r.attempts[i].lifecycle.AttemptSuperseded? then
      Refuse(StaleGeneration, REJECTED_STALE_ATTEMPT)
    else if r.attempts[i].lifecycle.AttemptFailed? then Refuse(Conflict, ATTEMPT_FAILED)
    else if r.attempts[i].lifecycle.AttemptCancelled? then
      Refuse(Status.Cancelled, REJECTED_REQUEST_CANCELLED)
    else if (if p.success then r.attempts[i].successPublished else r.attempts[i].failurePublished) then
      Suppress
    else Commit(i)
  }

  function CommittedAttempt(a: Attempt, p: Publication, now: int): Attempt {
    var totalled := a.(bytesIn := Max(a.bytesIn, p.bytesIn), bytesOut := Max(a.bytesOut, p.bytesOut),
                       updatedAt := now);
    if p.success then
      totalled.(successPublished := true, lifecycle := AttemptCompleted, stage := StageCompleted)
    else
      totalled.(failurePublished := true, lifecycle := AttemptFailed, stage := StageFailed,
                reason := if p.reason == UNKNOWN then ATTEMPT_FAILED else p.reason)
  }

  /** The committed totals are the larger of the published and the reported ones, never the sum. */
  function CommittedRecord(r: Request, i: nat, p: Publication, now: int): Request
    requires i < |r.attempts|
  {
    var entry := CommittedAttempt(r.attempts[i], p, now);
    WithAttempt(r, i, entry).(
      lifecycle := if p.success then Completed else Failed,
      stage := if p.success then StageCompleted else StageFailed,
      reason := if p.success then COMMITTED_COMPLETION else entry.reason,
      terminalAt := now,
      bytesIn := Max(r.bytesIn, p.bytesIn), bytesOut := Max(r.bytesOut, p.bytesOut))
  }

  // ---------------------------------------------------------------------------------------------
  // Operations
  // ---------------------------------------------------------------------------------------------

  function LiveCount(s: Ledger): nat { SubWrap(|s.requests|, |s.terminalOrder|) }

  function RegisterRequest(s: Ledger, id: Id, now: int): Outcome<Generation> {
    if id.IsNil() then Outcome(s, Failure(InvalidArgument))
    else if id in s.requests then
      Outcome(s, Failure(if s.requests[id].IsTerminal() then Conflict else AlreadyExists))
    else if LiveCount(s) >= s.limits.maxLive then Outcome(s, Failure(CapacityExhausted))
    else
      Outcome(Refresh(s.(requests := s.requests[id := NewRequest(id, now)],
                         account := s.account.(registered := s.account.registered + 1))),
              Success(1))
  }

  function Rewrite(s: Ledger, id: Id, r: Request): Ledger { s.(requests := s.requests[id := r]) }

  function Rebound(s: Ledger, id: Id, r: Result<Request>): Outcome<Generation> {
    if r.Failure? then Outcome(s, Failure(r.code))
    else
      Outcome(Rewrite(s, id, r.value).(
                account := s.account.(attemptsRegistered := s.account.attemptsRegistered + 1)),
              Success(|r.value.attempts|))
  }

  function RegisterAttempt(s: Ledger, id: Id, a: Id, modelHash: Word64, modelGeneration: Generation,
                           routeGeneration: Generation, now: int): Outcome<Generation>
  {
    if a.IsNil() then Outcome(s, Failure(InvalidArgument))
    else if id !in s.requests then Outcome(s, Failure(NotFound))
    else Rebound(s, id, BoundRecord(s.limits, s.requests[id], a, modelHash, modelGeneration,
                                    routeGeneration, now))
  }

  function RevalidateRequest(s: Ledger, id: Id, a: Id, now: int): Outcome<Generation> {
    if id !in s.requests then Outcome(s, Failure(NotFound))
    else Rebound(s, id, RevalidatedRecord(s.limits, s.requests[id], a, now))
  }

  function Rewritten(s: Ledger, id: Id, r: Result<Request>): Outcome<()> {
    if r.Failure? then Outcome(s, Failure(r.code)) else Outcome(Rewrite(s, id, r.value), Success(()))
  }

  function AdvanceStage(s: Ledger, id: Id, a: Id, target: Stage, now: int): Outcome<()> {
    if StageTerminal(target) || target.StageUnknown? then Outcome(s, Failure(InvalidArgument))
    else if id !in s.requests then Outcome(s, Failure(NotFound))
    else Rewritten(s, id, AdvancedRecord(s.requests[id], a, target, now))
  }

  function FailAttempt(s: Ledger, id: Id, a: Id, reason: Reason, now: int): Outcome<Generation> {
    if id !in s.requests then Outcome(s, Failure(NotFound))
    else
      var r := s.requests[id];
      var r' := FailedRecord(r, a, reason, now);
      if r'.Failure? then Outcome(s, Failure(r'.code))
      else
        var entry := r.attempts[Find(r.attempts, a)];
        if entry.lifecycle.AttemptFailed? then Outcome(s, Success(entry.generation))
        else
          Outcome(End(s, id, r'.value, s.account.(attemptsFailed := s.account.attemptsFailed + 1,
                                                  failed := s.account.failed + 1)),
                  Success(entry.generation))
  }

  function SupersedeAttempt(s: Ledger, id: Id, a: Id, replacement: Id, now: int): Outcome<Generation> {
    if replacement.IsNil() then Outcome(s, Failure(InvalidArgument))
    else if id !in s.requests then Outcome(s, Failure(NotFound))
    else
      var out := Rebound(s, id, SupersededRecord(s.limits, s.requests[id], a, replacement, now));
      if out.result.Failure? then out
      else out.(ledger := out.ledger.(account := out.ledger.account.(
                  attemptsSuperseded := s.account.attemptsSuperseded + 1)))
  }

  function SetAttemptModel(s: Ledger, id: Id, a: Id, modelHash: Word64, modelGeneration: Generation)
    : Outcome<()>
  {
    if id !in s.requests then Outcome(s, Failure(NotFound))
    else Rewritten(s, id, RemodelledRecord(s.requests[id], a, modelHash, modelGeneration))
  }

  function CancelRequest(s: Ledger, id: Id, reason: Reason, sequence: Generation, now: int): Outcome<()> {
    if id !in s.requests then Outcome(s, Failure(NotFound))
    else
      var r := s.requests[id];
      if r.lifecycle.Cancelled? then
        Outcome(Rewrite(s, id, r.(authorityFloor := RaisedFloor(r.authorityFloor, sequence))),
                Success(()))
      else if r.IsTerminal() then Outcome(s, Failure(Conflict))
      else
        Outcome(End(s, id, CancelledRecord(r, reason, sequence, now),
                    s.account.(cancelled := s.account.cancelled + 1)),
                Success(()))
  }

  function MarkInterrupted(s: Ledger, id: Id, now: int): Outcome<()> {
    if id !in s.requests then Outcome(s, Failure(NotFound))
    else
      var r := s.requests[id];
      if r.IsTerminal() then Outcome(s, Success(()))
      else
        var released := ReleaseRequestFlows(s, id, InterruptedRecord(r, now));
        Outcome(Rewrite(released, id, released.requests[id].(accountingClosed := false)).(
                  account := released.account.(interrupted := released.account.interrupted + 1)),
                Success(()))
  }

  datatype Disposition = Committed | DuplicateSuppressed | PublishRefused

  datatype PublishOutcome = PublishOutcome(
    disposition: Disposition, refusal: Status, reason: Reason,
    bytesIn: nat, bytesOut: nat, releasedFlows: nat)

  function CommitAccount(a: Account, success: bool): Account {
    if success then
      a.(attemptsCompleted := a.attemptsCompleted + 1, completed := a.completed + 1,
         committed := a.committed + 1)
    else a.(attemptsFailed := a.attemptsFailed + 1, failed := a.failed + 1)
  }

  function PublishCompletion(s: Ledger, p: Publication, now: int): Outcome<PublishOutcome> {
    if p.request.IsNil() || p.attempt.IsNil() then Outcome(s, Failure(InvalidArgument))
    else if p.request !in s.requests then Outcome(s, Failure(NotFound))
    else
      var r := s.requests[p.request];
      match Judge(r, p)
      case Refuse(code, reason) =>
        Outcome(s.(account := s.account.(refused := s.account.refused + 1)),
                Success(PublishOutcome(PublishRefused, code, reason, 0, 0, 0)))
      case Suppress =>
        Outcome(s.(account := s.account.(suppressed := s.account.suppressed + 1)),
                Success(PublishOutcome(DuplicateSuppressed, Ok, DUPLICATE_COMPLETION_SUPPRESSED,
                                       0, 0, 0)))
      case Commit(i) =>
        Outcome(End(s, p.request, CommittedRecord(r, i, p, now), CommitAccount(s.account, p.success)),
                Success(if p.success
                        then PublishOutcome(Committed, Ok, COMMITTED_COMPLETION, p.bytesIn, p.bytesOut,
                                            r.activeFlows)
                        else PublishOutcome(Committed, Ok, ATTEMPT_FAILED, 0, 0, 0)))
  }

  // ---------------------------------------------------------------------------------------------
  // Flows
  // ---------------------------------------------------------------------------------------------

  function FlowTag(id: Id, a: Id, c: TrafficClass): bv64 {
    Bits(id.high) ^ (Bits(id.low) * 0x9E3779B97F4A7C15) ^ (Bits(a.high) * 0xBF58476D1CE4E5B9)
    ^ Bits(a.low) ^ ((ClassIndex(c) as bv64) << 56)
  }

  /** Whether a flow may be opened, in the order the source asks. */
  function OpenCheck(s: Ledger, id: Id, a: Id, c: TrafficClass): (code: Status)
    ensures code.Ok? ==> id in s.requests && !s.requests[id].IsTerminal()
                         && !s.requests[id].requiresRevalidation
  {
    if c.ClassUnknown? then InvalidArgument
    else if id !in s.requests then NotFound
    else
      var r := s.requests[id];
      if r.lifecycle.Cancelled? then Status.Cancelled
      else if r.IsTerminal() then Conflict
      else if r.requiresRevalidation then RevalidationRequired
      else
        var i := Find(r.attempts, a);
        if i < 0 then NotFound
        else if !r.IsCurrent(a) then StaleGeneration
        else if r.attempts[i].lifecycle.AttemptSuperseded? then StaleGeneration
        else if AttemptTerminal(r.attempts[i].lifecycle) then Conflict
        else if r.activeFlows >= s.limits.maxFlowsPerRequest then CapacityExhausted
        else if s.account.activeTotal >= s.limits.maxFlowsTotal then CapacityExhausted
        else Ok
  }

  /** The ledger with one more flow on the books. */
  function WithFlow(s: Ledger, f: FlowId, flow: LedgerFlow): Ledger
    requires flow.request in s.requests
  {
    var r := s.requests[flow.request];
    s.(nextFlow := s.nextFlow + 1, flows := s.flows[f := flow], index := s.index + {(flow.request, f)},
       requests := s.requests[flow.request := r.(activeFlows := r.activeFlows + 1)],
       account := s.account.(
         activeTotal := s.account.activeTotal + 1,
         activeByClass := s.account.activeByClass[
           flow.traffic := ClassCount(s.account.activeByClass, flow.traffic) + 1]))
  }

  /** The tag is `FlowTag(id, a, c)` in the source; nothing here depends on how it is mixed. */
  function OpenFlow(s: Ledger, id: Id, a: Id, c: TrafficClass, declared: nat, now: int, tag: bv64)
    : Outcome<FlowId>
  {
    var code := OpenCheck(s, id, a, c);
    if !code.Ok? then Outcome(s, Failure(code))
    else
      var f := FlowId(s.nextFlow + 1, tag);
      Outcome(WithFlow(s, f, LedgerFlow(id, c, declared, 0, now)), Success(f))
  }

  function ReleaseFlow(s: Ledger, f: FlowId): Outcome<()> {
    if f !in s.flows then Outcome(s, Failure(NotFound))
    else
      var id := s.flows[f].request;
      var closed := CloseFlows(s, {(id, f)});
      Outcome(if id in s.requests
              then closed.(requests := s.requests[id :=
                     s.requests[id].(activeFlows := Monus(s.requests[id].activeFlows, 1))])
              else closed,
              Success(()))
  }

  /** The flow is updated before the request total is checked, as in the source. */
  function RecordFlowBytes(s: Ledger, f: FlowId, bytes: nat, inbound: bool): Outcome<()> {
    if f !in s.flows then Outcome(s, Failure(NotFound))
    else if s.flows[f].observedBytes + bytes >= TWO_64 then Outcome(s, Failure(BoundsExceeded))
    else
      var s' := s.(flows := s.flows[f :=
                  s.flows[f].(observedBytes := s.flows[f].observedBytes + bytes)]);
      var id := s.flows[f].request;
      if id !in s.requests then Outcome(s', Success(()))
      else
        var r := s.requests[id];
        if (if inbound then r.bytesIn else r.bytesOut) + bytes >= TWO_64 then
          Outcome(s', Failure(BoundsExceeded))
        else
          Outcome(s'.(requests := s.requests[id :=
                    if inbound then r.(bytesIn := r.bytesIn + bytes)
                    else r.(bytesOut := r.bytesOut + bytes)]),
                  Success(()))
  }

  datatype Verdict = Allowed | Degraded | Deferred | Rejected

  function Tally(r: Request, a: Id, v: Verdict): Request {
    var d := if v.Deferred? then 1 else 0;
    var j := if v.Rejected? then 1 else 0;
    var r' := r.(decisions := r.decisions + 1, defers := r.defers + d, rejections := r.rejections + j);
    var i := Find(r.attempts, a);
    if i < 0 then r'
    else WithAttempt(r', i, r.attempts[i].(decisions := r.attempts[i].decisions + 1,
                                           defers := r.attempts[i].defers + d,
                                           rejections := r.attempts[i].rejections + j))
  }

  function RecordDecision(s: Ledger, id: Id, a: Id, v: Verdict): Outcome<()> {
    if id !in s.requests then Outcome(s, Failure(NotFound))
    else Outcome(s.(requests := s.requests[id := Tally(s.requests[id], a, v)]), Success(()))
  }

  // ---------------------------------------------------------------------------------------------
  // Recovery and export
  // ---------------------------------------------------------------------------------------------

  function Restored(r: Request): Request {
    if r.IsTerminal() then r.(accountingClosed := true, activeFlows := 0)
    else r.(lifecycle := Interrupted, requiresRevalidation := true, activeFlows := 0,
            accountingClosed := false)
  }

  function RestoredAccount(a: Account, l: RequestLifecycle): Account {
    a.(registered := a.registered + 1,
       completed := a.completed + (if l.Completed? then 1 else 0),
       cancelled := a.cancelled + (if l.Cancelled? then 1 else 0),
       failed := a.failed + (if l.Failed? then 1 else 0),
       interrupted := a.interrupted + (if Terminal(l) then 0 else 1))
  }

  function RestoreRecord(s: Ledger, r: Request): Outcome<()> {
    if r.id.IsNil() then Outcome(s, Failure(InvalidArgument))
    else if |r.attempts| > MAX_ATTEMPTS then Outcome(s, Failure(MalformedInput))
    else if r.id in s.requests then Outcome(s, Failure(AlreadyExists))
    else
      Outcome(Evict(s.(requests := s.requests[r.id := Restored(r)],
                       terminalOrder := if r.IsTerminal() then s.terminalOrder + [r.id]
                                        else s.terminalOrder,
                       account := RestoredAccount(s.account, r.lifecycle))),
              Success(()))
  }

  /** Newest ending first, at most `max` records. */
  function ExportTerminal(s: Ledger, order: seq<Id>, max: nat): seq<Request> {
    if order == [] || max == 0 then []
    else
      var id := order[|order| - 1];
      if id in s.requests then [s.requests[id]] + ExportTerminal(s, order[..|order| - 1], max - 1)
      else ExportTerminal(s, order[..|order| - 1], max)
  }

  /** The records that have not ended, in whatever order the hash table yields them. */
  ghost predicate ListsLive(requests: map<Id, Request>, records: seq<Request>) {
    && (forall i, j | 0 <= i < j < |records| :: records[i].id != records[j].id)
    && (forall i | 0 <= i < |records| ::
          records[i].id in requests && requests[records[i].id] == records[i] && !records[i].IsTerminal())
    && (forall id | id in requests && !requests[id].IsTerminal() :: requests[id] in records)
  }

  // ---------------------------------------------------------------------------------------------
  // Runs
  // ---------------------------------------------------------------------------------------------

  datatype Op =
    | OpRegister(id: Id, now: int)
    | OpAttempt(id: Id, attempt: Id, modelHash: Word64, modelGeneration: Generation,
                routeGeneration: Generation, now: int)
    | OpRevalidate(id: Id, attempt: Id, now: int)
    | OpAdvance(id: Id, attempt: Id, target: Stage, now: int)
    | OpFail(id: Id, attempt: Id, reason: Reason, now: int)
    | OpSupersede(id: Id, attempt: Id, replacement: Id, now: int)
    | OpSetModel(id: Id, attempt: Id, modelHash: Word64, modelGeneration: Generation)
    | OpCancel(id: Id, reason: Reason, sequence: Generation, now: int)
    | OpInterrupt(id: Id, now: int)
    | OpPublish(publication: Publication, now: int)
    | OpOpen(id: Id, attempt: Id, traffic: TrafficClass, declared: nat, now: int, tag: bv64)
    | OpRelease(flow: FlowId)
    | OpBytes(flow: FlowId, bytes: nat, inbound: bool)
    | OpDecision(id: Id, attempt: Id, verdict: Verdict)
    | OpRestore(record: Request)

  function Step(s: Ledger, op: Op): Ledger {
    match op
    case OpRegister(id, now) => RegisterRequest(s, id, now).ledger
    case OpAttempt(id, a, h, g, t, now) => RegisterAttempt(s, id, a, h, g, t, now).ledger
    case OpRevalidate(id, a, now) => RevalidateRequest(s, id, a, now).ledger
    case OpAdvance(id, a, target, now) => AdvanceStage(s, id, a, target, now).ledger
    case OpFail(id, a, reason, now) => FailAttempt(s, id, a, reason, now).ledger
    case OpSupersede(id, a, b, now) => SupersedeAttempt(s, id, a, b, now).ledger
    case OpSetModel(id, a, h, g) => SetAttemptModel(s, id, a, h, g).ledger
    case OpCancel(id, reason, sequence, now) => CancelRequest(s, id, reason, sequence, now).ledger
    case OpInterrupt(id, now) => MarkInterrupted(s, id, now).ledger
    case OpPublish(p, now) => PublishCompletion(s, p, now).ledger
    case OpOpen(id, a, c, declared, now, tag) => OpenFlow(s, id, a, c, declared, now, tag).ledger
    case OpRelease(f) => ReleaseFlow(s, f).ledger
    case OpBytes(f, bytes, inbound) => RecordFlowBytes(s, f, bytes, inbound).ledger
    case OpDecision(id, a, v) => RecordDecision(s, id, a, v).ledger
    case OpRestore(record) => RestoreRecord(s, record).ledger
  }

  function Run(s: Ledger, ops: seq<Op>): Ledger
    decreases |ops|
  {
    if ops == [] then s else Run(Step(s, ops[0]), ops[1..])
  }
}
