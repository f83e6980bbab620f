/** Transfers, and runs of the whole coordinator within one incarnation (src/coordinator.cpp). */
module CoordinatorRuns {
  import opened Ids
  import opened Traffic
  import opened Reasons
  import opened Policies
  import opened LedgerModel
  import opened Deferral
  import opened CoordinatorModel
  import C = CoordinatorModel
  import opened Evaluation

  datatype TransferSpec = TransferSpec(
    id: Id, stateHash: Word64, modelHash: Word64, payloadBytes: nat, request: Id, attempt: Id,
    declaredClass: TrafficClass, integrity: Integrity)

  function RegistrationCheck(s: Fabric, r: TransferSpec): Status {
    if r.id.IsNil() then InvalidArgument
    else if !TransferClass(r.declaredClass) then InvalidArgument
    else if r.payloadBytes > s.config.maxPayload then BoundsExceeded
    else if r.id in s.transfers then AlreadyExists
    else if |s.transfers| >= s.config.maxTransfers then CapacityExhausted
    else if RequireGeneration(s.models, r.modelHash).Failure? then
      RequireGeneration(s.models, r.modelHash).code
    else if RequireGeneration(s.states, r.stateHash).Failure? then
      RequireGeneration(s.states, r.stateHash).code
    else if !r.request.IsNil() && r.request in s.ledger.requests
            && s.ledger.requests[r.request].lifecycle.Cancelled? then Status.Cancelled
    else Ok
  }

  function RegisterTransfer(s: Fabric, r: TransferSpec): Effect<Id> {
    var code := RegistrationCheck(s, r);
    if !code.Ok? then Effect(s, Failure(code))
    else
      var t := Transfer(r.stateHash, r.modelHash, r.payloadBytes, 0,
                        RequireGeneration(s.models, r.modelHash).value,
                        RequireGeneration(s.states, r.stateHash).value,
                        r.request, r.attempt, r.declaredClass, r.integrity, TransferRegistered, UNKNOWN,
                        NO_FLOW);
      Effect(s.(transfers := s.transfers[r.id := t],
                owned := if r.request.IsNil() then s.owned else s.owned + {(r.request, r.id)}),
             Success(r.id))
  }

  datatype Authorization = Authorization(
    transfer: Id, authorized: bool, reason: Reason, authority: Stamp, traffic: TrafficClass,
    integrity: Integrity, pacing: Pacing, priority: Priority, flow: FlowId)

  function AuthorizationFor(t: Id, d: Decision): Authorization {
    Authorization(t, d.Permits(), d.reason, d.authority, d.treatment.traffic, d.treatment.integrity,
                  d.treatment.pacing, d.treatment.priority, NO_FLOW)
  }

  function WithState(s: Fabric, t: Id, state: TransferState, reason: Reason): Fabric
    requires t in s.transfers
  {
    s.(transfers := s.transfers[t := s.transfers[t].(state := state, reason := reason)])
  }

  /** A refused transfer ends, its flow goes, and the refusal is counted. */
  ghost function RefuseTransfer(s: Fabric, t: Id, reason: Reason): Fabric
    requires t in s.transfers
  {
    ReleaseTransfer(WithState(s, t, TransferRefused, reason), t).(refused := s.refused + 1)
  }

  ghost function AuthorizeTransfer(s: Fabric, q: TrafficRequest, now: int, choice: Key, tag: bv64)
    : Effect<Authorization>
  {
    if q.subject.None? || !q.subject.value.Moving? then Effect(s, Failure(InvalidArgument))
    else
      var e := Evaluate(s, q, now, choice);
      Conclude(e.0, e.1, q.subject.value.transfer, now, tag)
  }

  /** What a transfer becomes once its decision is known. */
  ghost function Conclude(s: Fabric, d: Decision, t: Id, now: int, tag: bv64): Effect<Authorization> {
    var a := AuthorizationFor(t, d);
    if !d.Permits() then
      Effect(if t in s.transfers then RefuseTransfer(s, t, d.reason) else s.(refused := s.refused + 1), Success(a))
    else if t !in s.transfers then Effect(s, Failure(NotFound))
    else
      var out := C.OpenFlow(s, d, s.transfers[t].payloadBytes, now, tag);
      if out.result.Failure? then
        Effect(WithState(s, t, TransferRefused, REJECTED_FLOW_LIMIT).(refused := s.refused + 1),
               Success(a.(authorized := false, reason := REJECTED_FLOW_LIMIT)))
      else Authorise(out.fabric, t, out.result.value, a)
  }

  function Authorise(s: Fabric, t: Id, f: FlowId, a: Authorization): Effect<Authorization> {
    if t !in s.transfers then Effect(s, Failure(NotFound))
    else
      Effect(s.(transfers := s.transfers[t := s.transfers[t].(state := Authorized, flow := f)],
                started := s.started + 1),
             Success(a.(flow := f)))
  }

  function StartTransfer(s: Fabric, t: Id, a: Authorization): Effect<()> {
    if t !in s.transfers then Effect(s, Failure(NotFound))
    else if a.transfer != t then Effect(s, Failure(InvalidArgument))
    else if !a.authorized then Effect(s, Failure(NotAuthorized))
    else if s.transfers[t].state.InProgress? then Effect(s, Success(()))
    else if !s.transfers[t].state.Authorized? then Effect(s, Failure(Conflict))
    else Effect(s.(transfers := s.transfers[t := s.transfers[t].(state := InProgress)]), Success(()))
  }

  ghost function CompleteTransfer(s: Fabric, t: Id, verified: nat): Effect<()> {
    if t !in s.transfers then Effect(s, Failure(NotFound))
    else
      var r := s.transfers[t];
      if !r.state.Authorized? && !r.state.InProgress? then Effect(s, Failure(Conflict))
      else if (r.integrity.ChecksumAndVerify? && verified != r.payloadBytes) || verified > r.payloadBytes then
        Effect(RefuseTransfer(s, t, REJECTED_INTEGRITY_UNAVAILABLE), Failure(IntegrityMismatch))
      else
        var done := s.(transfers := s.transfers[t := r.(verifiedBytes := verified)]);
        Effect(ReleaseTransfer(WithState(done, t, TransferCompleted, COMMITTED_COMPLETION), t).(
                 finished := s.finished + 1),
               Success(()))
  }

  ghost function AbandonTransfer(s: Fabric, t: Id, reason: Reason): Effect<()> {
    if t !in s.transfers then Effect(s, Failure(NotFound))
    else if s.transfers[t].state.TransferCompleted? then Effect(s, Failure(Conflict))
    else
      Effect(ReleaseTransfer(WithState(s, t, Abandoned, reason), t).(refused := s.refused + 1),
             Success(()))
  }

  // ---------------------------------------------------------------------------------------------
  // Runs
  // ---------------------------------------------------------------------------------------------

  // The public operations between two boots; clocks, mixed tags and hash-table order are inputs.

  datatype RequestCall =
    | CallRegister(id: Id, now: int)
    | CallAttempt(id: Id, attempt: Id, modelHash: Word64, now: int)
    | CallRevalidate(id: Id, attempt: Id, now: int)
    | CallAdvance(id: Id, attempt: Id, target: Stage, now: int)
    | CallCancel(id: Id, reason: Reason, now: int)
    | CallFail(id: Id, attempt: Id, reason: Reason, now: int)
    | CallReplace(id: Id, attempt: Id, replacement: Id, modelHash: Word64, now: int)
    | CallPublish(publication: Publication, now: int)

  datatype EvidenceCall =
    | CallSlo(id: Id, tailBudget: Word64, deadlineNanos: nat, share: nat)
    | CallRoute(id: Id, attempt: Id)
    | CallModel(hash: Word64, expected: Option<Generation>)
    | CallState(hash: Word64, expected: Option<Generation>)
    | CallModelConfirm(hash: Word64)
    | CallStateConfirm(hash: Word64)
    | CallPolicy(policy: Policy)
    | CallTopology(topology: Topology, now: int)

  datatype FlowCall =
    | CallEvaluate(query: TrafficRequest, now: int, choice: Key)
    | CallOpen(decision: Decision, declared: nat, now: int, tag: bv64)
    | CallRelease(flow: FlowId)
    | CallBytes(flow: FlowId, bytes: nat, inbound: bool)

  datatype TransferCall =
    | CallTransfer(transferSpec: TransferSpec)
    | CallAuthorize(query: TrafficRequest, now: int, choice: Key, tag: bv64)
    | CallStart(transfer: Id, authorization: Authorization)
    | CallComplete(transfer: Id, verified: nat)
    | CallAbandon(transfer: Id, reason: Reason)

  datatype Call =
    | OnRequest(request: RequestCall)
    | OnEvidence(evidence: EvidenceCall)
    | OnFlow(flow: FlowCall)
    | OnTransfer(transfer: TransferCall)

  ghost function ActRequest(s: Fabric, call: RequestCall): Fabric {
    match call
    case CallRegister(id, now) => C.RegisterRequest(s, id, now).fabric
    case CallAttempt(id, a, h, now) => C.RegisterAttempt(s, id, a, h, now).fabric
    case CallRevalidate(id, a, now) => C.RevalidateRequest(s, id, a, now).fabric
    case CallAdvance(id, a, target, now) => C.AdvanceStage(s, id, a, target, now).fabric
    case CallCancel(id, reason, now) => C.CancelRequest(s, id, reason, now).fabric
    case CallFail(id, a, reason, now) => C.FailAttempt(s, id, a, reason, now).fabric
    case CallReplace(id, a, b, h, now) => ReplaceAttempt(s, id, a, b, h, now).fabric
    case CallPublish(p, now) => C.PublishCompletion(s, p, now).fabric
  }

  function ActEvidence(s: Fabric, call: EvidenceCall): Fabric {
    match call
    case CallSlo(id, tail, deadline, share) => RegisterSlo(s, id, tail, deadline, share).fabric
    case CallRoute(id, a) => IssueRoute(s, id, a).fabric
    case CallModel(h, expected) => SetModelGeneration(s, h, expected).fabric
    case CallState(h, expected) => AdvanceStateGeneration(s, h, expected).fabric
    case CallModelConfirm(h) => RevalidateModel(s, h).fabric
    case CallStateConfirm(h) => RevalidateState(s, h).fabric
    case CallPolicy(p) => ApplyPolicy(s, p).fabric
    case CallTopology(t, now) => PublishTopology(s, t, now).fabric
  }

  ghost function ActFlow(s: Fabric, call: FlowCall): Fabric {
    match call
    case CallEvaluate(q, now, choice) => Evaluate(s, q, now, choice).0
    case CallOpen(d, declared, now, tag) => C.OpenFlow(s, d, declared, now, tag).fabric
    case CallRelease(f) => C.ReleaseFlow(s, f).fabric
    case CallBytes(f, bytes, inbound) => C.RecordFlowBytes(s, f, bytes, inbound).fabric
  }

  ghost function ActTransfer(s: Fabric, call: TransferCall): Fabric {
    match call
    case CallTransfer(r) => RegisterTransfer(s, r).fabric
    case CallAuthorize(q, now, choice, tag) => AuthorizeTransfer(s, q, now, choice, tag).fabric
    case CallStart(t, a) => StartTransfer(s, t, a).fabric
    case CallComplete(t, verified) => CompleteTransfer(s, t, verified).fabric
    case CallAbandon(t, reason) => AbandonTransfer(s, t, reason).fabric
  }

  ghost function Act(s: Fabric, call: Call): Fabric {
    match call
    case OnRequest(r) => ActRequest(s, r)
    case OnEvidence(e) => ActEvidence(s, e)
    case OnFlow(f) => ActFlow(s, f)
    case OnTransfer(t) => ActTransfer(s, t)
  }

  ghost function ActAll(s: Fabric, calls: seq<Call>): Fabric
    decreases |calls|
  {
    if calls == [] then s else ActAll(Act(s, calls[0]), calls[1..])
  }
}
