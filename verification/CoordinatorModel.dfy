/**
 * The coordinator (src/coordinator.cpp) as functions on its whole state. Every public operation of the
 * source holds one mutex, so a run is a sequence of these steps. The class `Coordinator` performs them
 * in place and is proved to compute these functions.
 */
module CoordinatorModel {
  import opened Ids
  import opened Traffic
  import opened Reasons
  import opened Policies
  import opened LedgerModel
  import opened Deferral

  // ---------------------------------------------------------------------------------------------
  // Vocabulary
  // ---------------------------------------------------------------------------------------------

  datatype Stamp = Stamp(epoch: Generation, incarnation: Id, policy: Generation, sequence: Generation)

  datatype AuthorityVerdict = Current | StaleEpochVerdict | StalePolicyVerdict | StaleIncarnation | Absent

  function ValidateAuthority(s: Stamp, epoch: Generation, incarnation: Id, policy: Generation)
    : AuthorityVerdict
  {
    if s.epoch == 0 || s.incarnation.IsNil() then Absent
    else if s.epoch != epoch then StaleEpochVerdict
    else if s.incarnation != incarnation then StaleIncarnation
    else if s.policy != policy then StalePolicyVerdict
    else if s.sequence == 0 then Absent
    else Current
  }

  /** A subject without a kind still carries whatever transfer id was written into it. */
  datatype Subject =
    | Unkinded(transfer: Id)
    | Serving(request: Id, attempt: Id, generation: Generation)
    | Moving(transfer: Id)
  {
    predicate IsValid() {
      match this
      case Serving(r, a, g) => !r.IsNil() && !a.IsNil() && g != 0
      case Moving(t) => !t.IsNil()
      case Unkinded(_) => false
    }
  }

  datatype Binding = Binding(
    request: Option<Generation>, model: Option<Generation>, state: Option<Generation>,
    route: Option<Generation>, slo: Option<Generation>, topology: Option<Generation>,
    policy: Option<Generation>, epoch: Option<Generation>)

  /** A bound generation agrees with the current one; an absent one is not compared. */
  predicate Agrees(bound: Option<Generation>, current: Generation) {
    bound.Some? ==> bound.value == current
  }

  datatype Hint = HintNone | HintCritical | HintInteractive | HintBatch | HintBackground

  datatype TrafficRequest = TrafficRequest(
    subject: Option<Subject>, declaredClass: TrafficClass, declaredStage: Stage, hint: Hint,
    payloadBytes: Word64, chunkIndex: nat, totalChunks: nat, deadline: Instant, deadlineAfter: Word64,
    binding: Binding)
  {
    predicate StructurallyValid() {
      && (subject.Some? ==> subject.value.IsValid())
      && (subject.None? ==> declaredClass.ModelTransfer? || declaredClass.AdapterTransfer?
                            || declaredClass.Control?)
      && (totalChunks != 0 ==> chunkIndex < totalChunks)
      && !(deadline.IsSet() && deadlineAfter != 0)
    }
  }

  datatype Treatment = Treatment(
    traffic: TrafficClass, priority: Priority, pacing: Pacing, integrity: Integrity,
    isolation: Isolation, reservedWeight: nat, maxBurst: nat, rateLimit: nat, holdUntil: Instant,
    deferCount: nat)

  const NO_TREATMENT: Treatment :=
    Treatment(ClassUnknown, PriorityUnknown, PacingUnknown, IntegrityUnknown, IsolationUnknown,
              0, 0, 0, UNSET, 0)

  datatype Decision = Decision(
    verdict: Verdict, reason: Reason, treatment: Treatment, subject: Subject, binding: Binding,
    authority: Stamp, deferHint: nat)
  {
    predicate Permits() { verdict.Allowed? || verdict.Degraded? }
  }

  datatype Provenance = ProvenanceUnknown | Synthetic | Measured

  datatype Topology = Topology(
    generation: Generation, provenance: Provenance, boot: Id, observedAt: int, maxAge: nat,
    nodes: nat, accelerators: nat, links: nat, fabricRate: nat, queueDepth: nat, congested: bool,
    disaggregated: bool)

  /** The products are 32-bit in the source. */
  predicate TopologyValid(t: Topology) {
    && !t.provenance.ProvenanceUnknown? && t.nodes != 0
    && t.links <= (t.nodes * t.nodes) % 0x1_0000_0000
    && t.accelerators <= (t.nodes * 64) % 0x1_0000_0000
  }

  predicate TopologyAuthoritative(t: Topology) { TopologyValid(t) && t.generation != 0 && !t.boot.IsNil() }

  datatype Slo = Slo(generation: Generation, tailBudget: Word64, registrationDeadline: nat, share: nat)

  /** A model or state generation, and whether it survived a restart unconfirmed. */
  datatype Registration = Registration(generation: Generation, requiresRevalidation: bool)

  datatype TransferState =
    TransferRegistered | Authorized | InProgress | TransferCompleted | TransferRefused | Abandoned

  predicate TransferEnded(t: TransferState) { t.TransferCompleted? || t.TransferRefused? || t.Abandoned? }

  datatype Transfer = Transfer(
    stateHash: Word64, modelHash: Word64, payloadBytes: nat, verifiedBytes: nat,
    modelGeneration: Generation, stateGeneration: Generation, request: Id, attempt: Id,
    declaredClass: TrafficClass, integrity: Integrity, state: TransferState, reason: Reason,
    flow: FlowId)

  datatype Owner = OfRequest(request: Id, attempt: Id) | OfTransfer(transfer: Id)

  datatype Flow = Flow(
    owner: Owner, traffic: TrafficClass, declaredBytes: nat, observedBytes: nat,
    sequence: Generation, bulk: bool)

  datatype Config = Config(
    ledger: Limits, maxSlo: nat, maxRoutes: nat, maxModels: nat, maxStates: nat, maxTransfers: nat,
    maxDefers: nat, maxPayload: nat, defaultMaxAge: nat, policy: Policy, hash: Hash)

  /** Serving flows are also in the ledger's table; transfer flows only here. */
  datatype Book = Book(
    flows: map<FlowId, Flow>, byRequest: set<(Id, FlowId)>, byTransfer: set<(Id, FlowId)>,
    bulk: nat, nextFlow: nat)

  datatype Fabric = Fabric(
    config: Config, epoch: Generation, incarnation: Id, sequence: Generation, bootCount: nat,
    policy: Policy, topology: Option<Topology>,
    models: map<Word64, Registration>, states: map<Word64, Registration>,
    slo: map<Id, Slo>, routes: map<Id, Generation>,
    transfers: map<Id, Transfer>, owned: set<(Id, Id)>,
    book: Book, defers: Table, ledger: Ledger,
    started: nat, finished: nat, refused: nat)

  datatype Effect<T> = Effect(fabric: Fabric, result: Result<T>)

  // ---------------------------------------------------------------------------------------------
  // Registries
  // ---------------------------------------------------------------------------------------------

  function RequireGeneration(m: map<Word64, Registration>, h: Word64): Result<Generation> {
    if h !in m then Failure(NotFound)
    else if m[h].requiresRevalidation then Failure(RevalidationRequired)
    else Success(m[h].generation)
  }

  /** `set_model_generation` and `advance_state_generation`: a compare-and-set on one registry. */
  function AdvanceGeneration(m: map<Word64, Registration>, limit: nat, h: Word64,
                             expected: Option<Generation>): Result<Generation>
  {
    if h == 0 then Failure(InvalidArgument)
    else if h !in m then
      if expected.Some? then Failure(Conflict)
      else if |m| >= limit then Failure(CapacityExhausted)
      else Success(1)
    else if m[h].requiresRevalidation then Failure(RevalidationRequired)
    else if expected.Some? && m[h].generation != expected.value then Failure(Conflict)
    else Success(m[h].generation + 1)
  }

  function SetModelGeneration(s: Fabric, h: Word64, expected: Option<Generation>): Effect<Generation> {
    var g := AdvanceGeneration(s.models, s.config.maxModels, h, expected);
    if g.Failure? then Effect(s, g)
    else Effect(s.(models := s.models[h := Registration(g.value, false)]), g)
  }

  function AdvanceStateGeneration(s: Fabric, h: Word64, expected: Option<Generation>): Effect<Generation> {
    var g := AdvanceGeneration(s.states, s.config.maxStates, h, expected);
    if g.Failure? then Effect(s, g)
    else Effect(s.(states := s.states[h := Registration(g.value, false)]), g)
  }

  function Revalidated(m: map<Word64, Registration>, h: Word64): map<Word64, Registration> {
    if h in m then m[h := m[h].(requiresRevalidation := false)] else m
  }

  function RevalidateModel(s: Fabric, h: Word64): Effect<Generation> {
    Effect(s.(models := Revalidated(s.models, h)),
           if h in s.models then Success(s.models[h].generation) else Failure(NotFound))
  }

  function RevalidateState(s: Fabric, h: Word64): Effect<Generation> {
    Effect(s.(states := Revalidated(s.states, h)),
           if h in s.states then Success(s.states[h].generation) else Failure(NotFound))
  }

  /** The new generation follows the submitted document's, not the current policy's. */
  function ApplyPolicy(s: Fabric, p: Policy): Effect<()> {
    if !PolicyValid(p) then Effect(s, Failure(PolicyInvalid))
    else Effect(s.(policy := p.(generation := p.generation + 1)), Success(()))
  }

  function PublishTopology(s: Fabric, t: Topology, now: int): Effect<Generation> {
    if t.provenance.ProvenanceUnknown? || t.nodes == 0 then Effect(s, Failure(InvalidArgument))
    else
      var g := if s.topology.Some? then s.topology.value.generation + 1 else 1;
      var t' := t.(generation := g, boot := s.incarnation, observedAt := now,
                   maxAge := if t.maxAge == 0 then s.config.defaultMaxAge else t.maxAge);
      if !TopologyAuthoritative(t') then Effect(s, Failure(InvalidArgument))
      else Effect(s.(topology := Some(t')), Success(g))
  }

  function RegisterSlo(s: Fabric, id: Id, tailBudget: Word64, deadline: nat, share: nat): Effect<Generation> {
    if id.IsNil() then Effect(s, Failure(InvalidArgument))
    else if id !in s.ledger.requests then Effect(s, Failure(NotFound))
    else if tailBudget == 0 then Effect(s, Failure(InvalidArgument))
    else if id !in s.slo && |s.slo| >= s.config.maxSlo then Effect(s, Failure(CapacityExhausted))
    else
      var g := if id in s.slo then s.slo[id].generation + 1 else 1;
      Effect(s.(slo := s.slo[id := Slo(g, tailBudget, deadline, if share > 1000 then 1000 else share)]),
             Success(g))
  }

  function IssueRoute(s: Fabric, id: Id, a: Id): Effect<Generation> {
    if id !in s.ledger.requests then Effect(s, Failure(NotFound))
    else if Find(s.ledger.requests[id].attempts, a) < 0 then Effect(s, Failure(NotFound))
    else if a !in s.routes && |s.routes| >= s.config.maxRoutes then Effect(s, Failure(CapacityExhausted))
    else
      var g := if a in s.routes then s.routes[a] + 1 else 1;
      if id.IsNil() || a.IsNil() then Effect(s, Failure(InvalidArgument))
      else Effect(s.(routes := s.routes[a := g]), Success(g))
  }

  // ---------------------------------------------------------------------------------------------
  // Releasing flows
  // ---------------------------------------------------------------------------------------------

  function DropFlow(b: Book, f: FlowId): Book
    requires f in b.flows
  {
    var flow := b.flows[f];
    b.(flows := b.flows - {f},
       bulk := if flow.bulk then Monus(b.bulk, flow.declaredBytes) else b.bulk,
       byRequest := if flow.owner.OfRequest? then b.byRequest - {(flow.owner.request, f)} else b.byRequest,
       byTransfer := if flow.owner.OfTransfer? then b.byTransfer - {(flow.owner.transfer, f)}
                     else b.byTransfer)
  }

  function Unlinked(transfers: map<Id, Transfer>, t: Id, f: FlowId): map<Id, Transfer> {
    if t in transfers && transfers[t].flow == f then transfers[t := transfers[t].(flow := NO_FLOW)]
    else transfers
  }

  /** `release_flow_locked`, or nothing when the flow is no longer there. */
  function ReleaseOne(s: Fabric, f: FlowId): Fabric {
    if f !in s.book.flows then s
    else
      var owner := s.book.flows[f].owner;
      var s' := s.(book := DropFlow(s.book, f));
      match owner
      case OfRequest(_, _) => s'.(ledger := LedgerModel.ReleaseFlow(s.ledger, f).ledger)
      case OfTransfer(t) => s'.(transfers := Unlinked(s.transfers, t, f))
  }

  /** Releases every listed flow. The order does not matter; see `ReleaseOrderFree`. */
  ghost function ReleaseAll(s: Fabric, victims: set<FlowId>): Fabric
    decreases victims
  {
    if victims == {} then s
    else var f :| f in victims; ReleaseAll(ReleaseOne(s, f), victims - {f})
  }

  function ServingVictims(s: Fabric, id: Id): set<FlowId> {
    set p | p in s.book.byRequest && p.0 == id :: p.1
  }

  function OwnedBy(s: Fabric, id: Id): set<Id> {
    set p | p in s.owned && p.0 == id :: p.1
  }

  function TransferVictims(s: Fabric, id: Id): set<FlowId> {
    set t | t in OwnedBy(s, id) && t in s.transfers && !s.transfers[t].flow.IsNil() :: s.transfers[t].flow
  }

  function AbandonedTransfer(t: Transfer): Transfer {
    if TransferEnded(t.state) then t else t.(state := Abandoned, reason := REJECTED_REQUEST_TERMINAL)
  }

  function AbandonOwned(s: Fabric, id: Id): map<Id, Transfer> {
    map t | t in s.transfers :: if t in OwnedBy(s, id) then AbandonedTransfer(s.transfers[t]) else s.transfers[t]
  }

  /** `release_request_flows_locked`: the request's own flows, and the transfers that end with it. */
  ghost function ReleaseRequest(s: Fabric, id: Id): Fabric {
    if id.IsNil() then s
    else ReleaseAll(s.(transfers := AbandonOwned(s, id)), ServingVictims(s, id) + TransferVictims(s, id))
  }

  ghost function ReleaseTransfer(s: Fabric, t: Id): Fabric {
    if t.IsNil() then s else ReleaseAll(s, set p | p in s.book.byTransfer && p.0 == t :: p.1)
  }

  function ReleaseFlow(s: Fabric, f: FlowId): Effect<()> {
    if f !in s.book.flows then Effect(s, Failure(NotFound)) else Effect(ReleaseOne(s, f), Success(()))
  }

  // ---------------------------------------------------------------------------------------------
  // Requests
  // ---------------------------------------------------------------------------------------------

  function RegisterRequest(s: Fabric, id: Id, now: int): Effect<Generation> {
    var out := LedgerModel.RegisterRequest(s.ledger, id, now);
    Effect(s.(ledger := out.ledger), out.result)
  }

  function RegisterAttempt(s: Fabric, id: Id, a: Id, modelHash: Word64, now: int): Effect<Generation> {
    var model := if modelHash == 0 then Success(0) else RequireGeneration(s.models, modelHash);
    if model.Failure? then Effect(s, model)
    else
      var out := LedgerModel.RegisterAttempt(s.ledger, id, a, modelHash, model.value, 0, now);
      Effect(s.(ledger := out.ledger), out.result)
  }

  function RevalidateRequest(s: Fabric, id: Id, a: Id, now: int): Effect<Generation> {
    var out := LedgerModel.RevalidateRequest(s.ledger, id, a, now);
    Effect(s.(ledger := out.ledger), out.result)
  }

  function AdvanceStage(s: Fabric, id: Id, a: Id, target: Stage, now: int): Effect<()> {
    var out := LedgerModel.AdvanceStage(s.ledger, id, a, target, now);
    Effect(s.(ledger := out.ledger), out.result)
  }

  ghost function CancelRequest(s: Fabric, id: Id, reason: Reason, now: int): Effect<()> {
    var s1 := s.(sequence := s.sequence + 1);
    var out := LedgerModel.CancelRequest(s.ledger, id, reason, s1.sequence, now);
    var s2 := s1.(ledger := out.ledger);
    Effect(if out.result.Success? then ReleaseRequest(s2, id) else s2, out.result)
  }

  ghost function FailAttempt(s: Fabric, id: Id, a: Id, reason: Reason, now: int): Effect<Generation> {
    var out := LedgerModel.FailAttempt(s.ledger, id, a, reason, now);
    var s1 := s.(ledger := out.ledger);
    Effect(if out.result.Success? then ReleaseRequest(s1, id) else s1, out.result)
  }

  ghost function ReplaceAttempt(s: Fabric, id: Id, a: Id, b: Id, modelHash: Word64, now: int): Effect<Generation> {
    var model := if modelHash == 0 then Success(0) else RequireGeneration(s.models, modelHash);
    if model.Failure? then Effect(s, model)
    else
      var out := LedgerModel.SupersedeAttempt(s.ledger, id, a, b, now);
      var s1 := s.(ledger := out.ledger);
      if out.result.Failure? then Effect(s1, out.result)
      else
        var s2 := ReleaseRequest(s1, id);
        var s3 := s2.(ledger := SetAttemptModel(s2.ledger, id, b, modelHash, model.value).ledger,
                      routes := s2.routes - {a});
        Effect(s3, out.result)
  }

  ghost function PublishCompletion(s: Fabric, p: Publication, now: int): Effect<PublishOutcome> {
    var out := LedgerModel.PublishCompletion(s.ledger, p, now);
    var s1 := s.(ledger := out.ledger);
    Effect(if out.result.Success? && out.result.value.disposition.Committed?
           then ReleaseRequest(s1, p.request) else s1,
           out.result)
  }

  // ---------------------------------------------------------------------------------------------
  // Decisions and flows
  // ---------------------------------------------------------------------------------------------

  function TransferFences(s: Fabric, t: Transfer): Status {
    if TransferEnded(t.state) then Conflict
    else
      var model := if t.modelHash == 0 then Success(t.modelGeneration)
                   else RequireGeneration(s.models, t.modelHash);
      if model.Failure? then model.code
      else if model.value != t.modelGeneration then StaleGeneration
      else
        var state := RequireGeneration(s.states, t.stateHash);
        if state.Failure? then state.code
        else if state.value != t.stateGeneration then StaleGeneration
        else Ok
  }

  function ServingFences(s: Fabric, d: Decision, r: Request): Status
    requires d.subject.Serving?
  {
    if r.lifecycle.Cancelled? then Status.Cancelled
    else if r.requiresRevalidation then RevalidationRequired
    else if r.IsTerminal() then Conflict
    else if !r.IsCurrent(d.subject.attempt) then StaleGeneration
    else if r.authorityFloor != 0 && d.authority.sequence <= r.authorityFloor then StaleAuthority
    else Ok
  }

  /** `validate_decision`. A decision without a subject kind is checked for authority only. */
  function ValidateDecision(s: Fabric, d: Decision): Status {
    match ValidateAuthority(d.authority, s.epoch, s.incarnation, s.policy.generation)
    case StaleEpochVerdict => StaleEpoch
    case StalePolicyVerdict => StaleGeneration
    case StaleIncarnation => StaleEpoch
    case Absent => StaleAuthority
    case Current =>
      if !d.Permits() then Status.Refused
      else
        match d.subject
        case Serving(id, _, _) =>
          if id !in s.ledger.requests then NotFound else ServingFences(s, d, s.ledger.requests[id])
        case Moving(t) =>
          if t !in s.transfers then NotFound else TransferFences(s, s.transfers[t])
        case Unkinded(_) => Ok
  }

  predicate BulkClass(s: Fabric, c: TrafficClass) { RuleOf(s.policy, c).yieldsToLatency }

  predicate BulkExhausted(s: Fabric, c: TrafficClass, declared: nat) {
    BulkClass(s, c) && s.policy.bulkCap > 0 && AddWrap(s.book.bulk, declared) > s.policy.bulkCap
  }

  /** Files a flow; an identity already in the table keeps its record, as `emplace` does. */
  function FileFlow(b: Book, f: FlowId, flow: Flow): Book {
    b.(flows := if f in b.flows then b.flows else b.flows[f := flow],
       byRequest := if flow.owner.OfRequest? then b.byRequest + {(flow.owner.request, f)} else b.byRequest,
       byTransfer := if flow.owner.OfTransfer? then b.byTransfer + {(flow.owner.transfer, f)}
                     else b.byTransfer,
       bulk := if flow.bulk then AddWrap(b.bulk, flow.declaredBytes) else b.bulk)
  }

  function Served(s: Fabric, l: Ledger, f: FlowId, flow: Flow): Fabric {
    s.(ledger := l, book := FileFlow(s.book, f, flow))
  }

  function Moved(s: Fabric, t: Id, f: FlowId, flow: Flow): Fabric
    requires t in s.transfers
  {
    s.(transfers := s.transfers[t := s.transfers[t].(flow := f)],
       book := FileFlow(s.book.(nextFlow := s.book.nextFlow + 1), f, flow))
  }

  function OpenServing(s: Fabric, d: Decision, declared: nat, now: int, tag: bv64): Effect<FlowId>
    requires d.subject.Serving?
  {
    var c := d.treatment.traffic;
    var out := LedgerModel.OpenFlow(s.ledger, d.subject.request, d.subject.attempt, c, declared, now, tag);
    if out.result.Failure? then Effect(s, Failure(out.result.code))
    else
      var flow := Flow(OfRequest(d.subject.request, d.subject.attempt), c, declared, 0,
                       d.authority.sequence, BulkClass(s, c));
      Effect(Served(s, out.ledger, out.result.value, flow), out.result)
  }

  function OpenMoving(s: Fabric, d: Decision, declared: nat, tag: bv64): Effect<FlowId>
    requires !d.subject.Serving?
  {
    var t := d.subject.transfer;
    if t !in s.transfers then Effect(s, Failure(NotFound))
    else if !s.transfers[t].flow.IsNil() then Effect(s, Success(s.transfers[t].flow))
    else
      var f := FlowId(s.book.nextFlow + 1, tag);
      var c := d.treatment.traffic;
      var flow := Flow(OfTransfer(t), c, declared, 0, d.authority.sequence, BulkClass(s, c));
      Effect(Moved(s, t, f, flow), Success(f))
  }

  /** `open_flow`; `tag` is the mixed half of the identity, whichever counter mints it. */
  function OpenFlow(s: Fabric, d: Decision, declared: nat, now: int, tag: bv64): Effect<FlowId> {
    var code := ValidateDecision(s, d);
    if !code.Ok? then Effect(s, Failure(code))
    else if declared > s.config.maxPayload then Effect(s, Failure(BoundsExceeded))
    else if BulkExhausted(s, d.treatment.traffic, declared) then Effect(s, Failure(CapacityExhausted))
    else if d.subject.Serving? then OpenServing(s, d, declared, now, tag)
    else OpenMoving(s, d, declared, tag)
  }

  function RecordFlowBytes(s: Fabric, f: FlowId, bytes: nat, inbound: bool): Effect<()> {
    if f !in s.book.flows then Effect(s, Failure(NotFound))
    else if s.book.flows[f].observedBytes + bytes >= TWO_64 then Effect(s, Failure(BoundsExceeded))
    else
      var flow := s.book.flows[f].(observedBytes := s.book.flows[f].observedBytes + bytes);
      var s' := s.(book := s.book.(flows := s.book.flows[f := flow]));
      if flow.owner.OfRequest? then
        var out := LedgerModel.RecordFlowBytes(s.ledger, f, bytes, inbound);
        Effect(s'.(ledger := out.ledger), out.result)
      else Effect(s', Success(()))
  }
}
