/**
 * `evaluate` (src/coordinator.cpp): the gates in the order the source asks them, the pressure test, the
 * starvation guard and the treatment that is granted.
 */
module Evaluation {
  import opened Ids
  import opened Traffic
  import opened Reasons
  import opened Policies
  import opened LedgerModel
  import opened Deferral
  import opened CoordinatorModel

  datatype EvidenceState = EvidenceUnknown | EvidenceCurrent | EvidenceStale | EvidenceUnconfirmed

  function TopologyState(s: Fabric, now: int): EvidenceState {
    if s.topology.None? then EvidenceUnknown
    else
      var t := s.topology.value;
      if t.boot != s.incarnation then EvidenceUnconfirmed
      else if t.maxAge > 0 && now > t.observedAt && now - t.observedAt > t.maxAge then EvidenceStale
      else EvidenceCurrent
  }

  function SubjectOf(q: TrafficRequest): Subject { if q.subject.Some? then q.subject.value else Unkinded(NIL) }

  /** What the deferral table compares of a subject. */
  function PartyOf(x: Subject): Party {
    match x
    case Serving(r, a, _) => ServingParty(r, a)
    case Moving(t) => TransferParty(t)
    case Unkinded(t) => TransferParty(t)
  }

  // ---------------------------------------------------------------------------------------------
  // The gates, in order
  // ---------------------------------------------------------------------------------------------

  /** Why a request is turned away, if it is. */
  type Objection = Option<Reason>

  function RegistryObjection(g: Result<Generation>, bound: Generation, stale: Reason): Objection {
    if g.Failure? then Some(if g.code.RevalidationRequired? then REJECTED_REVALIDATION_REQUIRED else stale)
    else if g.value != bound then Some(stale)
    else None
  }

  function ServingObjection(s: Fabric, x: Subject, b: Binding): Objection
    requires x.Serving?
  {
    if x.request !in s.ledger.requests then Some(REJECTED_UNKNOWN_REQUEST)
    else
      var r := s.ledger.requests[x.request];
      if r.lifecycle.Cancelled? then Some(REJECTED_REQUEST_CANCELLED)
      else if r.requiresRevalidation then Some(REJECTED_REVALIDATION_REQUIRED)
      else if r.IsTerminal() then Some(REJECTED_REQUEST_TERMINAL)
      else if Find(r.attempts, x.attempt) < 0 then Some(REJECTED_UNKNOWN_ATTEMPT)
      else if !r.IsCurrent(x.attempt) then Some(REJECTED_STALE_ATTEMPT)
      else if b.request.Some? && b.request.value != r.generation then
        Some(REJECTED_STALE_REQUEST_GENERATION)
      else None
  }

  predicate OwnerCancelled(s: Fabric, t: Transfer) {
    !t.request.IsNil() && t.request in s.ledger.requests && s.ledger.requests[t.request].lifecycle.Cancelled?
  }

  function MovingObjection(s: Fabric, x: Subject, b: Binding): Objection
    requires x.Moving?
  {
    if x.transfer !in s.transfers then Some(REJECTED_UNKNOWN_TRANSFER)
    else
      var t := s.transfers[x.transfer];
      if TransferEnded(t.state) then Some(REJECTED_TRANSFER_ALREADY_TERMINAL)
      else if OwnerCancelled(s, t) then Some(REJECTED_REQUEST_CANCELLED)
      else
        var model := if t.modelHash == 0 then None
                     else RegistryObjection(RequireGeneration(s.models, t.modelHash), t.modelGeneration,
                                            REJECTED_STALE_MODEL_GENERATION);
        if model.Some? then model
        else
          var state := RegistryObjection(RequireGeneration(s.states, t.stateHash), t.stateGeneration,
                                         REJECTED_STALE_STATE_GENERATION);
          if state.Some? then state
          else if b.model.Some? && b.model.value != t.modelGeneration then
            Some(REJECTED_STALE_MODEL_GENERATION)
          else if b.state.Some? && b.state.value != t.stateGeneration then
            Some(REJECTED_STALE_STATE_GENERATION)
          else None
  }

  function SubjectObjection(s: Fabric, q: TrafficRequest): (o: Objection)
    ensures o.None? ==> SubjectKnown(s, SubjectOf(q))
  {
    var b := q.binding;
    if !q.StructurallyValid() || q.subject.None? then Some(REJECTED_SUBJECT_KIND_MISMATCH)
    else if b.epoch.Some? && b.epoch.value != s.epoch then Some(REJECTED_STALE_EPOCH)
    else if b.policy.Some? && b.policy.value != s.policy.generation then
      Some(REJECTED_STALE_POLICY_GENERATION)
    else
      match q.subject.value
      case Serving(_, _, _) => ServingObjection(s, q.subject.value, b)
      case Moving(_) => MovingObjection(s, q.subject.value, b)
      case Unkinded(_) => Some(REJECTED_SUBJECT_KIND_MISMATCH)
  }

  predicate SubjectKnown(s: Fabric, x: Subject) {
    match x
    case Serving(r, a, _) => r in s.ledger.requests && Find(s.ledger.requests[r].attempts, a) >= 0
    case Moving(t) => t in s.transfers
    case Unkinded(_) => false
  }

  function AttemptOf(s: Fabric, x: Subject): Attempt
    requires SubjectKnown(s, x) && x.Serving?
  {
    var attempts := s.ledger.requests[x.request].attempts;
    attempts[Find(attempts, x.attempt)]
  }

  /** A request that passed, the class it is treated as, and what it was degraded for last. */
  datatype Gate = Stopped(reason: Reason) | Passed(traffic: TrafficClass, degraded: Objection)

  function ServingClass(p: Policy, declared: TrafficClass, claimed: Stage, stage: Stage): Gate {
    if !ServingActive(stage) then
      if !stage.StageUnknown? then Stopped(REJECTED_REQUEST_TERMINAL)
      else if !p.allowUnknownStage then Stopped(REJECTED_UNKNOWN_STAGE)
      else Passed(ClassUnknown, Some(ADMITTED_CONSERVATIVE))
    else
      var claim := if !claimed.StageUnknown? && claimed != stage
                   then Some(DEGRADED_STAGE_CLAIM_OVERRIDDEN) else None;
      var derived := if declared.ClassUnknown? then Passed(CanonicalClass(stage), claim)
                     else if !ClassLegal(declared, stage) then
                       Passed(CanonicalClass(stage), Some(DEGRADED_CLASS_REDERIVED))
                     else Passed(declared, claim);
      if derived.traffic.ClassUnknown? then
        if !p.allowUnknownClass then Stopped(REJECTED_UNKNOWN_CLASS)
        else Passed(ClassUnknown, Some(ADMITTED_CONSERVATIVE))
      else derived
  }

  function MovingClass(p: Policy, declared: TrafficClass, own: TrafficClass): Gate {
    var c := if declared.ClassUnknown? then own else declared;
    if !TransferClass(c) then
      if !p.allowUnknownClass then Stopped(REJECTED_CLASS_NOT_LEGAL_FOR_STAGE)
      else Passed(c, Some(ADMITTED_CONSERVATIVE))
    else if c != own then Passed(own, Some(DEGRADED_CLASS_REDERIVED))
    else Passed(c, None)
  }

  function ClassGate(s: Fabric, q: TrafficRequest): Gate
    requires SubjectKnown(s, SubjectOf(q))
  {
    match SubjectOf(q)
    case Serving(_, _, _) =>
      ServingClass(s.policy, q.declaredClass, q.declaredStage, AttemptOf(s, SubjectOf(q)).stage)
    case Moving(t) => MovingClass(s.policy, q.declaredClass, s.transfers[t].declaredClass)
  }

  predicate InGrace(s: Fabric, now: int) {
    && s.policy.staleGrace > 0 && s.topology.Some? && now > s.topology.value.observedAt
    && now - s.topology.value.observedAt <= s.policy.staleGrace
  }

  function TopologyObjection(s: Fabric, q: TrafficRequest, rule: Rule, now: int): Objection {
    if !rule.requiresTopology then None
    else
      var e := TopologyState(s, now);
      if e.EvidenceUnknown? then Some(REJECTED_EVIDENCE_UNKNOWN)
      else if !e.EvidenceCurrent? && !InGrace(s, now) then
        Some(if e.EvidenceUnconfirmed? then REJECTED_REVALIDATION_REQUIRED else REJECTED_EVIDENCE_STALE)
      else if q.binding.topology.Some? && q.binding.topology.value != s.topology.value.generation then
        Some(REJECTED_STALE_TOPOLOGY_GENERATION)
      else None
  }

  /** A transfer inherits the contract of the request that owns it. */
  function ContractOf(s: Fabric, x: Subject): Option<Slo>
    requires SubjectKnown(s, x)
  {
    var id := match x case Serving(r, _, _) => r case Moving(t) => s.transfers[t].request;
    if (x.Serving? || !id.IsNil()) && id in s.slo then Some(s.slo[id]) else None
  }

  function SloObjection(s: Fabric, q: TrafficRequest, rule: Rule): Objection
    requires SubjectKnown(s, SubjectOf(q))
  {
    var slo := ContractOf(s, SubjectOf(q));
    if !rule.requiresSlo then None
    else if slo.None? then Some(REJECTED_STALE_SLO_CONTRACT)
    else if q.binding.slo.Some? && q.binding.slo.value != slo.value.generation then
      Some(REJECTED_STALE_SLO_CONTRACT)
    else None
  }

  function RouteAttempt(s: Fabric, x: Subject): Id
    requires SubjectKnown(s, x)
  {
    match x case Serving(_, a, _) => a case Moving(t) => s.transfers[t].attempt
  }

  function RouteObjection(s: Fabric, q: TrafficRequest, rule: Rule): Objection
    requires SubjectKnown(s, SubjectOf(q))
  {
    var a := RouteAttempt(s, SubjectOf(q));
    if !rule.requiresRoute || a.IsNil() then None
    else if a !in s.routes then Some(REJECTED_STALE_ROUTE_DECISION)
    else if q.binding.route.Some? && q.binding.route.value != s.routes[a] then
      Some(REJECTED_STALE_ROUTE_DECISION)
    else None
  }

  function ModelObjection(s: Fabric, q: TrafficRequest, rule: Rule): Objection
    requires SubjectKnown(s, SubjectOf(q))
  {
    if !rule.requiresModel || !SubjectOf(q).Serving? then None
    else
      var a := AttemptOf(s, SubjectOf(q));
      if a.modelHash == 0 then Some(REJECTED_STALE_MODEL_GENERATION)
      else
        var model := RegistryObjection(RequireGeneration(s.models, a.modelHash), a.modelGeneration,
                                       REJECTED_STALE_MODEL_GENERATION);
        if model.Some? then model
        else if q.binding.model.Some? && q.binding.model.value != a.modelGeneration then
          Some(REJECTED_STALE_MODEL_GENERATION)
        else None
  }

  const HOUR: nat := 3_600_000_000_000

  /** The request's own deadline, else one counted from now, else the contract's tail budget. */
  function DeadlineOf(s: Fabric, q: TrafficRequest, now: int): Instant
    requires SubjectKnown(s, SubjectOf(q))
  {
    var x := SubjectOf(q);
    var own := if !q.deadline.IsSet() && q.deadlineAfter > 0
               then FromNow(now, if q.deadlineAfter > HOUR then HOUR else q.deadlineAfter)
               else q.deadline;
    var slo := ContractOf(s, x);
    if !own.IsSet() && slo.Some? && slo.value.tailBudget > 0
       && x.Serving? && s.ledger.requests[x.request].registeredAt > 0
    then Instant(s.ledger.requests[x.request].registeredAt + ToSigned(slo.value.tailBudget))
    else own
  }

  function DeadlineObjection(s: Fabric, q: TrafficRequest, now: int): Objection
    requires SubjectKnown(s, SubjectOf(q))
  {
    if DeadlineOf(s, q, now).ExpiredAt(now) then Some(REJECTED_DEADLINE_EXPIRED) else None
  }

  function FirstOf(a: Objection, b: Objection): Objection { if a.Some? then a else b }

  function RuleObjection(s: Fabric, q: TrafficRequest, rule: Rule, now: int): Objection
    requires SubjectKnown(s, SubjectOf(q))
  {
    if !rule.enabled then Some(REJECTED_CLASS_DISABLED)
    else FirstOf(TopologyObjection(s, q, rule, now),
         FirstOf(SloObjection(s, q, rule),
         FirstOf(RouteObjection(s, q, rule),
         FirstOf(ModelObjection(s, q, rule), DeadlineObjection(s, q, now)))))
  }

  /** Later degradations replace earlier ones. */
  function Degradation(s: Fabric, q: TrafficRequest, rule: Rule, earlier: Objection, now: int): Objection
    requires SubjectKnown(s, SubjectOf(q))
  {
    var stale := if rule.requiresTopology && !TopologyState(s, now).EvidenceCurrent?
                 then Some(DEGRADED_STALE_TOPOLOGY) else earlier;
    if rule.requiresDeadline && !DeadlineOf(s, q, now).IsSet() then Some(DEGRADED_MISSING_SLO_CONTRACT)
    else stale
  }

  function GateOf(s: Fabric, q: TrafficRequest, now: int): (g: Gate)
    ensures g.Passed? ==> SubjectKnown(s, SubjectOf(q))
  {
    var first := SubjectObjection(s, q);
    if first.Some? then Stopped(first.value)
    else
      match ClassGate(s, q)
      case Stopped(reason) => Stopped(reason)
      case Passed(c, degraded) =>
        var rule := RuleOf(s.policy, c);
        var second := RuleObjection(s, q, rule, now);
        if second.Some? then Stopped(second.value)
        else Passed(c, Degradation(s, q, rule, degraded, now))
  }

  // ---------------------------------------------------------------------------------------------
  // Pressure and the starvation guard
  // ---------------------------------------------------------------------------------------------

  predicate Congested(s: Fabric, now: int) {
    TopologyState(s, now).EvidenceCurrent? && s.topology.Some? && s.topology.value.congested
  }

  function Pressure(s: Fabric, q: TrafficRequest, c: TrafficClass, now: int): Objection {
    var rule := RuleOf(s.policy, c);
    if rule.yieldsToLatency then
      if Congested(s, now) && s.policy.congestionYieldsBulk then Some(DEFERRED_CONGESTION)
      else if s.defers.streaming > 0 then Some(DEFERRED_BULK_YIELD)
      else if s.policy.bulkCap > 0 && q.payloadBytes > 0
              && AddWrap(s.book.bulk, q.payloadBytes) > s.policy.bulkCap then
        Some(DEFERRED_BULK_CAPACITY)
      else None
    else if Congested(s, now) && s.topology.value.queueDepth >= s.policy.congestionQueueDepth
            && rule.reservedWeight == 0 then Some(DEFERRED_CONGESTION)
    else None
  }

  /** Whether a protected pair has waited long enough, given its record after the newest deferral. */
  predicate Exhausted(rule: Rule, r: DeferRecord, now: int) {
    && rule.starvationProtected
    && (|| (rule.maxDeferCount > 0 && r.count >= rule.maxDeferCount)
        || (rule.maxDeferHorizon > 0 && now > r.first && now - r.first >= rule.maxDeferHorizon))
  }

  ghost function Noted(s: Fabric, x: Subject, c: TrafficClass, now: int, choice: Key): Table {
    Note(s.defers, PartyOf(x), c, RuleOf(s.policy, c).starvationProtected, now, choice)
  }

  /** The record of the pair, which the note just made or bumped. */
  ghost function NotedRecord(s: Fabric, x: Subject, c: TrafficClass, now: int, choice: Key): DeferRecord {
    Noted(s, x, c, now, choice).records[s.defers.hash(PartyOf(x), c)]
  }

  ghost predicate Guarded(s: Fabric, x: Subject, c: TrafficClass, now: int, choice: Key) {
    Exhausted(RuleOf(s.policy, c), NotedRecord(s, x, c, now, choice), now)
  }

  // ---------------------------------------------------------------------------------------------
  // The decision
  // ---------------------------------------------------------------------------------------------

  function MaxIntegrity(a: Integrity, b: Integrity): Integrity {
    if IntegrityIndex(a) >= IntegrityIndex(b) then a else b
  }

  function RuleTreatment(rule: Rule, c: TrafficClass): Treatment {
    Treatment(c, rule.priority, rule.pacing, rule.integrity, rule.isolation, rule.reservedWeight,
              rule.maxBurst, rule.rateLimit, UNSET, 0)
  }

  /** A background hint lowers the priority, and counts as a degradation when there is no other. */
  predicate Lowered(q: TrafficRequest, rule: Rule) {
    q.hint.HintBackground? && PriorityIndex(rule.priority) < PriorityIndex(Background)
  }

  function FinalDegradation(q: TrafficRequest, rule: Rule, degraded: Objection): Objection {
    if degraded.None? && Lowered(q, rule) then Some(DEGRADED_PRIORITY_LOWERED) else degraded
  }

  function Granted(s: Fabric, q: TrafficRequest, c: TrafficClass, degraded: Objection): Treatment {
    var rule := RuleOf(s.policy, c);
    var x := SubjectOf(q);
    var t0 := RuleTreatment(rule, c);
    var t1 := if x.Moving? && x.transfer in s.transfers
              then t0.(integrity := MaxIntegrity(rule.integrity, s.transfers[x.transfer].integrity)) else t0;
    var t2 := if degraded == Some(DEGRADED_MISSING_SLO_CONTRACT)
              then t1.(pacing := BestEffort, reservedWeight := 0) else t1;
    var t3 := if Lowered(q, rule) then t2.(priority := Background) else t2;
    if FinalDegradation(q, rule, degraded) == Some(ADMITTED_CONSERVATIVE)
    then t3.(pacing := BestEffort, reservedWeight := 0, isolation := IsolatedBackground) else t3
  }

  function Minted(s: Fabric): Stamp { Stamp(s.epoch, s.incarnation, s.policy.generation, s.sequence + 1) }

  function Counted(l: Ledger, x: Subject, v: Verdict): Ledger {
    if x.Serving? then RecordDecision(l, x.request, x.attempt, v).ledger else l
  }

  function DeferredTreatment(s: Fabric, c: TrafficClass, now: int, count: nat): Treatment {
    var rule := RuleOf(s.policy, c);
    NO_TREATMENT.(traffic := c, priority := rule.priority, pacing := rule.pacing,
                  integrity := rule.integrity, isolation := rule.isolation,
                  holdUntil := FromNow(now, s.policy.deferHint), deferCount := count)
  }

  /** What is decided, and the deferral table it leaves. */
  datatype Ruling = Ruling(table: Table, verdict: Verdict, reason: Reason, treatment: Treatment, hint: nat)

  function Permit(s: Fabric, q: TrafficRequest, c: TrafficClass, degraded: Objection): Ruling {
    var final := FinalDegradation(q, RuleOf(s.policy, c), degraded);
    Ruling(Clear(s.defers, PartyOf(SubjectOf(q)), c), if final.Some? then Degraded else Allowed,
           if final.Some? then final.value else ADMITTED, Granted(s, q, c, degraded), 0)
  }

  ghost function Decide(s: Fabric, q: TrafficRequest, now: int, choice: Key): Ruling {
    match GateOf(s, q, now)
    case Stopped(reason) => Ruling(s.defers, Rejected, reason, NO_TREATMENT, 0)
    case Passed(c, degraded) =>
      var x := SubjectOf(q);
      var pressure := Pressure(s, q, c, now);
      if pressure.None? then Permit(s, q, c, degraded)
      else
        var noted := Noted(s, x, c, now, choice);
        if Guarded(s, x, c, now, choice) then
          Ruling(Clear(noted, PartyOf(x), c), Allowed, ADMITTED_STARVATION_GUARD,
                 Granted(s, q, c, degraded), 0)
        else
          Ruling(noted, Deferred, pressure.value,
                 DeferredTreatment(s, c, now, NotedRecord(s, x, c, now, choice).count),
                 s.policy.deferHint)
  }

  /** `evaluate_locked`: mints a stamp, and counts the decision on the request it is about. */
  ghost function Evaluate(s: Fabric, q: TrafficRequest, now: int, choice: Key): (Fabric, Decision) {
    Pronounced(s, q, Decide(s, q, now, choice))
  }

  function Pronounced(s: Fabric, q: TrafficRequest, r: Ruling): (Fabric, Decision) {
    var x := SubjectOf(q);
    (s.(sequence := s.sequence + 1, defers := r.table, ledger := Counted(s.ledger, x, r.verdict)),
     Decision(r.verdict, r.reason, r.treatment, x, q.binding, Minted(s), r.hint))
  }
}
