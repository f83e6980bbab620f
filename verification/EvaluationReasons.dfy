/**
 * What `evaluate` says about its decisions: a refusal names a fence that is down, a grant stays within
 * the rule of its class, and an admission fits the bulk ceiling that `open_flow` enforces.
 */
module EvaluationReasons {
  import opened Ids
  import opened Traffic
  import opened Reasons
  import opened Policies
  import opened LedgerModel
  import opened Deferral
  import opened CoordinatorModel
  import opened Evaluation
  import opened EvaluationProofs

  // ---------------------------------------------------------------------------------------------
  // Refusals
  // ---------------------------------------------------------------------------------------------

  predicate ServingExplains(s: Fabric, x: Subject, b: Binding, reason: Reason)
    requires x.Serving?
  {
    if x.request !in s.ledger.requests then reason == REJECTED_UNKNOWN_REQUEST
    else
      var r := s.ledger.requests[x.request];
      || (reason == REJECTED_REQUEST_CANCELLED && r.lifecycle.Cancelled?)
      || (reason == REJECTED_REVALIDATION_REQUIRED && r.requiresRevalidation)
      || (reason == REJECTED_REQUEST_TERMINAL && r.IsTerminal())
      || (reason == REJECTED_UNKNOWN_ATTEMPT && Find(r.attempts, x.attempt) < 0)
      || (reason == REJECTED_STALE_ATTEMPT && !r.IsCurrent(x.attempt))
      || (reason == REJECTED_STALE_REQUEST_GENERATION && !Agrees(b.request, r.generation))
  }

  /** A registration that is missing or has another number is stale; one that survived must be confirmed. */
  predicate RegistryExplains(m: map<Word64, Registration>, h: Word64, g: Generation, stale: Reason, reason: Reason) {
    || (reason == REJECTED_REVALIDATION_REQUIRED && h in m && m[h].requiresRevalidation)
    || (reason == stale && (h !in m || m[h].generation != g))
  }

  predicate MovingExplains(s: Fabric, x: Subject, b: Binding, reason: Reason)
    requires x.Moving?
  {
    if x.transfer !in s.transfers then reason == REJECTED_UNKNOWN_TRANSFER
    else
      var t := s.transfers[x.transfer];
      || (reason == REJECTED_TRANSFER_ALREADY_TERMINAL && TransferEnded(t.state))
      || (reason == REJECTED_REQUEST_CANCELLED && OwnerCancelled(s, t))
      || (t.modelHash != 0
          && RegistryExplains(s.models, t.modelHash, t.modelGeneration, REJECTED_STALE_MODEL_GENERATION, reason))
      || RegistryExplains(s.states, t.stateHash, t.stateGeneration, REJECTED_STALE_STATE_GENERATION, reason)
      || (reason == REJECTED_STALE_MODEL_GENERATION && !Agrees(b.model, t.modelGeneration))
      || (reason == REJECTED_STALE_STATE_GENERATION && !Agrees(b.state, t.stateGeneration))
  }

  predicate SubjectExplains(s: Fabric, q: TrafficRequest, reason: Reason) {
    || (reason == REJECTED_SUBJECT_KIND_MISMATCH && (q.subject.None? || !q.StructurallyValid()))
    || (reason == REJECTED_STALE_EPOCH && !Agrees(q.binding.epoch, s.epoch))
    || (reason == REJECTED_STALE_POLICY_GENERATION && !Agrees(q.binding.policy, s.policy.generation))
    || (SubjectOf(q).Serving? && ServingExplains(s, SubjectOf(q), q.binding, reason))
    || (SubjectOf(q).Moving? && MovingExplains(s, SubjectOf(q), q.binding, reason))
  }

  predicate ClassExplains(s: Fabric, q: TrafficRequest, reason: Reason)
    requires SubjectKnown(s, SubjectOf(q))
  {
    match SubjectOf(q)
    case Serving(_, _, _) =>
      var stage := AttemptOf(s, SubjectOf(q)).stage;
      || (reason == REJECTED_REQUEST_TERMINAL && StageTerminal(stage))
      || (reason == REJECTED_UNKNOWN_STAGE && stage.StageUnknown? && !s.policy.allowUnknownStage)
    case Moving(_) => reason == REJECTED_CLASS_NOT_LEGAL_FOR_STAGE && !ClassAllowed(s, q)
  }

  predicate EvidenceExplains(s: Fabric, q: TrafficRequest, now: int, reason: Reason) {
    || (reason == REJECTED_EVIDENCE_UNKNOWN && s.topology.None?)
    || (reason == REJECTED_REVALIDATION_REQUIRED && s.topology.Some? && s.topology.value.boot != s.incarnation
        && !Graced(s, now))
    || (reason == REJECTED_EVIDENCE_STALE && s.topology.Some? && s.topology.value.boot == s.incarnation
        && !Fresh(s, now) && !Graced(s, now))
    || (reason == REJECTED_STALE_TOPOLOGY_GENERATION && s.topology.Some?
        && !Agrees(q.binding.topology, s.topology.value.generation))
  }

  predicate ModelExplains(s: Fabric, q: TrafficRequest, reason: Reason)
    requires SubjectKnown(s, SubjectOf(q)) && SubjectOf(q).Serving?
  {
    var a := AttemptOf(s, SubjectOf(q));
    || (reason == REJECTED_STALE_MODEL_GENERATION && (a.modelHash == 0 || !Agrees(q.binding.model, a.modelGeneration)))
    || RegistryExplains(s.models, a.modelHash, a.modelGeneration, REJECTED_STALE_MODEL_GENERATION, reason)
  }

  predicate RuleExplains(s: Fabric, q: TrafficRequest, rule: Rule, now: int, reason: Reason)
    requires SubjectKnown(s, SubjectOf(q))
  {
    || (reason == REJECTED_CLASS_DISABLED && !rule.enabled)
    || (rule.requiresTopology && EvidenceExplains(s, q, now, reason))
    || (reason == REJECTED_STALE_SLO_CONTRACT && !ContractFenced(s, q, rule))
    || (reason == REJECTED_STALE_ROUTE_DECISION && !RouteFenced(s, q, rule))
    || (rule.requiresModel && SubjectOf(q).Serving? && ModelExplains(s, q, reason))
    || (reason == REJECTED_DEADLINE_EXPIRED && !InTime(s, q, now))
  }

  lemma SubjectNamed(s: Fabric, q: TrafficRequest)
    requires SubjectObjection(s, q).Some?
    ensures SubjectExplains(s, q, SubjectObjection(s, q).value)
  {
  }

  lemma ClassNamed(s: Fabric, q: TrafficRequest)
    requires SubjectKnown(s, SubjectOf(q)) && ClassGate(s, q).Stopped?
    ensures ClassExplains(s, q, ClassGate(s, q).reason)
  {
    if SubjectOf(q).Serving? {
      var stage := AttemptOf(s, SubjectOf(q)).stage;
      if ServingActive(stage) { CanonicalIsLegal(stage); }
    }
  }

  lemma RuleNamed(s: Fabric, q: TrafficRequest, rule: Rule, now: int)
    requires SubjectKnown(s, SubjectOf(q)) && RuleObjection(s, q, rule, now).Some?
    ensures RuleExplains(s, q, rule, now, RuleObjection(s, q, rule, now).value)
  {
    EvidenceMeaning(s, now);
    ContractMeaning(s, q);
    DeadlineMeaning(s, q, now);
  }

  /** Whatever the order of the questions, a refusal gives the reason of a fence that is down. */
  lemma RefusalsNameTheirFence(s: Fabric, q: TrafficRequest, now: int, choice: Key)
    requires Evaluate(s, q, now, choice).1.verdict.Rejected?
    ensures var reason := Evaluate(s, q, now, choice).1.reason;
      || SubjectExplains(s, q, reason)
      || (SubjectKnown(s, SubjectOf(q))
          && (ClassExplains(s, q, reason)
              || RuleExplains(s, q, RuleOf(s.policy, EffectiveClass(s, q)), now, reason)))
  {
    if SubjectObjection(s, q).Some? {
      SubjectNamed(s, q);
    } else if ClassGate(s, q).Stopped? {
      ClassNamed(s, q);
    } else {
      ClassMeaning(s, q);
      RuleNamed(s, q, RuleOf(s.policy, EffectiveClass(s, q)), now);
    }
  }

  // ---------------------------------------------------------------------------------------------
  // Grants
  // ---------------------------------------------------------------------------------------------

  /** A grant is the rule's, or lower: never a higher priority, more weight, or less integrity. */
  predicate WithinRule(s: Fabric, q: TrafficRequest, t: Treatment) {
    var rule := RuleOf(s.policy, t.traffic);
    var x := SubjectOf(q);
    && t.maxBurst == rule.maxBurst && t.rateLimit == rule.rateLimit
    && (t.reservedWeight == rule.reservedWeight || t.reservedWeight == 0)
    && (t.pacing == rule.pacing || t.pacing.BestEffort?)
    && (t.isolation == rule.isolation || t.isolation.IsolatedBackground?)
    && PriorityIndex(t.priority) >= PriorityIndex(rule.priority)
    && (t.priority != rule.priority ==> q.hint.HintBackground? && t.priority.Background?)
    && IntegrityIndex(t.integrity) >= IntegrityIndex(rule.integrity)
    && (x.Moving? && x.transfer in s.transfers ==>
          IntegrityIndex(t.integrity) >= IntegrityIndex(s.transfers[x.transfer].integrity))
  }

  lemma GrantWithinRule(s: Fabric, q: TrafficRequest, c: TrafficClass, degraded: Objection)
    ensures Granted(s, q, c, degraded).traffic == c && WithinRule(s, q, Granted(s, q, c, degraded))
  {
  }

  /** Every permission is granted within the rule of its effective class. */
  lemma PermissionsStayWithinRule(s: Fabric, q: TrafficRequest, now: int, choice: Key)
    requires Evaluate(s, q, now, choice).1.Permits()
    ensures WithinRule(s, q, Evaluate(s, q, now, choice).1.treatment)
  {
    var g := GateOf(s, q, now);
    GrantWithinRule(s, q, g.traffic, g.degraded);
  }

  /** A degradation that takes the place of the first: stale evidence in its grace period, or no deadline. */
  predicate Replaced(s: Fabric, q: TrafficRequest, rule: Rule, now: int)
    requires SubjectKnown(s, SubjectOf(q))
  {
    || (rule.requiresTopology && !Fresh(s, now))
    || (rule.requiresDeadline && !BringsDeadline(q, now) && !BudgetApplies(s, q, now))
  }

  /**
   * Traffic of an unknown stage is isolated as background exactly when its first degradation is not replaced
   * by a later one, or the rule for unknown traffic isolates it so by itself.
   */
  lemma ConservativeExactly(s: Fabric, q: TrafficRequest, now: int)
    requires SubjectOf(q).Serving? && SubjectKnown(s, SubjectOf(q)) && GateOf(s, q, now).Passed?
    requires AttemptOf(s, SubjectOf(q)).stage.StageUnknown?
    ensures var g := GateOf(s, q, now);
      var rule := RuleOf(s.policy, ClassUnknown);
      && g.traffic.ClassUnknown?
      && (g.degraded == Some(ADMITTED_CONSERVATIVE) <==> !Replaced(s, q, rule, now))
      && Granted(s, q, g.traffic, g.degraded).isolation ==
         (if Replaced(s, q, rule, now) then rule.isolation else IsolatedBackground)
      && (Granted(s, q, g.traffic, g.degraded).isolation.IsolatedBackground? <==>
          !Replaced(s, q, rule, now) || rule.isolation.IsolatedBackground?)
  {
    EvidenceMeaning(s, now);
    DeadlineMeaning(s, q, now);
  }

  // ---------------------------------------------------------------------------------------------
  // Capacity
  // ---------------------------------------------------------------------------------------------

  /** Bulk traffic that is admitted for lack of pressure fits the ceiling when its flow is opened. */
  lemma AdmittedFitsCeiling(s: Fabric, q: TrafficRequest, now: int, choice: Key)
    requires var e := Evaluate(s, q, now, choice); e.1.Permits() && e.1.reason != ADMITTED_STARVATION_GUARD
    requires q.payloadBytes > 0
    ensures var e := Evaluate(s, q, now, choice); !BulkExhausted(e.0, e.1.treatment.traffic, q.payloadBytes)
  {
    var g := GateOf(s, q, now);
    GrantWithinRule(s, q, g.traffic, g.degraded);
  }

  // ---------------------------------------------------------------------------------------------
  // Validation
  // ---------------------------------------------------------------------------------------------

  /** The stamp is of this epoch, this incarnation and this policy, and was really minted. */
  predicate Stamped(s: Fabric, a: Stamp) {
    && a.epoch == s.epoch && a.epoch != 0
    && a.incarnation == s.incarnation && !a.incarnation.IsNil()
    && a.policy == s.policy.generation && a.sequence != 0
  }

  /** The request is live and confirmed, the attempt current, the stamp minted after the floor. */
  predicate ServingStands(s: Fabric, d: Decision)
    requires d.subject.Serving?
  {
    && d.subject.request in s.ledger.requests
    && var r := s.ledger.requests[d.subject.request];
       && !r.IsTerminal() && !r.requiresRevalidation && r.IsCurrent(d.subject.attempt)
       && (r.authorityFloor == 0 || d.authority.sequence > r.authorityFloor)
  }

  /** The transfer is open and its generations are the confirmed ones. */
  predicate MovingStands(s: Fabric, d: Decision)
    requires d.subject.Moving?
  {
    && d.subject.transfer in s.transfers
    && var t := s.transfers[d.subject.transfer];
       && !TransferEnded(t.state)
       && (t.modelHash != 0 ==> Confirmed(s.models, t.modelHash, t.modelGeneration))
       && Confirmed(s.states, t.stateHash, t.stateGeneration)
  }

  /** A decision validates exactly when every condition of this order-free list holds. */
  lemma ValidationMeaning(s: Fabric, d: Decision)
    ensures ValidateDecision(s, d).Ok? <==>
            && Stamped(s, d.authority) && d.Permits()
            && (d.subject.Serving? ==> ServingStands(s, d))
            && (d.subject.Moving? ==> MovingStands(s, d))
  {
    if d.subject.Moving? && d.subject.transfer in s.transfers {
      var t := s.transfers[d.subject.transfer];
      assert RequireGeneration(s.models, t.modelHash) == Success(t.modelGeneration) <==>
             Confirmed(s.models, t.modelHash, t.modelGeneration);
    }
  }
}
