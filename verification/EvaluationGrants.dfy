/**
 * What a permission grants and how it is labelled (src/coordinator.cpp): each field of the treatment by the
 * circumstance that sets it, and the degradation a label names.
 */
module EvaluationGrants {
  import opened Ids
  import opened Traffic
  import opened Reasons
  import opened Policies
  import opened Deferral
  import opened CoordinatorModel
  import opened Evaluation
  import opened EvaluationProofs

  predicate LacksDeadline(s: Fabric, q: TrafficRequest, rule: Rule, now: int)
    requires SubjectKnown(s, SubjectOf(q))
  {
    rule.requiresDeadline && !BringsDeadline(q, now) && !BudgetApplies(s, q, now)
  }

  predicate OnStaleEvidence(s: Fabric, rule: Rule, now: int) { rule.requiresTopology && !Fresh(s, now) }

  /** A subject of unknown stage, or a transfer declared under a class that is none of the transfer classes. */
  predicate Unrecognised(s: Fabric, q: TrafficRequest)
    requires SubjectKnown(s, SubjectOf(q))
  {
    match SubjectOf(q)
    case Serving(_, _, _) => AttemptOf(s, SubjectOf(q)).stage.StageUnknown?
    case Moving(t) =>
      !TransferClass(if q.declaredClass.ClassUnknown? then s.transfers[t].declaredClass else q.declaredClass)
  }

  /** The class was declared, and is not the one the subject has. */
  predicate Misdeclared(s: Fabric, q: TrafficRequest)
    requires SubjectKnown(s, SubjectOf(q))
  {
    !q.declaredClass.ClassUnknown? && q.declaredClass != EffectiveClass(s, q)
  }

  /** The stage was declared, and is not the one in the ledger. */
  predicate ClaimsOtherStage(s: Fabric, q: TrafficRequest)
    requires SubjectKnown(s, SubjectOf(q))
  {
    && SubjectOf(q).Serving? && !q.declaredStage.StageUnknown?
    && q.declaredStage != AttemptOf(s, SubjectOf(q)).stage
  }

  predicate AsksForLess(q: TrafficRequest, rule: Rule) {
    q.hint.HintBackground? && !rule.priority.Background? && !rule.priority.Bulk?
  }

  /** Served as background: unrecognised traffic with no other shortcoming. */
  predicate Conservative(s: Fabric, q: TrafficRequest, rule: Rule, now: int)
    requires SubjectKnown(s, SubjectOf(q))
  {
    Unrecognised(s, q) && !LacksDeadline(s, q, rule, now) && !OnStaleEvidence(s, rule, now)
  }

  /** The treatment, field by field. */
  predicate Grants(s: Fabric, q: TrafficRequest, rule: Rule, now: int, t: Treatment)
    requires SubjectKnown(s, SubjectOf(q))
  {
    var reduced := LacksDeadline(s, q, rule, now) || Conservative(s, q, rule, now);
    && t.traffic == EffectiveClass(s, q)
    && t.priority == (if AsksForLess(q, rule) then Background else rule.priority)
    && t.pacing == (if reduced then BestEffort else rule.pacing)
    && t.reservedWeight == (if reduced then 0 else rule.reservedWeight)
    && t.isolation == (if Conservative(s, q, rule, now) then IsolatedBackground else rule.isolation)
    && t.maxBurst == rule.maxBurst && t.rateLimit == rule.rateLimit
    && IntegrityIndex(t.integrity) == (if SubjectOf(q).Moving?
         then Max(IntegrityIndex(rule.integrity), IntegrityIndex(s.transfers[SubjectOf(q).transfer].integrity))
         else IntegrityIndex(rule.integrity))
    && !t.holdUntil.IsSet() && t.deferCount == 0
  }

  /** Whether the permission falls short of what was asked for. */
  predicate Shortcoming(s: Fabric, q: TrafficRequest, rule: Rule, now: int)
    requires SubjectKnown(s, SubjectOf(q))
  {
    || LacksDeadline(s, q, rule, now) || OnStaleEvidence(s, rule, now) || Unrecognised(s, q)
    || Misdeclared(s, q) || ClaimsOtherStage(s, q) || AsksForLess(q, rule)
  }

  /** The label of a degraded permission names a shortcoming that it has. */
  predicate ShortcomingNamed(s: Fabric, q: TrafficRequest, rule: Rule, now: int, reason: Reason)
    requires SubjectKnown(s, SubjectOf(q))
  {
    || (reason == DEGRADED_MISSING_SLO_CONTRACT && LacksDeadline(s, q, rule, now))
    || (reason == DEGRADED_STALE_TOPOLOGY && OnStaleEvidence(s, rule, now))
    || (reason == ADMITTED_CONSERVATIVE && Conservative(s, q, rule, now))
    || (reason == DEGRADED_CLASS_REDERIVED && Misdeclared(s, q))
    || (reason == DEGRADED_STAGE_CLAIM_OVERRIDDEN && ClaimsOtherStage(s, q))
    || (reason == DEGRADED_PRIORITY_LOWERED && AsksForLess(q, rule))
  }

  lemma FirstDegradation(s: Fabric, q: TrafficRequest)
    requires SubjectKnown(s, SubjectOf(q)) && ClassGate(s, q).Passed?
    ensures var first := ClassGate(s, q).degraded;
      && (first == Some(ADMITTED_CONSERVATIVE) <==> Unrecognised(s, q))
      && (first == Some(DEGRADED_CLASS_REDERIVED) ==> Misdeclared(s, q))
      && (first == Some(DEGRADED_STAGE_CLAIM_OVERRIDDEN) ==> ClaimsOtherStage(s, q))
      && (first.None? ==> !Misdeclared(s, q) && !ClaimsOtherStage(s, q))
      && (first.Some? ==> first.value in {ADMITTED_CONSERVATIVE, DEGRADED_CLASS_REDERIVED,
                                          DEGRADED_STAGE_CLAIM_OVERRIDDEN})
  {
    ClassMeaning(s, q);
    if SubjectOf(q).Serving? {
      var stage := AttemptOf(s, SubjectOf(q)).stage;
      if ServingActive(stage) { CanonicalIsLegal(stage); }
    }
  }

  lemma LastDegradation(s: Fabric, q: TrafficRequest, now: int)
    requires GateOf(s, q, now).Passed?
    ensures var g := GateOf(s, q, now);
      var rule := RuleOf(s.policy, g.traffic);
      g.degraded == if LacksDeadline(s, q, rule, now) then Some(DEGRADED_MISSING_SLO_CONTRACT)
                    else if OnStaleEvidence(s, rule, now) then Some(DEGRADED_STALE_TOPOLOGY)
                    else ClassGate(s, q).degraded
  {
    EvidenceMeaning(s, now);
    DeadlineMeaning(s, q, now);
  }

  lemma GrantedIs(s: Fabric, q: TrafficRequest, now: int)
    requires GateOf(s, q, now).Passed?
    ensures var g := GateOf(s, q, now);
      Grants(s, q, RuleOf(s.policy, g.traffic), now, Granted(s, q, g.traffic, g.degraded))
  {
    GateMeaning(s, q, now);
    FirstDegradation(s, q);
    LastDegradation(s, q, now);
  }

  /** Every permission grants exactly this, and is labelled a degradation exactly when it falls short. */
  lemma GrantExactly(s: Fabric, q: TrafficRequest, now: int, choice: Key)
    requires Evaluate(s, q, now, choice).1.Permits()
    ensures SubjectKnown(s, SubjectOf(q))
    ensures var d := Evaluate(s, q, now, choice).1;
      var rule := RuleOf(s.policy, EffectiveClass(s, q));
      && Grants(s, q, rule, now, d.treatment)
      && (d.verdict.Degraded? <==> d.reason != ADMITTED_STARVATION_GUARD && Shortcoming(s, q, rule, now))
      && (d.verdict.Degraded? ==> ShortcomingNamed(s, q, rule, now, d.reason))
      && (d.verdict.Allowed? ==> d.reason == ADMITTED || d.reason == ADMITTED_STARVATION_GUARD)
      && d.deferHint == 0
  {
    GateMeaning(s, q, now);
    FirstDegradation(s, q);
    LastDegradation(s, q, now);
    GrantedIs(s, q, now);
  }
}
