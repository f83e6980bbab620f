/**
 * What `evaluate` decides, without the order in which it asks: the fences a permitted request meets, the
 * pressure that defers one, the guard that overrides pressure, and the fate of the decision afterwards.
 */
module EvaluationProofs {
  import opened Ids
  import opened Traffic
  import opened Reasons
  import opened Policies
  import opened LedgerModel
  import opened LedgerRecords
  import opened Deferral
  import opened CoordinatorModel
  import opened Evaluation

  // ---------------------------------------------------------------------------------------------
  // Fences
  // ---------------------------------------------------------------------------------------------

  /** The registry holds exactly this generation, confirmed in this incarnation. */
  predicate Confirmed(m: map<Word64, Registration>, h: Word64, g: Generation) {
    h in m && m[h] == Registration(g, false)
  }

  predicate ServingFenced(s: Fabric, x: Subject, b: Binding)
    requires x.Serving?
  {
    && x.request in s.ledger.requests
    && var r := s.ledger.requests[x.request];
       && !r.IsTerminal() && !r.requiresRevalidation
       && r.IsCurrent(x.attempt) && Find(r.attempts, x.attempt) >= 0
       && Agrees(b.request, r.generation)
  }

  predicate MovingFenced(s: Fabric, x: Subject, b: Binding)
    requires x.Moving?
  {
    && x.transfer in s.transfers
    && var t := s.transfers[x.transfer];
       && !TransferEnded(t.state) && !OwnerCancelled(s, t)
       && (t.modelHash != 0 ==> Confirmed(s.models, t.modelHash, t.modelGeneration))
       && Confirmed(s.states, t.stateHash, t.stateGeneration)
       && Agrees(b.model, t.modelGeneration) && Agrees(b.state, t.stateGeneration)
  }

  predicate SubjectFenced(s: Fabric, q: TrafficRequest) {
    && q.subject.Some? && q.StructurallyValid()
    && Agrees(q.binding.epoch, s.epoch) && Agrees(q.binding.policy, s.policy.generation)
    && (q.subject.value.Serving? ==> ServingFenced(s, q.subject.value, q.binding))
    && (q.subject.value.Moving? ==> MovingFenced(s, q.subject.value, q.binding))
  }

  /** The stage the ledger holds for the attempt, never the one the caller claims. */
  predicate ClassAllowed(s: Fabric, q: TrafficRequest)
    requires SubjectKnown(s, SubjectOf(q))
  {
    match SubjectOf(q)
    case Serving(_, _, _) =>
      var stage := AttemptOf(s, SubjectOf(q)).stage;
      !StageTerminal(stage) && (stage.StageUnknown? ==> s.policy.allowUnknownStage)
    case Moving(t) =>
      s.policy.allowUnknownClass
      || TransferClass(if q.declaredClass.ClassUnknown? then s.transfers[t].declaredClass else q.declaredClass)
  }

  /** The class a request is treated as, whatever it declares. */
  function EffectiveClass(s: Fabric, q: TrafficRequest): TrafficClass
    requires SubjectKnown(s, SubjectOf(q))
  {
    match SubjectOf(q)
    case Serving(_, _, _) =>
      var stage := AttemptOf(s, SubjectOf(q)).stage;
      if ClassLegal(q.declaredClass, stage) then q.declaredClass else CanonicalClass(stage)
    case Moving(t) =>
      if TransferClass(q.declaredClass) || q.declaredClass.ClassUnknown? then s.transfers[t].declaredClass
      else q.declaredClass
  }

  /** The evidence was published in this incarnation and has not outlived its age, if it has one. */
  predicate Fresh(s: Fabric, now: int) {
    && s.topology.Some? && s.topology.value.boot == s.incarnation
    && (s.topology.value.maxAge == 0 || now - s.topology.value.observedAt <= s.topology.value.maxAge)
  }

  /** Whatever its state, the evidence was observed within the policy's grace period. */
  predicate Graced(s: Fabric, now: int) {
    s.topology.Some? && 0 < now - s.topology.value.observedAt <= s.policy.staleGrace
  }

  predicate EvidenceFenced(s: Fabric, q: TrafficRequest, rule: Rule, now: int) {
    rule.requiresTopology ==>
      && (Fresh(s, now) || Graced(s, now))
      && Agrees(q.binding.topology, s.topology.value.generation)
  }

  /** The request whose contract counts: the subject's own, or the one that owns the transfer. */
  function Holder(s: Fabric, q: TrafficRequest): Id
    requires SubjectKnown(s, SubjectOf(q))
  {
    if SubjectOf(q).Serving? then SubjectOf(q).request else s.transfers[SubjectOf(q).transfer].request
  }

  predicate HasContract(s: Fabric, q: TrafficRequest)
    requires SubjectKnown(s, SubjectOf(q))
  {
    Holder(s, q) in s.slo && (SubjectOf(q).Moving? ==> !Holder(s, q).IsNil())
  }

  predicate ContractFenced(s: Fabric, q: TrafficRequest, rule: Rule)
    requires SubjectKnown(s, SubjectOf(q))
  {
    rule.requiresSlo ==> HasContract(s, q) && Agrees(q.binding.slo, s.slo[Holder(s, q)].generation)
  }

  /** Traffic of an attempt needs the attempt's route; a transfer that names no attempt needs none. */
  predicate RouteFenced(s: Fabric, q: TrafficRequest, rule: Rule)
    requires SubjectKnown(s, SubjectOf(q))
  {
    var a := if SubjectOf(q).Serving? then SubjectOf(q).attempt else s.transfers[SubjectOf(q).transfer].attempt;
    rule.requiresRoute && !a.IsNil() ==> a in s.routes && Agrees(q.binding.route, s.routes[a])
  }

  /** The request brings a deadline of its own, as an instant or counted from now within an hour. */
  predicate BringsDeadline(q: TrafficRequest, now: int) {
    || q.deadline.nanos != -TWO_63
    || (0 < q.deadlineAfter && now + Capped(q.deadlineAfter) < TWO_63 && now + Capped(q.deadlineAfter) != -TWO_63)
  }

  function Capped(nanos: nat): nat { if nanos > 3_600_000_000_000 then 3_600_000_000_000 else nanos }

  /** A serving request without a deadline of its own is held to its contract's tail budget. */
  predicate BudgetApplies(s: Fabric, q: TrafficRequest, now: int)
    requires SubjectKnown(s, SubjectOf(q))
  {
    && !BringsDeadline(q, now) && SubjectOf(q).Serving? && HasContract(s, q)
    && s.slo[Holder(s, q)].tailBudget > 0 && s.ledger.requests[SubjectOf(q).request].registeredAt > 0
  }

  /** No deadline has passed: not the instant named, and not the contract's budget since registration. */
  predicate InTime(s: Fabric, q: TrafficRequest, now: int)
    requires SubjectKnown(s, SubjectOf(q))
  {
    && (q.deadline.nanos != -TWO_63 ==> now < q.deadline.nanos)
    && (BudgetApplies(s, q, now) ==>
          now < s.ledger.requests[SubjectOf(q).request].registeredAt + ToSigned(s.slo[Holder(s, q)].tailBudget))
  }

  predicate ModelFenced(s: Fabric, q: TrafficRequest, rule: Rule)
    requires SubjectKnown(s, SubjectOf(q))
  {
    rule.requiresModel && SubjectOf(q).Serving? ==>
      var a := AttemptOf(s, SubjectOf(q));
      && a.modelHash != 0 && Confirmed(s.models, a.modelHash, a.modelGeneration)
      && Agrees(q.binding.model, a.modelGeneration)
  }

  predicate RuleFenced(s: Fabric, q: TrafficRequest, rule: Rule, now: int)
    requires SubjectKnown(s, SubjectOf(q))
  {
    && rule.enabled
    && EvidenceFenced(s, q, rule, now) && ContractFenced(s, q, rule) && RouteFenced(s, q, rule)
    && ModelFenced(s, q, rule)
    && InTime(s, q, now)
  }

  predicate Fences(s: Fabric, q: TrafficRequest, now: int) {
    && SubjectFenced(s, q)
    && SubjectKnown(s, SubjectOf(q)) && ClassAllowed(s, q)
    && RuleFenced(s, q, RuleOf(s.policy, EffectiveClass(s, q)), now)
  }

  // ---------------------------------------------------------------------------------------------
  // The gates refine the fences
  // ---------------------------------------------------------------------------------------------

  lemma RegistryMeaning(m: map<Word64, Registration>, h: Word64, g: Generation, stale: Reason)
    ensures RegistryObjection(RequireGeneration(m, h), g, stale).None? <==> Confirmed(m, h, g)
  {
  }

  lemma SubjectMeaning(s: Fabric, q: TrafficRequest)
    ensures SubjectObjection(s, q).None? <==> SubjectFenced(s, q)
  {
    if q.subject.Some? && q.subject.value.Moving? && q.subject.value.transfer in s.transfers {
      var t := s.transfers[q.subject.value.transfer];
      RegistryMeaning(s.models, t.modelHash, t.modelGeneration, REJECTED_STALE_MODEL_GENERATION);
      RegistryMeaning(s.states, t.stateHash, t.stateGeneration, REJECTED_STALE_STATE_GENERATION);
    }
  }

  /** On an active stage the canonical class is known and legal, so the unknown-class branch is dead. */
  lemma CanonicalIsLegal(stage: Stage)
    requires ServingActive(stage)
    ensures ClassLegal(CanonicalClass(stage), stage) && !CanonicalClass(stage).ClassUnknown?
  {
  }

  lemma ClassMeaning(s: Fabric, q: TrafficRequest)
    requires SubjectKnown(s, SubjectOf(q))
    ensures ClassGate(s, q).Passed? <==> ClassAllowed(s, q)
    ensures ClassGate(s, q).Passed? ==> ClassGate(s, q).traffic == EffectiveClass(s, q)
  {
    if SubjectOf(q).Serving? {
      var stage := AttemptOf(s, SubjectOf(q)).stage;
      if ServingActive(stage) { CanonicalIsLegal(stage); }
    }
  }

  lemma ModelMeaning(s: Fabric, q: TrafficRequest, rule: Rule)
    requires SubjectKnown(s, SubjectOf(q))
    ensures ModelObjection(s, q, rule).None? <==> ModelFenced(s, q, rule)
  {
    if SubjectOf(q).Serving? {
      var a := AttemptOf(s, SubjectOf(q));
      RegistryMeaning(s.models, a.modelHash, a.modelGeneration, REJECTED_STALE_MODEL_GENERATION);
    }
  }

  lemma EvidenceMeaning(s: Fabric, now: int)
    ensures TopologyState(s, now).EvidenceCurrent? <==> Fresh(s, now)
    ensures TopologyState(s, now).EvidenceUnknown? <==> s.topology.None?
    ensures TopologyState(s, now).EvidenceUnconfirmed? <==> s.topology.Some? && s.topology.value.boot != s.incarnation
    ensures InGrace(s, now) <==> Graced(s, now)
  {
  }

  lemma ContractMeaning(s: Fabric, q: TrafficRequest)
    requires SubjectKnown(s, SubjectOf(q))
    ensures ContractOf(s, SubjectOf(q)) == if HasContract(s, q) then Some(s.slo[Holder(s, q)]) else None
  {
  }

  lemma DeadlineMeaning(s: Fabric, q: TrafficRequest, now: int)
    requires SubjectKnown(s, SubjectOf(q))
    ensures DeadlineOf(s, q, now).ExpiredAt(now) <==> !InTime(s, q, now)
    ensures DeadlineOf(s, q, now).IsSet() <==> BringsDeadline(q, now) || BudgetApplies(s, q, now)
  {
    ContractMeaning(s, q);
  }

  lemma RuleMeaning(s: Fabric, q: TrafficRequest, rule: Rule, now: int)
    requires SubjectKnown(s, SubjectOf(q))
    ensures RuleObjection(s, q, rule, now).None? <==> RuleFenced(s, q, rule, now)
  {
    ModelMeaning(s, q, rule);
    EvidenceMeaning(s, now);
    ContractMeaning(s, q);
    DeadlineMeaning(s, q, now);
    assert TopologyObjection(s, q, rule, now).None? <==> EvidenceFenced(s, q, rule, now);
    assert SloObjection(s, q, rule).None? <==> ContractFenced(s, q, rule);
    assert RouteObjection(s, q, rule).None? <==> RouteFenced(s, q, rule);
  }

  /** The gates asked one after another let through exactly the requests that meet every fence. */
  lemma GateMeaning(s: Fabric, q: TrafficRequest, now: int)
    ensures GateOf(s, q, now).Passed? <==> Fences(s, q, now)
    ensures GateOf(s, q, now).Passed? ==> GateOf(s, q, now).traffic == EffectiveClass(s, q)
  {
    SubjectMeaning(s, q);
    if SubjectObjection(s, q).None? {
      ClassMeaning(s, q);
      if ClassGate(s, q).Passed? {
        RuleMeaning(s, q, RuleOf(s.policy, EffectiveClass(s, q)), now);
      }
    }
  }

  /** Whether the pair's next deferral would exhaust its protection. */
  ghost predicate Starved(s: Fabric, q: TrafficRequest, now: int, choice: Key)
    requires SubjectKnown(s, SubjectOf(q))
  {
    Guarded(s, SubjectOf(q), EffectiveClass(s, q), now, choice)
  }

  /**
   * The whole verdict: refused exactly when a fence is down; deferred exactly when the fences hold, there
   * is pressure and the guard is not exhausted; permitted otherwise, under the effective class.
   */
  lemma EvaluateRefinesFences(s: Fabric, q: TrafficRequest, now: int, choice: Key)
    ensures var d := Evaluate(s, q, now, choice).1;
      && (d.verdict.Rejected? <==> !Fences(s, q, now))
      && (d.verdict.Deferred? <==> Fences(s, q, now) && Pressure(s, q, EffectiveClass(s, q), now).Some?
                                   && !Starved(s, q, now, choice))
      && (d.Permits() <==> Fences(s, q, now) && (Pressure(s, q, EffectiveClass(s, q), now).None?
                                                 || Starved(s, q, now, choice)))
      && (!d.verdict.Rejected? ==> d.treatment.traffic == EffectiveClass(s, q))
  {
    GateMeaning(s, q, now);
  }

  /** A permitted serving class is legal for the stage in the ledger, unless the stage is unknown. */
  lemma PermittedClassIsLegal(s: Fabric, q: TrafficRequest, now: int, choice: Key)
    requires Evaluate(s, q, now, choice).1.Permits() && SubjectOf(q).Serving?
    ensures SubjectKnown(s, SubjectOf(q))
    ensures var stage := AttemptOf(s, SubjectOf(q)).stage;
      var c := Evaluate(s, q, now, choice).1.treatment.traffic;
      if stage.StageUnknown? then c.ClassUnknown? && s.policy.allowUnknownStage else ClassLegal(c, stage)
  {
    GateMeaning(s, q, now);
    EvaluateRefinesFences(s, q, now, choice);
    var stage := AttemptOf(s, SubjectOf(q)).stage;
    if ServingActive(stage) { CanonicalIsLegal(stage); }
  }

  // ---------------------------------------------------------------------------------------------
  // The guard
  // ---------------------------------------------------------------------------------------------

  /** The same state with every source of capacity pressure removed. */
  function Relieved(s: Fabric): Fabric {
    s.(topology := if s.topology.Some? then Some(s.topology.value.(congested := false)) else None,
       policy := s.policy.(bulkCap := 0),
       defers := s.defers.(streaming := 0))
  }

  lemma RelievedRule(s: Fabric, q: TrafficRequest, rule: Rule, now: int)
    requires SubjectKnown(s, SubjectOf(q))
    ensures SubjectKnown(Relieved(s), SubjectOf(q))
    ensures RuleObjection(Relieved(s), q, rule, now) == RuleObjection(s, q, rule, now)
    ensures forall d :: Degradation(Relieved(s), q, rule, d, now) == Degradation(s, q, rule, d, now)
  {
    assert DeadlineOf(Relieved(s), q, now) == DeadlineOf(s, q, now);
    assert TopologyObjection(Relieved(s), q, rule, now) == TopologyObjection(s, q, rule, now);
  }

  lemma RelievedFences(s: Fabric, q: TrafficRequest, now: int)
    ensures GateOf(Relieved(s), q, now) == GateOf(s, q, now)
  {
    assert SubjectObjection(Relieved(s), q) == SubjectObjection(s, q);
    if SubjectObjection(s, q).None? {
      assert ClassGate(Relieved(s), q) == ClassGate(s, q);
      if ClassGate(s, q).Passed? { RelievedRule(s, q, RuleOf(s.policy, ClassGate(s, q).traffic), now); }
    }
  }

  lemma RelievedPressure(s: Fabric, q: TrafficRequest, c: TrafficClass, now: int)
    ensures Pressure(Relieved(s), q, c, now).None?
    ensures forall d :: Granted(Relieved(s), q, c, d) == Granted(s, q, c, d)
  {
  }

  /** Only the guard's branch speaks with the guard's reason. */
  lemma GuardReason(s: Fabric, q: TrafficRequest, now: int, choice: Key)
    requires Evaluate(s, q, now, choice).1.reason == ADMITTED_STARVATION_GUARD
    ensures var g := GateOf(s, q, now);
      && g.Passed? && Pressure(s, q, g.traffic, now).Some?
      && Evaluate(s, q, now, choice).1.treatment == Granted(s, q, g.traffic, g.degraded)
  {
    ReasonsAreNotGuard(s, q, now);
  }

  /** An admission by the guard is one that the same request would get without capacity pressure. */
  lemma GuardOnlyOverridesPressure(s: Fabric, q: TrafficRequest, now: int, choice: Key, other: Key)
    requires Evaluate(s, q, now, choice).1.reason == ADMITTED_STARVATION_GUARD
    ensures Fences(s, q, now) && Pressure(s, q, EffectiveClass(s, q), now).Some?
    ensures Evaluate(Relieved(s), q, now, other).1.Permits()
    ensures Evaluate(Relieved(s), q, now, other).1.treatment == Evaluate(s, q, now, choice).1.treatment
  {
    GateMeaning(s, q, now);
    GuardReason(s, q, now, choice);
    var g := GateOf(s, q, now);
    RelievedFences(s, q, now);
    RelievedPressure(s, q, g.traffic, now);
    PermitTreats(Relieved(s), q, now, other);
  }

  /** Without pressure a request that passes is granted its treatment. */
  lemma PermitTreats(s: Fabric, q: TrafficRequest, now: int, choice: Key)
    requires GateOf(s, q, now).Passed? && Pressure(s, q, GateOf(s, q, now).traffic, now).None?
    ensures var g := GateOf(s, q, now);
      Evaluate(s, q, now, choice).1.Permits()
      && Evaluate(s, q, now, choice).1.treatment == Granted(s, q, g.traffic, g.degraded)
  {
  }

  /** No gate, pressure or degradation speaks with the guard's reason. */
  lemma ReasonsAreNotGuard(s: Fabric, q: TrafficRequest, now: int)
    ensures GateOf(s, q, now).Stopped? ==> GateOf(s, q, now).reason > DEFERRED_BULK_CAPACITY
    ensures GateOf(s, q, now).Passed? && GateOf(s, q, now).degraded.Some? ==>
              GateOf(s, q, now).degraded.value != ADMITTED_STARVATION_GUARD
  {
    SubjectReasons(s, q);
    if SubjectObjection(s, q).None? && ClassGate(s, q).Passed? {
      RuleReasons(s, q, RuleOf(s.policy, ClassGate(s, q).traffic), now);
    }
  }

  lemma SubjectReasons(s: Fabric, q: TrafficRequest)
    ensures SubjectObjection(s, q).Some? ==> SubjectObjection(s, q).value > DEFERRED_BULK_CAPACITY
  {
  }

  lemma RuleReasons(s: Fabric, q: TrafficRequest, rule: Rule, now: int)
    requires SubjectKnown(s, SubjectOf(q))
    ensures RuleObjection(s, q, rule, now).Some? ==> RuleObjection(s, q, rule, now).value > DEFERRED_BULK_CAPACITY
  {
  }

  // ---------------------------------------------------------------------------------------------
  // Afterwards
  // ---------------------------------------------------------------------------------------------

  predicate Booted(s: Fabric) { s.epoch != 0 && !s.incarnation.IsNil() }

  lemma TallyKeepsFences(r: Request, a: Id, v: Verdict)
    ensures var r' := Tally(r, a, v);
      && r'.lifecycle == r.lifecycle && r'.requiresRevalidation == r.requiresRevalidation
      && r'.currentAttempt == r.currentAttempt && r'.authorityFloor == r.authorityFloor
  {
  }

  lemma ServingPermitted(s: Fabric, q: TrafficRequest, now: int, choice: Key)
    requires Booted(s) && Structured(s.ledger) && SubjectOf(q).Serving?
    requires Evaluate(s, q, now, choice).1.Permits()
    ensures ValidateDecision(Evaluate(s, q, now, choice).0, Evaluate(s, q, now, choice).1).Ok?
  {
    EvaluateRefinesFences(s, q, now, choice);
    var x := SubjectOf(q);
    var r := s.ledger.requests[x.request];
    assert At(x.request);
    assert RecordOk(x.request, r);
    TallyKeepsFences(r, x.attempt, Evaluate(s, q, now, choice).1.verdict);
  }

  lemma MovingPermitted(s: Fabric, q: TrafficRequest, now: int, choice: Key)
    requires Booted(s) && SubjectOf(q).Moving?
    requires Evaluate(s, q, now, choice).1.Permits()
    ensures ValidateDecision(Evaluate(s, q, now, choice).0, Evaluate(s, q, now, choice).1).Ok?
  {
    EvaluateRefinesFences(s, q, now, choice);
  }

  /** In the state it leaves behind, `evaluate`'s decision validates exactly when it permits. */
  lemma DecisionsValidateExactly(s: Fabric, q: TrafficRequest, now: int, choice: Key)
    requires Booted(s) && Structured(s.ledger)
    ensures var e := Evaluate(s, q, now, choice); ValidateDecision(e.0, e.1).Ok? <==> e.1.Permits()
  {
    if Evaluate(s, q, now, choice).1.Permits() {
      EvaluateRefinesFences(s, q, now, choice);
      if SubjectOf(q).Serving? { ServingPermitted(s, q, now, choice); }
      else { MovingPermitted(s, q, now, choice); }
    }
  }
}
