/** A run in which traffic of an unknown stage is permitted on stale evidence and not isolated for it. */
module GraceWitnesses {
  import opened Ids
  import opened Traffic
  import opened Reasons
  import opened Policies
  import opened LedgerModel
  import opened LedgerFindings
  import opened Deferral
  import opened CoordinatorModel
  import C = CoordinatorModel
  import opened Evaluation
  import opened CoordinatorFindings
  import opened Witnesses

  /** Unknown traffic is served as interactive, on evidence of the topology. */
  const UNKNOWN_RULE: Rule :=
    NO_RULE.(enabled := true, priority := Priority.Standard, pacing := Paced, integrity := NoIntegrity,
             isolation := IsolatedInteractive, requiresTopology := true)

  /** Unknown stages are allowed, and evidence may be ten nanoseconds old. */
  function LenientPolicy(): Policy {
    Policy(1, [UNKNOWN_RULE, NO_RULE, NO_RULE, NO_RULE, NO_RULE, NO_RULE, NO_RULE, NO_RULE, NO_RULE, NO_RULE,
               NO_RULE, NO_RULE], true, false, 1, 0, 0, false, 0, 10)
  }

  lemma LenientPolicyIsValid()
    ensures PolicyValid(LenientPolicy())
  {
    var n, k := NO_RULE, UNKNOWN_RULE;
    assert RuleSupported(n) && RuleSupported(k);
    assert LenientPolicy().rules == [k, n, n, n, n, n, n, n, n, n, n, n];
    IdleRules(LenientPolicy().rules);
  }

  /** One node, good for one nanosecond. */
  const ONE_NODE: Topology := Topology(0, Measured, NIL, 0, 1, 1, 0, 0, 0, 0, false, false)

  function AskFor(r: Id, a: Id): TrafficRequest {
    TrafficRequest(Some(Serving(r, a, 1)), ClassUnknown, StageUnknown, HintNone, 0, 0, 0, UNSET, 0, Ask(NIL).binding)
  }

  /** The evidence was observed at 0, and the request's attempt has reported no stage. */
  predicate Lapsed(s: Fabric, r: Id, a: Id) {
    && s.policy == LenientPolicy().(generation := 2) && !r.IsNil() && !a.IsNil()
    && s.topology == Some(ONE_NODE.(generation := 1, boot := s.incarnation))
    && r in s.ledger.requests && s.ledger.requests[r] == Bind(NewRequest(r, 0), NewAttempt(a, 1, 0, 0, 0, 0))
    && s.slo == map[]
  }

  lemma Lapses(s: Fabric, r: Id, a: Id)
    requires Opening(s) && !r.IsNil() && !a.IsNil()
    ensures var s1 := ApplyPolicy(s, LenientPolicy()).fabric;
      var s2 := PublishTopology(s1, ONE_NODE, 0).fabric;
      var s3 := C.RegisterRequest(s2, r, 0).fabric;
      Lapsed(C.RegisterAttempt(s3, r, a, 0, 0).fabric, r, a)
  {
    LenientPolicyIsValid();
    var s2 := PublishTopology(ApplyPolicy(s, LenientPolicy()).fabric, ONE_NODE, 0).fabric;
    AfterRegister(s2.ledger, r);
    AfterBind(C.RegisterRequest(s2, r, 0).fabric.ledger, r, NewRequest(r, 0), a);
  }

  lemma LapsedPasses(s: Fabric, r: Id, a: Id)
    requires Lapsed(s, r, a)
    ensures GateOf(s, AskFor(r, a), 2) == Passed(ClassUnknown, Some(DEGRADED_STALE_TOPOLOGY))
    ensures RuleOf(s.policy, ClassUnknown) == UNKNOWN_RULE
  {
    assert Find(s.ledger.requests[r].attempts, a) == 0;
    assert TopologyState(s, 2).EvidenceStale? && InGrace(s, 2);
    assert SubjectObjection(s, AskFor(r, a)).None?;
    assert RuleObjection(s, AskFor(r, a), UNKNOWN_RULE, 2).None?;
  }

  /**
   * Allow unknown stages with a grace period, publish evidence, bind an attempt, and ask once the evidence
   * is stale: the traffic is permitted, of unknown class, and not isolated as background.
   */
  lemma UnknownStageIsNotIsolated(s: Fabric, r: Id, a: Id, choice: Key)
    requires Opening(s) && !r.IsNil() && !a.IsNil()
    ensures var s1 := ApplyPolicy(s, LenientPolicy()).fabric;
      var s2 := PublishTopology(s1, ONE_NODE, 0).fabric;
      var s3 := C.RegisterRequest(s2, r, 0).fabric;
      var s4 := C.RegisterAttempt(s3, r, a, 0, 0).fabric;
      var d := Evaluate(s4, AskFor(r, a), 2, choice).1;
      && d.Permits() && d.reason == DEGRADED_STALE_TOPOLOGY
      && d.treatment.traffic.ClassUnknown? && !d.treatment.isolation.IsolatedBackground?
  {
    Lapses(s, r, a);
    var s2 := PublishTopology(ApplyPolicy(s, LenientPolicy()).fabric, ONE_NODE, 0).fabric;
    NotIsolated(C.RegisterAttempt(C.RegisterRequest(s2, r, 0).fabric, r, a, 0, 0).fabric, r, a, choice);
  }

  lemma NotIsolated(s: Fabric, r: Id, a: Id, choice: Key)
    requires Lapsed(s, r, a)
    ensures var d := Evaluate(s, AskFor(r, a), 2, choice).1;
      && d.Permits() && d.reason == DEGRADED_STALE_TOPOLOGY
      && d.treatment.traffic.ClassUnknown? && !d.treatment.isolation.IsolatedBackground?
  {
    LapsedPasses(s, r, a);
    assert Pressure(s, AskFor(r, a), ClassUnknown, 2).None?;
  }
}
