/**
 * What puts traffic off and what ends the wait (src/coordinator.cpp): congestion, protected traffic that is
 * waiting, the bulk ceiling, and a guard by count and by time.
 */
module EvaluationPressure {
  import opened Ids
  import opened Traffic
  import opened Reasons
  import opened Policies
  import opened Deferral
  import opened CoordinatorModel
  import opened Evaluation
  import opened EvaluationProofs

  // ---------------------------------------------------------------------------------------------
  // Pressure
  // ---------------------------------------------------------------------------------------------

  /** Fresh evidence signals congestion. */
  predicate SignalsCongestion(s: Fabric, now: int) { Fresh(s, now) && s.topology.value.congested }

  /** Some protected traffic has been put off and waits. */
  ghost predicate ProtectedWaits(t: Table) { exists key :: key in t.records && t.records[key].protected }

  /** The bulk in flight with this payload, as 64 bits hold it. */
  function BulkWith(s: Fabric, payload: Word64): int {
    var sum := s.book.bulk + payload;
    if sum < TWO_64 then sum else sum - TWO_64
  }

  predicate OverCeiling(s: Fabric, payload: Word64) {
    0 < payload && 0 < s.policy.bulkCap < BulkWith(s, payload)
  }

  /** Bulk over the ceiling is noticed exactly when the sum does not wrap below it. */
  lemma OverflowIsSeenExactly(s: Fabric, payload: Word64)
    requires s.book.bulk < TWO_64 && 0 < payload && 0 < s.policy.bulkCap < s.book.bulk + payload
    ensures OverCeiling(s, payload) <==>
      s.book.bulk + payload < TWO_64 || s.policy.bulkCap + TWO_64 < s.book.bulk + payload
  {
  }

  /** Why traffic under this rule would be put off, in no order. */
  ghost predicate Pressed(s: Fabric, q: TrafficRequest, rule: Rule, now: int) {
    if rule.yieldsToLatency then
      || (SignalsCongestion(s, now) && s.policy.congestionYieldsBulk)
      || ProtectedWaits(s.defers)
      || OverCeiling(s, q.payloadBytes)
    else
      && SignalsCongestion(s, now) && s.policy.congestionQueueDepth <= s.topology.value.queueDepth
      && rule.reservedWeight == 0
  }

  /** The reason given for putting traffic off is one that holds. */
  ghost predicate PressureExplains(s: Fabric, q: TrafficRequest, rule: Rule, now: int, reason: Reason) {
    || (reason == DEFERRED_CONGESTION && SignalsCongestion(s, now)
        && (if rule.yieldsToLatency then s.policy.congestionYieldsBulk
            else s.policy.congestionQueueDepth <= s.topology.value.queueDepth && rule.reservedWeight == 0))
    || (reason == DEFERRED_BULK_YIELD && rule.yieldsToLatency && ProtectedWaits(s.defers))
    || (reason == DEFERRED_BULK_CAPACITY && rule.yieldsToLatency && OverCeiling(s, q.payloadBytes))
  }

  lemma StreamingMeaning(t: Table)
    requires TableOk(t)
    ensures t.streaming > 0 <==> ProtectedWaits(t)
  {
    if ProtectedWaits(t) {
      var key :| key in t.records && t.records[key].protected;
      assert key in Protected(t.records);
    } else {
      assert Protected(t.records) == {};
    }
  }

  lemma PressureMeaning(s: Fabric, q: TrafficRequest, c: TrafficClass, now: int)
    requires TableOk(s.defers) && s.book.bulk < TWO_64
    ensures var rule := RuleOf(s.policy, c);
      && (Pressure(s, q, c, now).Some? <==> Pressed(s, q, rule, now))
      && (Pressure(s, q, c, now).Some? ==> PressureExplains(s, q, rule, now, Pressure(s, q, c, now).value))
  {
    StreamingMeaning(s.defers);
    EvidenceMeaning(s, now);
    WrapsOnce(s.book.bulk + q.payloadBytes);
  }

  lemma WrapsOnce(sum: int)
    requires 0 <= sum < TWO_64 + TWO_64
    ensures Wrap(sum) == if sum < TWO_64 then sum else sum - TWO_64
  {
  }

  // ---------------------------------------------------------------------------------------------
  // The guard
  // ---------------------------------------------------------------------------------------------

  /** When the pair was first put off since it was last admitted; now, if it was not. */
  function Since(t: Table, p: Party, c: TrafficClass, now: int): int {
    var key := t.hash(p, c);
    if key in t.records && t.records[key].party == p then t.records[key].first else now
  }

  /** One more deferral would reach the pair's limit, or the pair has waited as long as it may. */
  predicate WaitedEnough(rule: Rule, deferrals: nat, first: int, now: int) {
    && rule.starvationProtected
    && (|| 0 < rule.maxDeferCount <= deferrals + 1
        || 0 < rule.maxDeferHorizon <= now - first)
  }

  lemma NoteRecords(t: Table, p: Party, c: TrafficClass, protected: bool, now: int, choice: Key)
    requires TableOk(t)
    ensures var t' := Note(t, p, c, protected, now, choice);
      && t'.hash == t.hash && t.hash(p, c) in t'.records
      && var r := t'.records[t.hash(p, c)];
         && r.party == p && r.count == Deferrals(t, p, c) + 1 && r.first == Since(t, p, c, now) && r.last == now
  {
  }

  lemma GuardMeaning(s: Fabric, x: Subject, c: TrafficClass, now: int, choice: Key)
    requires TableOk(s.defers)
    ensures Guarded(s, x, c, now, choice) <==>
      WaitedEnough(RuleOf(s.policy, c), Deferrals(s.defers, PartyOf(x), c), Since(s.defers, PartyOf(x), c, now), now)
  {
    NoteRecords(s.defers, PartyOf(x), c, RuleOf(s.policy, c).starvationProtected, now, choice);
  }

  // ---------------------------------------------------------------------------------------------
  // The verdict
  // ---------------------------------------------------------------------------------------------

  /** The pair this question is about has waited enough. */
  predicate MustAdmit(s: Fabric, q: TrafficRequest, now: int)
    requires SubjectKnown(s, SubjectOf(q))
  {
    var p, c := PartyOf(SubjectOf(q)), EffectiveClass(s, q);
    WaitedEnough(RuleOf(s.policy, c), Deferrals(s.defers, p, c), Since(s.defers, p, c, now), now)
  }

  ghost predicate PutOff(s: Fabric, q: TrafficRequest, now: int)
    requires SubjectKnown(s, SubjectOf(q))
  {
    Pressed(s, q, RuleOf(s.policy, EffectiveClass(s, q)), now) && !MustAdmit(s, q, now)
  }

  /**
   * The whole verdict by conditions that mention neither the order of the questions nor the branches of the
   * code: refused when a fence is down, deferred when the fences hold but the traffic is put off, permitted
   * otherwise. A deferral names its cause; an admission against pressure says that the guard made it.
   */
  lemma VerdictExactly(s: Fabric, q: TrafficRequest, now: int, choice: Key)
    requires TableOk(s.defers) && s.book.bulk < TWO_64
    ensures var d := Evaluate(s, q, now, choice).1;
      && (d.verdict.Rejected? <==> !Fences(s, q, now))
      && (d.verdict.Deferred? <==> Fences(s, q, now) && PutOff(s, q, now))
      && (d.Permits() <==> Fences(s, q, now) && !PutOff(s, q, now))
      && (d.verdict.Deferred? ==>
            PressureExplains(s, q, RuleOf(s.policy, EffectiveClass(s, q)), now, d.reason))
      && (d.reason == ADMITTED_STARVATION_GUARD <==>
            && Fences(s, q, now) && MustAdmit(s, q, now)
            && Pressed(s, q, RuleOf(s.policy, EffectiveClass(s, q)), now))
  {
    GateMeaning(s, q, now);
    if Fences(s, q, now) {
      PressureMeaning(s, q, EffectiveClass(s, q), now);
      GuardMeaning(s, SubjectOf(q), EffectiveClass(s, q), now, choice);
    }
    ReasonsAreNotGuard(s, q, now);
  }

  /** What a deferral tells the caller: the rule's class of service, when to come back, how often it was put off. */
  lemma DeferralTells(s: Fabric, q: TrafficRequest, now: int, choice: Key)
    requires TableOk(s.defers) && Evaluate(s, q, now, choice).1.verdict.Deferred?
    ensures SubjectKnown(s, SubjectOf(q))
    ensures var d, c := Evaluate(s, q, now, choice).1, EffectiveClass(s, q);
      var rule := RuleOf(s.policy, c);
      && d.treatment == NO_TREATMENT.(
           traffic := c, priority := rule.priority, pacing := rule.pacing, integrity := rule.integrity,
           isolation := rule.isolation, holdUntil := FromNow(now, s.policy.deferHint),
           deferCount := Deferrals(s.defers, PartyOf(SubjectOf(q)), c) + 1)
      && d.deferHint == s.policy.deferHint
  {
    GateMeaning(s, q, now);
    NoteRecords(s.defers, PartyOf(SubjectOf(q)), EffectiveClass(s, q),
                RuleOf(s.policy, EffectiveClass(s, q)).starvationProtected, now, choice);
  }
}
