/**
 * The starvation bound. Under one policy, a protected pair of subject and class whose deferral record is
 * not lost is deferred at most `maxDeferCount - 1` times between two admissions, whatever else happens.
 */
module Starvation {
  import opened Ids
  import opened Traffic
  import opened Policies
  import opened Deferral
  import opened CoordinatorModel
  import opened Evaluation
  import opened EvaluationProofs
  import opened EvaluationPressure
  import opened CoordinatorRuns
  import opened CoordinatorCoherence
  import opened CoordinatorInvariant
  import opened CoordinatorTransfers

  /** What a deciding call evaluates. */
  datatype Question = Question(query: TrafficRequest, now: int, choice: Key)

  function Asked(call: Call): Option<Question> {
    match call
    case OnFlow(CallEvaluate(q, now, choice)) => Some(Question(q, now, choice))
    case OnTransfer(CallAuthorize(q, now, choice, _)) =>
      if q.subject.Some? && q.subject.value.Moving? then Some(Question(q, now, choice)) else None
    case _ => None
  }

  /** The question reaches the pressure test for this pair. */
  predicate Weighs(s: Fabric, x: Question, p: Party, c: TrafficClass) {
    var g := GateOf(s, x.query, x.now);
    g.Passed? && g.traffic == c && PartyOf(SubjectOf(x.query)) == p
  }

  ghost predicate Defers(s: Fabric, x: Question) { Evaluate(s, x.query, x.now, x.choice).1.verdict.Deferred? }

  /** The question defers another pair, and that takes the record of this one. */
  ghost predicate Robs(s: Fabric, x: Question, p: Party, c: TrafficClass) {
    var g, q := GateOf(s, x.query, x.now), PartyOf(SubjectOf(x.query));
    && g.Passed? && (q, g.traffic) != (p, c)
    && Pressure(s, x.query, g.traffic, x.now).Some?
    && Takes(s.defers, q, g.traffic, x.choice, p, c)
  }

  ghost predicate NotLost(s: Fabric, call: Call, p: Party, c: TrafficClass) {
    Asked(call).Some? ==> !Robs(s, Asked(call).value, p, c)
  }

  ghost predicate NeverLostIn(s: Fabric, calls: seq<Call>, p: Party, c: TrafficClass)
    decreases |calls|
  {
    calls != [] ==> NotLost(s, calls[0], p, c) && NeverLostIn(Act(s, calls[0]), calls[1..], p, c)
  }

  /** How often the pair has been deferred since it was last admitted, given `n` before the run. */
  ghost function Streak(s: Fabric, calls: seq<Call>, p: Party, c: TrafficClass, n: nat): nat
    decreases |calls|
  {
    if calls == [] then n
    else Streak(Act(s, calls[0]), calls[1..], p, c, StreakAfter(s, calls[0], p, c, n))
  }

  ghost function StreakAfter(s: Fabric, call: Call, p: Party, c: TrafficClass, n: nat): nat {
    if Asked(call).None? || !Weighs(s, Asked(call).value, p, c) then n
    else if Defers(s, Asked(call).value) then n + 1
    else 0
  }

  /** The deferral table after a deciding call is the one its evaluation left. */
  lemma AskedTable(s: Fabric, call: Call)
    ensures Act(s, call).defers == if Asked(call).None? then s.defers
      else var x := Asked(call).value; Decide(s, x.query, x.now, x.choice).table
  {
    ActQuiet(s, call);
    match call
    case OnTransfer(CallAuthorize(q, now, choice, tag)) => AuthorizeStands(s, q, now, choice, tag);
    case _ =>
  }

  /** Weighing a protected pair counts one more deferral below the limit, or forgets them all. */
  lemma WeighedCount(s: Fabric, x: Question, p: Party, c: TrafficClass)
    requires TableOk(s.defers) && Weighs(s, x, p, c)
    requires RuleOf(s.policy, c).starvationProtected && RuleOf(s.policy, c).maxDeferCount > 0
    ensures var n := Deferrals(Decide(s, x.query, x.now, x.choice).table, p, c);
      if Defers(s, x) then n == Deferrals(s.defers, p, c) + 1 < RuleOf(s.policy, c).maxDeferCount else n == 0
  {
    TableWeighs(s.defers, p, c, RuleOf(s.policy, c).starvationProtected, x.now, x.choice);
  }

  /** A question about another pair leaves the record standing, unless it robs it. */
  lemma OthersSpare(s: Fabric, x: Question, p: Party, c: TrafficClass)
    requires TableOk(s.defers) && !Weighs(s, x, p, c) && !Robs(s, x, p, c)
    ensures Deferrals(Decide(s, x.query, x.now, x.choice).table, p, c) == Deferrals(s.defers, p, c)
  {
    var g, q := GateOf(s, x.query, x.now), PartyOf(SubjectOf(x.query));
    if g.Passed? {
      TableSpares(s.defers, q, g.traffic, RuleOf(s.policy, g.traffic).starvationProtected, x.now, x.choice, p, c);
    }
  }

  lemma TableSpares(t: Table, q: Party, d: TrafficClass, protected: bool, now: int, choice: Key,
                    p: Party, c: TrafficClass)
    requires TableOk(t) && (q, d) != (p, c)
    ensures Deferrals(Clear(t, q, d), p, c) == Deferrals(t, p, c)
    ensures var t' := Note(t, q, d, protected, now, choice);
      !Takes(t, q, d, choice, p, c) ==>
        Deferrals(t', p, c) == Deferrals(t, p, c) == Deferrals(Clear(t', q, d), p, c)
  {
    NoteOk(t, q, d, protected, now, choice);
    NoteTakesExactly(t, q, d, protected, now, choice, p, c);
    ClearForgets(t, q, d, p, c);
    ClearForgets(Note(t, q, d, protected, now, choice), q, d, p, c);
  }

  lemma TableWeighs(t: Table, p: Party, c: TrafficClass, protected: bool, now: int, choice: Key)
    requires TableOk(t)
    ensures var t' := Note(t, p, c, protected, now, choice);
      && Deferrals(t', p, c) == Deferrals(t, p, c) + 1
      && t.hash(p, c) in t'.records && t'.records[t.hash(p, c)].count == Deferrals(t', p, c)
      && Deferrals(Clear(t', p, c), p, c) == 0
    ensures Deferrals(Clear(t, p, c), p, c) == 0
  {
    NoteOk(t, p, c, protected, now, choice);
    NoteCounts(t, p, c, protected, now, choice);
    ClearForgets(t, p, c, p, c);
    ClearForgets(Note(t, p, c, protected, now, choice), p, c, p, c);
  }

  lemma StreakStep(s: Fabric, call: Call, p: Party, c: TrafficClass)
    requires TableOk(s.defers) && NotLost(s, call, p, c)
    requires RuleOf(s.policy, c).starvationProtected && RuleOf(s.policy, c).maxDeferCount > 0
    requires Deferrals(s.defers, p, c) < RuleOf(s.policy, c).maxDeferCount
    ensures Deferrals(Act(s, call).defers, p, c) == StreakAfter(s, call, p, c, Deferrals(s.defers, p, c))
    ensures Deferrals(Act(s, call).defers, p, c) < RuleOf(s.policy, c).maxDeferCount
  {
    AskedTable(s, call);
    if Asked(call).Some? { QuestionCounts(s, Asked(call).value, p, c); }
  }

  lemma QuestionCounts(s: Fabric, x: Question, p: Party, c: TrafficClass)
    requires TableOk(s.defers) && !Robs(s, x, p, c)
    requires RuleOf(s.policy, c).starvationProtected && RuleOf(s.policy, c).maxDeferCount > 0
    requires Deferrals(s.defers, p, c) < RuleOf(s.policy, c).maxDeferCount
    ensures var n := Deferrals(Decide(s, x.query, x.now, x.choice).table, p, c);
      && n == (if !Weighs(s, x, p, c) then Deferrals(s.defers, p, c)
               else if Defers(s, x) then Deferrals(s.defers, p, c) + 1 else 0)
      && n < RuleOf(s.policy, c).maxDeferCount
  {
    if Weighs(s, x, p, c) { WeighedCount(s, x, p, c); } else { OthersSpare(s, x, p, c); }
  }

  /** The bound, over every run under one policy. */
  lemma {:induction false} DeferralsAreBounded(s: Fabric, calls: seq<Call>, p: Party, c: TrafficClass)
    requires Coherent(s) && MintsDistinctly(s, calls) && KeepsPolicy(calls) && NeverLostIn(s, calls, p, c)
    requires RuleOf(s.policy, c).starvationProtected && RuleOf(s.policy, c).maxDeferCount > 0
    requires Deferrals(s.defers, p, c) < RuleOf(s.policy, c).maxDeferCount
    ensures Streak(s, calls, p, c, Deferrals(s.defers, p, c)) <= RuleOf(s.policy, c).maxDeferCount - 1
    ensures Deferrals(ActAll(s, calls).defers, p, c) == Streak(s, calls, p, c, Deferrals(s.defers, p, c))
    decreases |calls|
  {
    if calls == [] {
    } else {
      View(s);
      StreakStep(s, calls[0], p, c);
      ActCoheres(s, calls[0]);
      ActQuiet(s, calls[0]);
      DeferralsAreBounded(Act(s, calls[0]), calls[1..], p, c);
    }
  }

  /** At the limit the next question about the pair is admitted, pressure or not. */
  lemma LimitAdmits(s: Fabric, x: Question, p: Party, c: TrafficClass)
    requires TableOk(s.defers) && Weighs(s, x, p, c)
    requires RuleOf(s.policy, c).starvationProtected && RuleOf(s.policy, c).maxDeferCount > 0
    requires Deferrals(s.defers, p, c) + 1 >= RuleOf(s.policy, c).maxDeferCount
    ensures Evaluate(s, x.query, x.now, x.choice).1.Permits()
  {
    WeighedCount(s, x, p, c);
  }

  /** A valid policy gives every protected class a limit, so a pair that was never deferred stays within it. */
  lemma ProtectedIsNotStarved(s: Fabric, calls: seq<Call>, p: Party, c: TrafficClass)
    requires Coherent(s) && MintsDistinctly(s, calls) && KeepsPolicy(calls) && NeverLostIn(s, calls, p, c)
    requires PolicyValid(s.policy) && RuleOf(s.policy, c).enabled && RuleOf(s.policy, c).starvationProtected
    requires Deferrals(s.defers, p, c) == 0
    ensures Streak(s, calls, p, c, 0) < RuleOf(s.policy, c).maxDeferCount
  {
    assert RuleOf(s.policy, c) == s.policy.rules[ClassIndex(c)];
    assert RuleSupported(s.policy.rules[ClassIndex(c)]);
    DeferralsAreBounded(s, calls, p, c);
  }

  // ---------------------------------------------------------------------------------------------
  // The horizon
  // ---------------------------------------------------------------------------------------------

  lemma WeighsMeets(s: Fabric, x: Question, p: Party, c: TrafficClass)
    requires Weighs(s, x, p, c)
    ensures Fences(s, x.query, x.now) && EffectiveClass(s, x.query) == c
  {
    GateMeaning(s, x.query, x.now);
  }

  /** Once a protected pair has waited as long as its rule allows, the next question about it is admitted. */
  lemma HorizonAdmits(s: Fabric, x: Question, p: Party, c: TrafficClass)
    requires TableOk(s.defers) && s.book.bulk < TWO_64 && Weighs(s, x, p, c)
    requires RuleOf(s.policy, c).starvationProtected
    requires 0 < RuleOf(s.policy, c).maxDeferHorizon <= x.now - Since(s.defers, p, c, x.now)
    ensures Evaluate(s, x.query, x.now, x.choice).1.Permits()
  {
    WeighsMeets(s, x, p, c);
    VerdictExactly(s, x.query, x.now, x.choice);
  }

  /** The pair has a record, and was first put off then. */
  predicate WaitsSince(t: Table, p: Party, c: TrafficClass, first: int) {
    Deferrals(t, p, c) > 0 && Since(t, p, c, first + 1) == first
  }

  lemma OthersKeepFirst(t: Table, q: Party, d: TrafficClass, protected: bool, now: int, choice: Key, p: Party,
                        c: TrafficClass, first: int)
    requires TableOk(t) && (q, d) != (p, c) && WaitsSince(t, p, c, first)
    ensures WaitsSince(Clear(t, q, d), p, c, first)
    ensures !Takes(t, q, d, choice, p, c) ==>
      && WaitsSince(Note(t, q, d, protected, now, choice), p, c, first)
      && WaitsSince(Clear(Note(t, q, d, protected, now, choice), q, d), p, c, first)
  {
    ClearKeepsFirst(t, q, d, p, c, first);
    if !Takes(t, q, d, choice, p, c) {
      var t' := Note(t, q, d, protected, now, choice);
      NoteKeepsFirst(t, q, d, protected, now, choice, p, c, first);
      NoteOk(t, q, d, protected, now, choice);
      ClearKeepsFirst(t', q, d, p, c, first);
    }
  }

  lemma ClearKeepsFirst(t: Table, q: Party, d: TrafficClass, p: Party, c: TrafficClass, first: int)
    requires TableOk(t) && (q, d) != (p, c) && WaitsSince(t, p, c, first)
    ensures WaitsSince(Clear(t, q, d), p, c, first)
  {
    SamePartyOtherKey(t, q, d, p, c);
  }

  lemma NoteKeepsFirst(t: Table, q: Party, d: TrafficClass, protected: bool, now: int, choice: Key, p: Party,
                       c: TrafficClass, first: int)
    requires TableOk(t) && (q, d) != (p, c) && WaitsSince(t, p, c, first) && !Takes(t, q, d, choice, p, c)
    ensures WaitsSince(Note(t, q, d, protected, now, choice), p, c, first)
  {
    TableSpares(t, q, d, protected, now, choice, p, c);
    SamePartyOtherKey(t, q, d, p, c);
    if t.hash(q, d) != t.hash(p, c) {
      NoteStands(t, q, d, protected, now, choice, t.hash(p, c));
    } else {
      NotedOverForgets(t, q, d, protected, now, choice, p, c);
    }
  }

  /** Noting one key leaves the records under every other key as they are, or drops them. */
  lemma NoteStands(t: Table, q: Party, d: TrafficClass, protected: bool, now: int, choice: Key, key: Key)
    requires t.hash(q, d) != key
    ensures var t' := Note(t, q, d, protected, now, choice);
      t'.hash == t.hash && (key in t'.records ==> key in t.records && t'.records[key] == t.records[key])
  {
  }

  lemma OwnKeepsFirst(t: Table, p: Party, c: TrafficClass, protected: bool, now: int, choice: Key, first: int)
    requires TableOk(t) && WaitsSince(t, p, c, first)
    ensures WaitsSince(Note(t, p, c, protected, now, choice), p, c, first)
  {
    NoteRecords(t, p, c, protected, now, choice);
  }

  /** Every question about the pair in the run is put off. */
  ghost predicate NeverAdmitted(s: Fabric, calls: seq<Call>, p: Party, c: TrafficClass)
    decreases |calls|
  {
    calls != [] ==>
      && (Asked(calls[0]).Some? && Weighs(s, Asked(calls[0]).value, p, c) ==> Defers(s, Asked(calls[0]).value))
      && NeverAdmitted(Act(s, calls[0]), calls[1..], p, c)
  }

  lemma QuestionKeepsFirst(s: Fabric, x: Question, p: Party, c: TrafficClass, first: int)
    requires TableOk(s.defers) && WaitsSince(s.defers, p, c, first) && !Robs(s, x, p, c)
    requires Weighs(s, x, p, c) ==> Defers(s, x)
    ensures WaitsSince(Decide(s, x.query, x.now, x.choice).table, p, c, first)
  {
    var g, q := GateOf(s, x.query, x.now), PartyOf(SubjectOf(x.query));
    if g.Passed? {
      var protected := RuleOf(s.policy, g.traffic).starvationProtected;
      if (q, g.traffic) == (p, c) {
        OwnKeepsFirst(s.defers, p, c, protected, x.now, x.choice, first);
      } else {
        OthersKeepFirst(s.defers, q, g.traffic, protected, x.now, x.choice, p, c, first);
      }
    }
  }

  /** A run that neither admits the pair nor takes its record remembers when its wait began. */
  lemma {:induction false} WaitIsRemembered(s: Fabric, calls: seq<Call>, p: Party, c: TrafficClass, first: int)
    requires Coherent(s) && MintsDistinctly(s, calls) && NeverLostIn(s, calls, p, c) && NeverAdmitted(s, calls, p, c)
    requires WaitsSince(s.defers, p, c, first)
    ensures Coherent(ActAll(s, calls)) && WaitsSince(ActAll(s, calls).defers, p, c, first)
    decreases |calls|
  {
    if calls == [] {
    } else {
      View(s);
      AskedTable(s, calls[0]);
      if Asked(calls[0]).Some? { QuestionKeepsFirst(s, Asked(calls[0]).value, p, c, first); }
      ActCoheres(s, calls[0]);
      WaitIsRemembered(Act(s, calls[0]), calls[1..], p, c, first);
    }
  }

  /** So whatever happens in between, a question asked when the horizon has passed is admitted. */
  lemma HorizonIsHonoured(s: Fabric, calls: seq<Call>, p: Party, c: TrafficClass, first: int, x: Question)
    requires Coherent(s) && MintsDistinctly(s, calls) && NeverLostIn(s, calls, p, c) && NeverAdmitted(s, calls, p, c)
    requires WaitsSince(s.defers, p, c, first) && Weighs(ActAll(s, calls), x, p, c)
    requires var rule := RuleOf(ActAll(s, calls).policy, c);
      rule.starvationProtected && 0 < rule.maxDeferHorizon <= x.now - first
    ensures Evaluate(ActAll(s, calls), x.query, x.now, x.choice).1.Permits()
  {
    WaitIsRemembered(s, calls, p, c, first);
    var end := ActAll(s, calls);
    View(end);
    BulkNeverWraps(end, 0);
    HorizonAdmits(end, x, p, c);
  }
}
