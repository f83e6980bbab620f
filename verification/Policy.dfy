/** The per-class treatment policy (src/policy.cpp), as the coordinator reads it. */
module Policies {
  import opened Ids
  import opened Traffic

  datatype Priority = PriorityUnknown | LatencyCritical | Interactive | Standard | Background | Bulk
  datatype Pacing = PacingUnknown | Immediate | Paced | RateLimited | BestEffort
  datatype Integrity = IntegrityUnknown | NoIntegrity | ChecksumOnly | ChecksumAndVerify
  datatype Isolation =
    | IsolationUnknown | IsolatedCritical | IsolatedInteractive | IsolatedBackground | IsolatedBulk
    | IsolatedControl

  function PriorityIndex(p: Priority): nat {
    match p case PriorityUnknown => 0 case LatencyCritical => 1 case Interactive => 2
            case Standard => 3 case Background => 4 case Bulk => 5
  }

  function PacingIndex(p: Pacing): nat {
    match p case PacingUnknown => 0 case Immediate => 1 case Paced => 2 case RateLimited => 3
            case BestEffort => 4
  }

  function IntegrityIndex(i: Integrity): nat {
    match i case IntegrityUnknown => 0 case NoIntegrity => 1 case ChecksumOnly => 2
            case ChecksumAndVerify => 3
  }

  function IsolationIndex(i: Isolation): nat {
    match i case IsolationUnknown => 0 case IsolatedCritical => 1 case IsolatedInteractive => 2
            case IsolatedBackground => 3 case IsolatedBulk => 4 case IsolatedControl => 5
  }

  datatype Rule = Rule(
    enabled: bool, priority: Priority, pacing: Pacing, integrity: Integrity, isolation: Isolation,
    reservedWeight: nat, maxBurst: nat, rateLimit: nat, maxInFlight: nat,
    requiresTopology: bool, requiresSlo: bool, requiresRoute: bool, requiresModel: bool,
    requiresState: bool, requiresDeadline: bool,
    starvationProtected: bool, maxDeferCount: nat, maxDeferHorizon: nat, yieldsToLatency: bool)

  const NO_RULE: Rule :=
    Rule(false, PriorityUnknown, PacingUnknown, IntegrityUnknown, IsolationUnknown, 0, 0, 0, 0,
         false, false, false, false, false, false, false, 0, 0, false)

  datatype Policy = Policy(
    generation: Generation, rules: seq<Rule>, allowUnknownStage: bool, allowUnknownClass: bool,
    maxExplanationSteps: nat, bulkCap: nat, congestionQueueDepth: nat, congestionYieldsBulk: bool,
    deferHint: nat, staleGrace: nat)

  const CLASS_COUNT: nat := 12
  const MAX_EXPLANATION_STEPS: nat := 32
  const RESERVED_SCALE: nat := 1000
  const MINUTE: nat := 60_000_000_000

  function RuleOf(p: Policy, c: TrafficClass): Rule {
    if ClassIndex(c) < |p.rules| then p.rules[ClassIndex(c)] else NO_RULE
  }

  predicate IsBulkRule(r: Rule) { r.yieldsToLatency || r.priority.Bulk? }

  predicate RuleSupported(r: Rule) {
    r.enabled ==>
      && !r.priority.PriorityUnknown? && !r.pacing.PacingUnknown? && !r.integrity.IntegrityUnknown?
      && !r.isolation.IsolationUnknown?
      && r.reservedWeight <= RESERVED_SCALE
      && (IsBulkRule(r) ==> r.reservedWeight == 0)
      && (r.starvationProtected ==> r.maxDeferCount != 0 && r.maxDeferHorizon != 0)
      && (r.requiresDeadline ==> r.maxDeferHorizon <= MINUTE)
  }

  function ReservedTotal(rules: seq<Rule>): nat {
    if rules == [] then 0
    else
      var r := rules[|rules| - 1];
      ReservedTotal(rules[..|rules| - 1]) + if r.enabled && !IsBulkRule(r) then r.reservedWeight else 0
  }

  /** `validate() == Valid`. */
  predicate PolicyValid(p: Policy) {
    && p.maxExplanationSteps <= MAX_EXPLANATION_STEPS
    && |p.rules| == CLASS_COUNT
    && (p.allowUnknownClass || p.allowUnknownStage ==> p.rules[0].enabled)
    && (forall r | r in p.rules :: RuleSupported(r))
    && ReservedTotal(p.rules) <= RESERVED_SCALE
  }

  // ---------------------------------------------------------------------------------------------
  // What a valid policy promises
  // ---------------------------------------------------------------------------------------------

  /** The weight reserved for latency traffic of the class. */
  function Reserved(r: Rule): nat {
    if r.enabled && !r.yieldsToLatency && !r.priority.Bulk? then r.reservedWeight else 0
  }

  lemma {:induction false} OneReservation(rules: seq<Rule>, i: nat)
    requires i < |rules|
    ensures Reserved(rules[i]) <= ReservedTotal(rules)
    decreases |rules|
  {
    if i < |rules| - 1 { OneReservation(rules[..|rules| - 1], i); }
  }

  lemma {:induction false} TwoReservations(rules: seq<Rule>, i: nat, j: nat)
    requires i < j < |rules|
    ensures Reserved(rules[i]) + Reserved(rules[j]) <= ReservedTotal(rules)
    decreases |rules|
  {
    var rest := rules[..|rules| - 1];
    if j < |rest| { TwoReservations(rest, i, j); } else { OneReservation(rest, i); }
  }

  /**
   * Under a valid policy every class has a rule, an enabled one says how to treat its traffic, bulk reserves
   * nothing, protection has both its limits, no two classes are promised more than the whole, and unknown
   * traffic is let in only under a rule for it.
   */
  lemma ValidPolicyPromises(p: Policy, c: TrafficClass, d: TrafficClass)
    requires PolicyValid(p)
    ensures |p.rules| == 12 && RuleOf(p, c) == p.rules[ClassIndex(c)] && p.maxExplanationSteps <= 32
    ensures var r := RuleOf(p, c);
      r.enabled ==>
        && !r.priority.PriorityUnknown? && !r.pacing.PacingUnknown? && !r.integrity.IntegrityUnknown?
        && !r.isolation.IsolationUnknown? && r.reservedWeight <= 1000
        && (r.yieldsToLatency || r.priority.Bulk? ==> r.reservedWeight == 0)
        && (r.starvationProtected ==> r.maxDeferCount > 0 && r.maxDeferHorizon > 0)
        && (r.requiresDeadline ==> r.maxDeferHorizon <= 60_000_000_000)
    ensures c != d ==> Reserved(RuleOf(p, c)) + Reserved(RuleOf(p, d)) <= 1000
    ensures p.allowUnknownClass || p.allowUnknownStage ==> RuleOf(p, ClassUnknown).enabled
  {
    assert p.rules[ClassIndex(c)] in p.rules;
    if ClassIndex(c) < ClassIndex(d) { TwoReservations(p.rules, ClassIndex(c), ClassIndex(d)); }
    if ClassIndex(d) < ClassIndex(c) { TwoReservations(p.rules, ClassIndex(d), ClassIndex(c)); }
    if ClassIndex(c) == ClassIndex(d) { ClassIndexInjective(c, d); }
  }
}
