/**
 * The persisted records (src/serialize.cpp, src/policy.cpp) as tables of fields: every record that fits
 * its fields and that the decoder accepts comes back from its bytes.
 */
module Serialize {
  import opened Ids
  import opened Traffic
  import opened Reasons
  import opened Policies
  import opened LedgerModel
  import opened CoordinatorModel
  import opened Codec

  // ---------------------------------------------------------------------------------------------
  // Numbers as values
  // ---------------------------------------------------------------------------------------------

  function WordOf(v: int): Word64 { if 0 <= v < TWO_64 then v else 0 }

  function NatOf(v: int): nat { if v < 0 then 0 else v }

  function Bit(b: bool): int { if b then 1 else 0 }

  function ReasonOf(v: int): Reason { if 0 <= v < 50 then v else 0 }

  function StageAt(i: int): Stage {
    match i
    case 1 => Admitted case 2 => Routing case 3 => PrefillQueued case 4 => PrefillRunning
    case 5 => HandoffPending case 6 => DecodeQueued case 7 => DecodeRunning case 8 => Streaming
    case 9 => StageCompleting case 10 => StageCompleted case 11 => StageCancelled case 12 => StageFailed
    case _ => StageUnknown
  }

  function LifecycleIndex(l: RequestLifecycle): nat {
    match l
    case RequestUnknown => 0 case Registered => 1 case Active => 2 case Completing => 3
    case Completed => 4 case Cancelled => 5 case Failed => 6 case Interrupted => 7
  }

  function LifecycleAt(i: int): RequestLifecycle {
    match i
    case 1 => Registered case 2 => Active case 3 => Completing case 4 => Completed
    case 5 => RequestLifecycle.Cancelled case 6 => Failed case 7 => Interrupted case _ => RequestUnknown
  }

  function AttemptIndex(l: AttemptLifecycle): nat {
    match l
    case AttemptUnknown => 0 case AttemptRegistered => 1 case AttemptActive => 2 case AttemptDraining => 3
    case AttemptCompleted => 4 case AttemptFailed => 5 case AttemptCancelled => 6 case AttemptSuperseded => 7
  }

  function AttemptAt(i: int): AttemptLifecycle {
    match i
    case 1 => AttemptRegistered case 2 => AttemptActive case 3 => AttemptDraining case 4 => AttemptCompleted
    case 5 => AttemptFailed case 6 => AttemptCancelled case 7 => AttemptSuperseded case _ => AttemptUnknown
  }

  function PriorityAt(i: int): Priority {
    match i case 1 => LatencyCritical case 2 => Interactive case 3 => Standard case 4 => Background
            case 5 => Bulk case _ => PriorityUnknown
  }

  function PacingAt(i: int): Pacing {
    match i case 1 => Immediate case 2 => Paced case 3 => RateLimited case 4 => BestEffort case _ => PacingUnknown
  }

  function IntegrityAt(i: int): Integrity {
    match i case 1 => NoIntegrity case 2 => ChecksumOnly case 3 => ChecksumAndVerify case _ => IntegrityUnknown
  }

  function IsolationAt(i: int): Isolation {
    match i case 1 => IsolatedCritical case 2 => IsolatedInteractive case 3 => IsolatedBackground
            case 4 => IsolatedBulk case 5 => IsolatedControl case _ => IsolationUnknown
  }

  function ProvenanceIndex(p: Provenance): nat {
    match p case ProvenanceUnknown => 0 case Synthetic => 1 case Measured => 2
  }

  function ProvenanceAt(i: int): Provenance {
    match i case 1 => Synthetic case 2 => Measured case _ => ProvenanceUnknown
  }

  // ---------------------------------------------------------------------------------------------
  // Attempts
  // ---------------------------------------------------------------------------------------------

  const ATTEMPT: seq<Kind> :=
    [U64, U64, U64, Enum(13), Enum(8), U64, U64, U64, Flag, Flag, Enum(50), U64, U64, U32, U32, U32, I64, I64]

  function AttemptValues(a: Attempt): seq<int> {
    [a.id.high, a.id.low, a.generation, StageIndex(a.stage), AttemptIndex(a.lifecycle), a.modelHash,
     a.modelGeneration, a.routeGeneration, Bit(a.successPublished), Bit(a.failurePublished), a.reason,
     a.bytesIn, a.bytesOut, a.decisions, a.defers, a.rejections, a.registeredAt, a.updatedAt]
  }

  function AttemptOf(v: seq<int>): Attempt {
    if |v| != 18 then NewAttempt(NIL, 0, 0, 0, 0, 0)
    else
      Attempt(Id(WordOf(v[0]), WordOf(v[1])), NatOf(v[2]), StageAt(v[3]), AttemptAt(v[4]), WordOf(v[5]),
              NatOf(v[6]), NatOf(v[7]), v[8] == 1, v[9] == 1, ReasonOf(v[10]), NatOf(v[11]), NatOf(v[12]),
              NatOf(v[13]), NatOf(v[14]), NatOf(v[15]), v[16], v[17])
  }

  function AttemptSchema(): Schema<Attempt> { Schema(ATTEMPT, AttemptValues, AttemptOf, (a: Attempt) => true) }

  lemma AttemptsFaithful()
    ensures Faithful(AttemptSchema())
  {
    forall a: Attempt
      ensures |AttemptValues(a)| == |ATTEMPT| && AttemptOf(AttemptValues(a)) == a
    {
    }
  }

  // ---------------------------------------------------------------------------------------------
  // Requests
  // ---------------------------------------------------------------------------------------------

  const HEAD: seq<Kind> := [U64, U64, U64, Enum(8), Enum(13), U64, U64, U64]
  const TAIL: seq<Kind> := [Enum(50), I64, I64, Flag, Flag, U64, U64, U32, U32, U32, U32, U64]

  function HeadValues(r: Request): (v: seq<int>)
    ensures |v| == 8
  {
    [r.id.high, r.id.low, r.generation, LifecycleIndex(r.lifecycle), StageIndex(r.stage),
     r.currentAttempt.high, r.currentAttempt.low, r.currentAttemptGeneration]
  }

  function TailValues(r: Request): (v: seq<int>)
    ensures |v| == 12
  {
    [r.reason, r.registeredAt, r.terminalAt, Bit(r.requiresRevalidation), Bit(r.accountingClosed), r.bytesIn,
     r.bytesOut, r.decisions, r.defers, r.rejections, r.activeFlows, r.authorityFloor]
  }

  function RequestOf(h: seq<int>, attempts: seq<Attempt>, t: seq<int>): Request {
    if |h| != 8 || |t| != 12 then NewRequest(NIL, 0)
    else
      Request(Id(WordOf(h[0]), WordOf(h[1])), NatOf(h[2]), LifecycleAt(h[3]), StageAt(h[4]),
              Id(WordOf(h[5]), WordOf(h[6])), NatOf(h[7]), attempts, ReasonOf(t[0]), t[1], t[2], t[3] == 1,
              t[4] == 1, NatOf(t[5]), NatOf(t[6]), NatOf(t[7]), NatOf(t[8]), NatOf(t[9]), NatOf(t[10]),
              NatOf(t[11]))
  }

  lemma RequestBack(r: Request)
    ensures RequestOf(HeadValues(r), r.attempts, TailValues(r)) == r
  {
  }

  /** The parts of a request record: the fields before its attempts, the attempts, the fields after. */
  datatype RequestShape = RequestShape(head: seq<Kind>, attempt: Coder<Attempt>, tail: seq<Kind>)

  ghost predicate ShapeOk(z: RequestShape) { |z.head| == 8 && |z.tail| == 12 && Inverts(z.attempt) }

  predicate RequestFits(z: RequestShape, r: Request) {
    && AllFit(z.head, HeadValues(r)) && AllFit(z.tail, TailValues(r))
    && |r.attempts| <= MAX_ATTEMPTS && (forall i | 0 <= i < |r.attempts| :: z.attempt.fits(r.attempts[i]))
  }

  function PutRequest(z: RequestShape, r: Request): Bytes {
    if |z.head| != 8 || |z.tail| != 12 then []
    else
      PutFields(z.head, HeadValues(r)) + (PutCounted(z.attempt, r.attempts) + PutFields(z.tail, TailValues(r)))
  }

  /** What the decoder asks of a record beyond its fields. */
  predicate Acceptable(r: Request) {
    && !r.id.IsNil()
    && (r.attempts != [] ==> !r.currentAttempt.IsNil())
    && (r.attempts == [] ==> r.lifecycle.RequestUnknown? || r.lifecycle.Registered?)
  }

  function TakeRequest(z: RequestShape, s: Bytes): Parsed<Request> {
    var (h, v1) := TakeFields(z.head, Success(s));
    if v1.Failure? then Failure(v1.code)
    else
      var attempts := TakeCounted(z.attempt, MAX_ATTEMPTS, v1.value);
      if attempts.Failure? then Failure(attempts.code)
      else
        var (t, v2) := TakeFields(z.tail, Success(attempts.value.1));
        if v2.Failure? then Failure(v2.code)
        else
          var r := RequestOf(h, attempts.value.0, t);
          if !Acceptable(r) then Failure(MalformedInput) else Success((r, v2.value))
  }

  /** A record that fits comes back exactly when it is acceptable; otherwise its own bytes are refused. */
  lemma RequestRound(z: RequestShape, r: Request, rest: Bytes)
    requires ShapeOk(z) && RequestFits(z, r)
    ensures TakeRequest(z, PutRequest(z, r) + rest) ==
            if Acceptable(r) then Success((r, rest)) else Failure(MalformedInput)
  {
    var tail := PutFields(z.tail, TailValues(r));
    var attempts := PutCounted(z.attempt, r.attempts);
    assert PutRequest(z, r) + rest == PutFields(z.head, HeadValues(r)) + (attempts + (tail + rest));
    FieldsRound(z.head, HeadValues(r), attempts + (tail + rest));
    CountedRound(z.attempt, r.attempts, MAX_ATTEMPTS, tail + rest);
    FieldsRound(z.tail, TailValues(r), rest);
    RequestBack(r);
  }

  function RequestCoder(z: RequestShape): Coder<Request> {
    Coder(r => PutRequest(z, r), s => TakeRequest(z, s), r => RequestFits(z, r) && Acceptable(r))
  }

  lemma RequestsInvert(z: RequestShape)
    requires ShapeOk(z)
    ensures Inverts(RequestCoder(z))
  {
    var c := RequestCoder(z);
    forall r, rest | c.fits(r)
      ensures c.take(c.put(r) + rest) == Success((r, rest))
    {
      RequestRound(z, r, rest);
    }
  }

  lemma RequestsDecide(z: RequestShape)
    requires ShapeOk(z)
    ensures Decides(RequestCoder(z), r => RequestFits(z, r))
  {
    var c := RequestCoder(z);
    forall r, rest | RequestFits(z, r)
      ensures c.take(c.put(r) + rest) == if c.fits(r) then Success((r, rest)) else Failure(MalformedInput)
    {
      RequestRound(z, r, rest);
    }
  }

  /** The layout of the source. */
  function RequestLayout(): RequestShape { RequestShape(HEAD, RecordCoder(AttemptSchema()), TAIL) }

  lemma RequestLayoutOk()
    ensures ShapeOk(RequestLayout())
  {
    AttemptsFaithful();
    RecordsInvert(AttemptSchema());
  }

  /** A request cancelled before any attempt was bound is written and then refused by the decoder. */
  lemma EarlyCancellationIsRefused(r: Request, reason: Reason, sequence: Generation, now: int, rest: Bytes)
    requires r.attempts == [] && RequestFits(RequestLayout(), CancelledRecord(r, reason, sequence, now))
    ensures TakeRequest(RequestLayout(), PutRequest(RequestLayout(), CancelledRecord(r, reason, sequence, now)) + rest)
            == Failure(MalformedInput)
  {
    RequestLayoutOk();
    RequestRound(RequestLayout(), CancelledRecord(r, reason, sequence, now), rest);
  }

  // ---------------------------------------------------------------------------------------------
  // Policies
  // ---------------------------------------------------------------------------------------------

  const POLICY: seq<Kind> := [Counter, Flag, Flag, U32, U64, U32, Flag, U64, U64, U16]
  const RULE: seq<Kind> :=
    [Flag, Enum(6), Enum(5), Enum(4), Enum(6), U32, U64, U64, U64, Flag, Flag, Flag, Flag, Flag, Flag, Flag,
     U32, U64, Flag]

  function RuleValues(r: Rule): seq<int> {
    [Bit(r.enabled), PriorityIndex(r.priority), PacingIndex(r.pacing), IntegrityIndex(r.integrity),
     IsolationIndex(r.isolation), r.reservedWeight, r.maxBurst, r.rateLimit, r.maxInFlight,
     Bit(r.requiresTopology), Bit(r.requiresSlo), Bit(r.requiresRoute), Bit(r.requiresModel),
     Bit(r.requiresState), Bit(r.requiresDeadline), Bit(r.starvationProtected), r.maxDeferCount,
     r.maxDeferHorizon, Bit(r.yieldsToLatency)]
  }

  function RuleFrom(v: seq<int>): Rule {
    if |v| != 19 then NO_RULE
    else
      Rule(v[0] == 1, PriorityAt(v[1]), PacingAt(v[2]), IntegrityAt(v[3]), IsolationAt(v[4]), NatOf(v[5]),
           NatOf(v[6]), NatOf(v[7]), NatOf(v[8]), v[9] == 1, v[10] == 1, v[11] == 1, v[12] == 1, v[13] == 1,
           v[14] == 1, v[15] == 1, NatOf(v[16]), NatOf(v[17]), v[18] == 1)
  }

  function RuleSchema(): Schema<Rule> { Schema(RULE, RuleValues, RuleFrom, (r: Rule) => true) }

  lemma RulesFaithful()
    ensures Faithful(RuleSchema())
  {
    forall r: Rule
      ensures |RuleValues(r)| == |RULE| && RuleFrom(RuleValues(r)) == r
    {
    }
  }

  function PolicyValues(p: Policy): (v: seq<int>)
    ensures |v| == 10
  {
    [p.generation, Bit(p.allowUnknownStage), Bit(p.allowUnknownClass), p.maxExplanationSteps, p.bulkCap,
     p.congestionQueueDepth, Bit(p.congestionYieldsBulk), p.deferHint, p.staleGrace, CLASS_COUNT]
  }

  function PolicyFrom(v: seq<int>, rules: seq<Rule>): Policy
    requires |v| == 10
  {
    Policy(NatOf(v[0]), rules, v[1] == 1, v[2] == 1, NatOf(v[3]), NatOf(v[4]), NatOf(v[5]), v[6] == 1,
           NatOf(v[7]), NatOf(v[8]))
  }

  lemma PolicyBack(p: Policy)
    ensures PolicyFrom(PolicyValues(p), p.rules) == p
  {
  }

  datatype PolicyShape = PolicyShape(head: seq<Kind>, rule: Coder<Rule>)

  ghost predicate PolicyShapeOk(z: PolicyShape) { |z.head| == 10 && Inverts(z.rule) }

  predicate PolicyFits(z: PolicyShape, p: Policy) {
    AllFit(z.head, PolicyValues(p)) && forall i | 0 <= i < |p.rules| :: z.rule.fits(p.rules[i])
  }

  function PutPolicy(z: PolicyShape, p: Policy): Bytes {
    if |z.head| != 10 then [] else PutFields(z.head, PolicyValues(p)) + PutList(z.rule, p.rules)
  }

  /** A step limit of zero, or above the ceiling, is read as the ceiling. */
  function Limited(p: Policy): Policy {
    if p.maxExplanationSteps == 0 || p.maxExplanationSteps > MAX_EXPLANATION_STEPS
    then p.(maxExplanationSteps := MAX_EXPLANATION_STEPS) else p
  }

  function TakePolicy(z: PolicyShape, s: Bytes): Parsed<Policy> {
    var (v, v1) := TakeFields(z.head, Success(s));
    if v1.Failure? then Failure(v1.code)
    else if |v| != 10 || v[9] != CLASS_COUNT then Failure(MalformedInput)
    else
      var rules := TakeList(z.rule, CLASS_COUNT, v1.value);
      if rules.Failure? then Failure(rules.code)
      else
        var p := Limited(PolicyFrom(v, rules.value.0));
        if !PolicyValid(p) then Failure(PolicyInvalid) else Success((p, rules.value.1))
  }

  lemma LimitedValid(p: Policy)
    requires PolicyValid(p)
    ensures PolicyValid(Limited(p)) && (Limited(p) == p <==> p.maxExplanationSteps != 0)
  {
  }

  /** A valid policy comes back, but for a step limit of zero. */
  lemma PolicyRound(z: PolicyShape, p: Policy, rest: Bytes)
    requires PolicyShapeOk(z) && PolicyFits(z, p) && PolicyValid(p)
    ensures TakePolicy(z, PutPolicy(z, p) + rest) == Success((Limited(p), rest))
    ensures TakePolicy(z, PutPolicy(z, p) + rest) == Success((p, rest)) <==> p.maxExplanationSteps != 0
  {
    var rules := PutList(z.rule, p.rules);
    assert PutPolicy(z, p) + rest == PutFields(z.head, PolicyValues(p)) + (rules + rest);
    FieldsRound(z.head, PolicyValues(p), rules + rest);
    ListRound(z.rule, p.rules, rest);
    PolicyBack(p);
    LimitedValid(p);
  }

  function PolicyLayout(): PolicyShape { PolicyShape(POLICY, RecordCoder(RuleSchema())) }

  lemma PolicyLayoutOk()
    ensures PolicyShapeOk(PolicyLayout())
  {
    RulesFaithful();
    RecordsInvert(RuleSchema());
  }

  // ---------------------------------------------------------------------------------------------
  // Evidence and registrations
  // ---------------------------------------------------------------------------------------------

  const TOPOLOGY: seq<Kind> := [U64, Enum(3), U64, U64, I64, U64, U32, U32, U32, U64, U32, Flag, Flag]

  function TopologyValues(t: Topology): seq<int> {
    [t.generation, ProvenanceIndex(t.provenance), t.boot.high, t.boot.low, t.observedAt, t.maxAge, t.nodes,
     t.accelerators, t.links, t.fabricRate, t.queueDepth, Bit(t.congested), Bit(t.disaggregated)]
  }

  const NO_TOPOLOGY: Topology := Topology(0, ProvenanceUnknown, NIL, 0, 0, 0, 0, 0, 0, 0, false, false)

  function TopologyFrom(v: seq<int>): Topology {
    if |v| != 13 then NO_TOPOLOGY
    else
      Topology(NatOf(v[0]), ProvenanceAt(v[1]), Id(WordOf(v[2]), WordOf(v[3])), v[4], NatOf(v[5]), NatOf(v[6]),
               NatOf(v[7]), NatOf(v[8]), NatOf(v[9]), NatOf(v[10]), v[11] == 1, v[12] == 1)
  }

  /** A placeholder for evidence that is absent is read without being checked. */
  function TopologySchema(present: bool): Schema<Topology> {
    Schema(TOPOLOGY, TopologyValues, TopologyFrom, (t: Topology) => present ==> TopologyValid(t))
  }

  lemma TopologyFaithful(present: bool)
    ensures Faithful(TopologySchema(present))
  {
    forall t: Topology
      ensures |TopologyValues(t)| == |TOPOLOGY| && TopologyFrom(TopologyValues(t)) == t
    {
    }
  }

  const ENTRY: seq<Kind> := [U64, U64, Flag]

  function EntryValues(e: (Word64, Registration)): seq<int> {
    [e.0, e.1.generation, Bit(e.1.requiresRevalidation)]
  }

  function EntryFrom(v: seq<int>): (Word64, Registration) {
    if |v| != 3 then (0, Registration(0, false)) else (WordOf(v[0]), Registration(NatOf(v[1]), v[2] == 1))
  }

  function EntrySchema(): Schema<(Word64, Registration)> {
    Schema(ENTRY, EntryValues, EntryFrom, (e: (Word64, Registration)) => e.0 != 0 && e.1.generation != 0)
  }

  lemma EntriesFaithful()
    ensures Faithful(EntrySchema())
  {
    forall e: (Word64, Registration)
      ensures |EntryValues(e)| == |ENTRY| && EntryFrom(EntryValues(e)) == e
    {
    }
  }
}
