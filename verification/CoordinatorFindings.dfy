/**
 * Where the coordinator falls short of what one would expect of it, each with the exact condition under
 * which it does not.
 */
module CoordinatorFindings {
  import opened Ids
  import opened Traffic
  import opened Reasons
  import opened Policies
  import opened LedgerModel
  import opened LedgerAccounting
  import opened Mixing
  import opened Deferral
  import opened CoordinatorModel
  import C = CoordinatorModel
  import opened Evaluation
  import opened EvaluationProofs
  import opened CoordinatorRuns
  import opened CoordinatorCoherence
  import opened CoordinatorTransfers
  import opened Coordinators

  // ---------------------------------------------------------------------------------------------
  // A decision without a subject kind
  // ---------------------------------------------------------------------------------------------

  predicate AuthorityCurrent(s: Fabric, d: Decision) {
    ValidateAuthority(d.authority, s.epoch, s.incarnation, s.policy.generation).Current?
  }

  /** An ended transfer gains a flow exactly when the decision presented has no subject kind. */
  lemma EndedTransferGainsFlowExactly(s: Fabric, d: Decision, declared: nat, now: int, tag: bv64)
    requires !d.subject.Serving? && d.subject.transfer in s.transfers
    requires var t := s.transfers[d.subject.transfer]; TransferEnded(t.state) && t.flow.IsNil()
    requires AuthorityCurrent(s, d) && d.Permits() && declared <= s.config.maxPayload
    requires !BulkExhausted(s, d.treatment.traffic, declared)
    ensures var s' := C.OpenFlow(s, d, declared, now, tag).fabric;
      && TransferEnded(s'.transfers[d.subject.transfer].state)
      && (!s'.transfers[d.subject.transfer].flow.IsNil() <==> d.subject.Unkinded?)
  {
  }

  // ---------------------------------------------------------------------------------------------
  // Two counters, one id space
  // ---------------------------------------------------------------------------------------------

  lemma ZeroMixesToZero()
    ensures Mix64(0) == 0
  {
  }

  lemma ConcreteTransferTag()
    ensures TransferTag(Id(0, 0xA24B_AED4_963E_E407)) == 0
  {
    var c: bv64 := 0xA24BAED4963EE407;
    assert Bits(0xA24B_AED4_963E_E407) == c && Bits(0) == 0;
    assert c ^ (0 + c) == 0;
    ZeroMixesToZero();
  }

  lemma ConcreteServingTag()
    ensures FlowTag(Id(1, 0), Id(0, 0x0100_0000_0000_0001), RequestIngress) == 0
  {
    var one: bv64 := 1;
    var low: bv64 := 0x0100000000000001;
    assert Bits(1) == one && Bits(0) == 0;
    assert Bits(0x0100_0000_0000_0001) == low;
    assert one ^ (0 * 0x9E3779B97F4A7C15) ^ (0 * 0xBF58476D1CE4E5B9) ^ low ^ (one << 56) == 0;
  }

  /** The transfer already holds a flow, which is handed out again. */
  predicate Reopens(s: Fabric, d: Decision) {
    !d.subject.Serving? && d.subject.transfer in s.transfers && !s.transfers[d.subject.transfer].flow.IsNil()
  }

  /** An opening keeps the coordinator coherent exactly when it mints nothing, or an identity that is new. */
  lemma OpeningCoheresExactly(s: Fabric, d: Decision, declared: nat, now: int, tag: bv64)
    requires Coherent(s) && C.OpenFlow(s, d, declared, now, tag).result.Success?
    ensures Coherent(C.OpenFlow(s, d, declared, now, tag).fabric) <==>
            Reopens(s, d) || NextId(s, d, tag) !in s.book.flows
  {
    var f := NextId(s, d, tag);
    if f !in s.book.flows {
      OpenFlowCoheres(s, d, declared, now, tag);
    } else if d.subject.Serving? {
      MeetingIsNotMirrored(s, d, declared, now, tag);
    } else if !Reopens(s, d) {
      MeetingIsNotIndexed(s, d, declared, tag);
    }
  }

  lemma MeetingIsNotIndexed(s: Fabric, d: Decision, declared: nat, tag: bv64)
    requires Coherent(s) && !d.subject.Serving? && d.subject.transfer in s.transfers && !Reopens(s, d)
    requires NextId(s, d, tag) in s.book.flows
    ensures !Coherent(OpenMoving(s, d, declared, tag).fabric)
  {
    var s', t, f := OpenMoving(s, d, declared, tag).fabric, d.subject.transfer, NextId(s, d, tag);
    View(s);
    assert At(f) && At((t, f));
    assert (t, f) in s'.book.byTransfer && s'.book.flows[f].owner != OfTransfer(t);
    if Coherent(s') { View(s'); }
  }

  lemma MeetingIsNotMirrored(s: Fabric, d: Decision, declared: nat, now: int, tag: bv64)
    requires Coherent(s) && d.subject.Serving? && C.OpenFlow(s, d, declared, now, tag).result.Success?
    requires NextId(s, d, tag) in s.book.flows
    ensures !Coherent(C.OpenFlow(s, d, declared, now, tag).fabric)
  {
    ServedIsNotMirrored(s, d, declared, now, tag);
  }

  lemma ServedIsNotMirrored(s: Fabric, d: Decision, declared: nat, now: int, tag: bv64)
    requires Coherent(s) && d.subject.Serving? && OpenServing(s, d, declared, now, tag).result.Success?
    requires NextId(s, d, tag) in s.book.flows
    ensures !Coherent(OpenServing(s, d, declared, now, tag).fabric)
  {
    var s', f := OpenServing(s, d, declared, now, tag).fabric, NextId(s, d, tag);
    View(s);
    assert At(f);
    NewInLedger(s.ledger, f);
    if Coherent(s') { View(s'); }
  }

  lemma NewInLedger(l: Ledger, f: FlowId)
    requires Accounted(l) && f.sequence == l.nextFlow + 1
    ensures f !in l.flows
  {
    OpenBooks(l);
  }

  // ---------------------------------------------------------------------------------------------
  // An authorization that strands a flow
  // ---------------------------------------------------------------------------------------------

  /** Bulk traffic under a ceiling of ten bytes; every other class is disabled. */
  const KV_RULE: Rule :=
    NO_RULE.(enabled := true, priority := Bulk, pacing := Paced, integrity := NoIntegrity, isolation := IsolatedBulk,
             yieldsToLatency := true)

  function SmallPolicy(): Policy {
    Policy(1, [NO_RULE, NO_RULE, NO_RULE, NO_RULE, KV_RULE, NO_RULE, NO_RULE, NO_RULE, NO_RULE, NO_RULE,
               NO_RULE, NO_RULE], false, false, 1, 10, 0, false, 0, 0)
  }

  function Ask(t: Id): TrafficRequest {
    TrafficRequest(Some(Moving(t)), KvTransfer, StageUnknown, HintNone, 0, 0, 0, UNSET, 0,
                   Binding(None, None, None, None, None, None, None, None))
  }

  /** A transfer of `payload` bytes for `owner`, bound to the first generation of model and state 1. */
  function Shipment(owner: Id, payload: nat, state: TransferState, f: FlowId): Transfer {
    Transfer(1, 1, payload, 0, 1, 1, owner, NIL, KvTransfer, NoIntegrity, state, UNKNOWN, f)
  }

  /** A coordinator under that policy that holds the transfer, with its generations current. */
  predicate Prepared(s: Fabric, t: Id, x: Transfer, bulk: nat) {
    && s.policy == SmallPolicy() && s.topology.None? && Booted(s) && s.config.maxPayload == 100
    && s.states == map[1 := Registration(1, false)] && s.models == map[1 := Registration(1, false)]
    && t in s.transfers && s.transfers[t] == x && !OwnerCancelled(s, x)
    && s.slo == map[] && s.defers.records == map[] && s.defers.streaming == 0 && s.book.bulk == bulk
  }

  lemma PreparedPasses(s: Fabric, t: Id, owner: Id, payload: nat, state: TransferState, f: FlowId, bulk: nat, now: int)
    requires Prepared(s, t, Shipment(owner, payload, state, f), bulk) && !TransferEnded(state) && !t.IsNil()
    ensures GateOf(s, Ask(t), now) == Passed(KvTransfer, None)
    ensures Pressure(s, Ask(t), KvTransfer, now).None?
    ensures RuleOf(s.policy, KvTransfer) == KV_RULE
  {
    assert RuleOf(s.policy, KvTransfer) == KV_RULE;
    assert SubjectObjection(s, Ask(t)).None?;
    assert RuleObjection(s, Ask(t), KV_RULE, now).None?;
  }

  lemma PreparedPermits(s: Fabric, t: Id, owner: Id, payload: nat, state: TransferState, f: FlowId, bulk: nat, now: int,
                        choice: Key)
    requires Prepared(s, t, Shipment(owner, payload, state, f), bulk) && !TransferEnded(state) && !t.IsNil()
    ensures var e := Evaluate(s, Ask(t), now, choice);
      && e.1.verdict.Allowed? && e.1.treatment.traffic == KvTransfer && e.1.subject == Moving(t)
      && e.1.authority == Evaluation.Minted(s)
      && e.0 == s.(sequence := s.sequence + 1)
  {
    PreparedPasses(s, t, owner, payload, state, f, bulk, now);
    assert Clear(s.defers, PartyOf(SubjectOf(Ask(t))), KvTransfer) == s.defers;
  }

  /** The transfer is authorized and holds the flow with this tag; no other table changed. */
  ghost predicate Ships(s: Fabric, t: Id, owner: Id, payload: nat, bulk: nat, tag: bv64, out: Effect<Authorization>) {
    var f := FlowId(s.book.nextFlow + 1, tag);
    && Prepared(out.fabric, t, Shipment(owner, payload, Authorized, f), bulk + payload)
    && out.fabric.transfers == s.transfers[t := Shipment(owner, payload, Authorized, f)]
    && out.fabric.book.flows == s.book.flows[f := Flow(OfTransfer(t), KvTransfer, payload, 0, s.sequence + 1, true)]
    && out.fabric.book.nextFlow == s.book.nextFlow + 1
    && out.fabric.ledger == s.ledger && out.fabric.config == s.config
    && out.result.Success? && out.result.value.authorized
  }

  /** The first authorization of a transfer that fits opens its flow. */
  lemma FirstAuthorization(s: Fabric, t: Id, owner: Id, payload: nat, bulk: nat, now: int, choice: Key, tag: bv64)
    requires Prepared(s, t, Shipment(owner, payload, TransferRegistered, NO_FLOW), bulk) && !t.IsNil()
    requires payload + bulk <= 10 && FlowId(s.book.nextFlow + 1, tag) !in s.book.flows
    ensures Ships(s, t, owner, payload, bulk, tag, AuthorizeTransfer(s, Ask(t), now, choice, tag))
  {
    PreparedPermits(s, t, owner, payload, TransferRegistered, NO_FLOW, bulk, now, choice);
    var e := Evaluate(s, Ask(t), now, choice);
    FirstConcluded(s, e.0, e.1, t, owner, payload, bulk, now, tag);
  }

  lemma FirstConcluded(s: Fabric, s1: Fabric, d: Decision, t: Id, owner: Id, payload: nat, bulk: nat, now: int,
                       tag: bv64)
    requires Prepared(s, t, Shipment(owner, payload, TransferRegistered, NO_FLOW), bulk)
    requires s1 == s.(sequence := s.sequence + 1)
    requires payload + bulk <= 10 && FlowId(s.book.nextFlow + 1, tag) !in s.book.flows
    requires d.subject == Moving(t) && d.verdict.Allowed? && d.treatment.traffic == KvTransfer
    requires d.authority == Evaluation.Minted(s)
    ensures Ships(s, t, owner, payload, bulk, tag, Conclude(s1, d, t, now, tag))
  {
    FirstOpening(s1, d, t, owner, payload, bulk, now, tag);
  }

  lemma FirstOpening(s: Fabric, d: Decision, t: Id, owner: Id, payload: nat, bulk: nat, now: int, tag: bv64)
    requires Prepared(s, t, Shipment(owner, payload, TransferRegistered, NO_FLOW), bulk) && s.sequence > 0
    requires payload + bulk <= 10 && FlowId(s.book.nextFlow + 1, tag) !in s.book.flows
    requires d.subject == Moving(t) && d.verdict.Allowed? && d.treatment.traffic == KvTransfer
    requires d.authority == Stamp(s.epoch, s.incarnation, s.policy.generation, s.sequence)
    ensures var f := FlowId(s.book.nextFlow + 1, tag);
      var flow := Flow(OfTransfer(t), KvTransfer, payload, 0, s.sequence, true);
      C.OpenFlow(s, d, payload, now, tag) == Effect(Moved(s, t, f, flow), Success(f))
      && Moved(s, t, f, flow).book.bulk == bulk + payload
  {
    assert ValidateDecision(s, d).Ok?;
    assert BulkClass(s, KvTransfer) by { assert RuleOf(s.policy, KvTransfer) == KV_RULE; }
    assert AddWrap(bulk, payload) == bulk + payload;
  }

  /** Authorizing the same transfer twice refuses it the second time and leaves its flow open. */
  lemma SecondAuthorizationStrands(s: Fabric, t: Id, now: int, choice: Key, tag: bv64, later: int,
                                   choice': Key, tag': bv64)
    requires Prepared(s, t, Shipment(NIL, 6, TransferRegistered, NO_FLOW), 0) && !t.IsNil() && s.book.flows == map[]
    ensures var s1 := AuthorizeTransfer(s, Ask(t), now, choice, tag).fabric;
      var s2 := AuthorizeTransfer(s1, Ask(t), later, choice', tag').fabric;
      && Strands(s1, Ask(t), later, choice')
      && t in s2.transfers && s2.transfers[t].state.TransferRefused?
      && s2.transfers[t].flow == FlowId(s.book.nextFlow + 1, tag)
      && !EndedFlowless(s2.transfers)
  {
    FirstAuthorization(s, t, NIL, 6, 0, now, choice, tag);
    var s1 := AuthorizeTransfer(s, Ask(t), now, choice, tag).fabric;
    var f := FlowId(s.book.nextFlow + 1, tag);
    SecondRefused(s1, t, f, later, choice', tag');
    assert At(t);
  }

  lemma SecondRefused(s: Fabric, t: Id, f: FlowId, now: int, choice: Key, tag: bv64)
    requires Prepared(s, t, Shipment(NIL, 6, Authorized, f), 6) && !t.IsNil() && !f.IsNil()
    ensures var s' := AuthorizeTransfer(s, Ask(t), now, choice, tag).fabric;
      && Strands(s, Ask(t), now, choice)
      && t in s'.transfers && s'.transfers[t].state.TransferRefused? && s'.transfers[t].flow == f
  {
    PreparedPermits(s, t, NIL, 6, Authorized, f, 6, now, choice);
    StrandsMeaning(s, Ask(t), now, choice);
    CeilingReached(s);
    SecondConcluded(s.(sequence := s.sequence + 1), Evaluate(s, Ask(t), now, choice).1, t, f, now, tag);
  }

  lemma CeilingReached(s: Fabric)
    requires s.policy == SmallPolicy() && s.book.bulk == 6
    ensures BulkExhausted(s, KvTransfer, 6)
  {
    assert RuleOf(s.policy, KvTransfer) == KV_RULE;
  }

  lemma SecondConcluded(s: Fabric, d: Decision, t: Id, f: FlowId, now: int, tag: bv64)
    requires Prepared(s, t, Shipment(NIL, 6, Authorized, f), 6) && d.Permits()
    requires d.subject == Moving(t) && d.treatment.traffic == KvTransfer
    ensures var s' := Conclude(s, d, t, now, tag).fabric;
      t in s'.transfers && s'.transfers[t].state.TransferRefused? && s'.transfers[t].flow == f
  {
    CeilingReached(s);
  }
}
