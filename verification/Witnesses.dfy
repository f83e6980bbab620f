/**
 * Runs from a booted coordinator on which an expectation fails: a cancelled request's transfer is given a
 * flow, and the self-check fails although every table is coherent.
 */
module Witnesses {
  import opened Ids
  import opened Traffic
  import opened Reasons
  import opened Policies
  import opened LedgerModel
  import opened LedgerFindings
  import opened Deferral
  import opened CoordinatorModel
  import C = CoordinatorModel
  import opened Evaluation
  import opened EvaluationProofs
  import opened CoordinatorRuns
  import opened CoordinatorCoherence
  import opened CoordinatorInvariant
  import opened CoordinatorEvolution
  import opened CoordinatorSafety
  import opened CoordinatorTransfers
  import opened CoordinatorChecks
  import opened CoordinatorFindings
  import opened Restart

  // ---------------------------------------------------------------------------------------------
  // A coordinator with one model and one state
  // ---------------------------------------------------------------------------------------------

  /** Small limits, the small policy and the hash of the source. */
  function Site(flows: nat): Config {
    Config(Limits(4, 4, 4, 4, flows), 4, 4, 4, 4, 4, 4, 100, 1, SmallPolicy(), DeferKey)
  }

  lemma SmallPolicyIsValid()
    ensures PolicyValid(SmallPolicy())
  {
    var n, k := NO_RULE, KV_RULE;
    assert RuleSupported(n) && RuleSupported(k) && IsBulkRule(k);
    assert SmallPolicy().rules == [n, n, n, n, k, n, n, n, n, n, n, n];
    IdleRules(SmallPolicy().rules);
  }

  lemma {:induction false} IdleRules(rules: seq<Rule>)
    requires forall r | r in rules :: !r.enabled || IsBulkRule(r) || r.reservedWeight == 0
    ensures ReservedTotal(rules) == 0
    decreases |rules|
  {
    if rules == [] {
    } else {
      assert rules[|rules| - 1] in rules;
      IdleRules(rules[..|rules| - 1]);
    }
  }

  function Booting(flows: nat): Fabric { BootFresh(Unbooted(Site(flows)), Id(0, 7)) }

  /** After the boot, one model generation and one state generation are registered. */
  function Stocked(flows: nat): Fabric {
    AdvanceStateGeneration(SetModelGeneration(Booting(flows), 1, None).fabric, 1, None).fabric
  }

  lemma StockedIs(flows: nat)
    ensures Stocked(flows) == Booting(flows).(models := map[1 := Registration(1, false)],
                                              states := map[1 := Registration(1, false)])
  {
    var s := SetModelGeneration(Booting(flows), 1, None).fabric;
    assert s.models == map[1 := Registration(1, false)];
    assert AdvanceStateGeneration(s, 1, None).fabric.states == map[1 := Registration(1, false)];
  }

  lemma StockedCoherent(flows: nat)
    requires 0 < flows < 1000
    ensures Coherent(Stocked(flows)) && Booted(Stocked(flows))
  {
    SourceHashConfigures(Site(flows));
    FreshBootCoherent(Unbooted(Site(flows)), Id(0, 7));
    StockedIs(flows);
    Unmoved(Booting(flows), Stocked(flows));
  }

  function Order(t: Id, owner: Id, payload: nat): TransferSpec {
    TransferSpec(t, 1, 1, payload, owner, NIL, KvTransfer, NoIntegrity)
  }

  /** The parts of a stocked coordinator that do not change while transfers and requests come and go. */
  predicate Standard(s: Fabric) {
    && s.policy == SmallPolicy() && s.topology.None? && Booted(s) && s.config.maxPayload == 100
    && s.config.maxTransfers == 4
    && s.states == map[1 := Registration(1, false)] && s.models == map[1 := Registration(1, false)]
    && s.slo == map[] && s.defers.records == map[] && s.defers.streaming == 0
  }

  lemma StockedStandard(flows: nat)
    ensures Standard(Stocked(flows)) && Stocked(flows).transfers == map[] && Stocked(flows).book == EMPTY_BOOK
  {
    StockedIs(flows);
  }

  lemma Ordered(s: Fabric, t: Id, owner: Id, payload: nat)
    requires Standard(s) && t !in s.transfers && !t.IsNil() && |s.transfers| < 4 && payload <= 100
    requires !OwnerCancelled(s, Shipment(owner, payload, TransferRegistered, NO_FLOW))
    ensures var s' := RegisterTransfer(s, Order(t, owner, payload)).fabric;
      && Standard(s') && Prepared(s', t, Shipment(owner, payload, TransferRegistered, NO_FLOW), s.book.bulk)
      && s'.transfers == s.transfers[t := Shipment(owner, payload, TransferRegistered, NO_FLOW)]
      && s'.book == s.book && s'.ledger == s.ledger && s'.config == s.config
  {
    assert RegistrationCheck(s, Order(t, owner, payload)).Ok?;
  }

  // ---------------------------------------------------------------------------------------------
  // A cancelled request's transfer is given a flow
  // ---------------------------------------------------------------------------------------------

  /** A permitting decision about a transfer, stamped now, whose subject has no kind. */
  function Kindless(s: Fabric, t: Id): Decision {
    Decision(Allowed, ADMITTED, NO_TREATMENT.(traffic := KvTransfer), Unkinded(t), Ask(t).binding,
             Stamp(s.epoch, s.incarnation, s.policy.generation, 1), 0)
  }

  /** A coherent coordinator in its standard setting that has met no request and no transfer. */
  ghost predicate Opening(s: Fabric) {
    && Coherent(s) && Standard(s) && s.transfers == map[] && s.book == EMPTY_BOOK
    && s.ledger.requests == map[] && s.ledger.terminalOrder == [] && s.ledger.index == {} && s.ledger.flows == map[]
    && s.ledger.limits.maxLive >= 1 && s.ledger.limits.maxRetained >= 1 && s.ledger.limits.maxAttempts >= 1
  }

  /** A booted coordinator is such a one. */
  lemma StockedOpens(flows: nat)
    requires 0 < flows < 1000
    ensures Opening(Stocked(flows)) && Stocked(flows).config.ledger.maxFlowsTotal == flows
    ensures PolicyValid(Stocked(flows).policy)
  {
    SmallPolicyIsValid();
    StockedCoherent(flows);
    StockedStandard(flows);
    StockedIs(flows);
  }

  lemma RequestOpens(s: Fabric, r: Id)
    requires Opening(s) && !r.IsNil()
    ensures var s' := C.RegisterRequest(s, r, 0).fabric;
      && Coherent(s') && s' == s.(ledger := s'.ledger)
      && Holds(s'.ledger, s.ledger.limits, r, NewRequest(r, 0), [])
  {
    RegisterCoheres(s, r, 0);
    AfterRegister(s.ledger, r);
  }

  /** Whoever cancels a retained request with a transfer can see the transfer revived. */
  lemma CancelThenRevive(s: Fabric, id: Id, t: Id, reason: Reason, now: int, declared: nat, later: int, tag: bv64)
    requires Coherent(s) && Standard(s) && t in s.transfers && s.transfers[t].request == id && s.book == EMPTY_BOOK
    requires C.CancelRequest(s, id, reason, now).result.Success?
    requires id in C.CancelRequest(s, id, reason, now).fabric.ledger.requests && declared <= 10
    ensures var s' := C.CancelRequest(s, id, reason, now).fabric;
      var d := Kindless(s', t);
      && Dead(s', id) && Revives(s', d)
      && !Dead(C.OpenFlow(s', d, declared, later, tag).fabric, id)
  {
    var s' := C.CancelRequest(s, id, reason, now).fabric;
    CancelKills(s, id, reason, now);
    CancelForward(s, id, reason, now);
    CancelQuiet(s, id, reason, now);
    assert At(t);
    FitsUnderCeiling(s', declared);
    RevivalUndoesExactly(s', id, Kindless(s', t), declared, later, tag);
  }

  lemma {:induction false} NothingToRelease(s: Fabric, victims: set<FlowId>)
    requires s.book.flows == map[]
    ensures ReleaseAll(s, victims) == s
    decreases victims
  {
    if victims == {} {
    } else {
      var f :| f in victims && ReleaseAll(s, victims) == ReleaseAll(ReleaseOne(s, f), victims - {f});
      assert ReleaseOne(s, f) == s;
      NothingToRelease(s, victims - {f});
    }
  }

  lemma IdleRelease(s: Fabric, id: Id)
    requires s.book == EMPTY_BOOK
    ensures ReleaseRequest(s, id) == if id.IsNil() then s else s.(transfers := AbandonOwned(s, id))
  {
    NothingToRelease(s.(transfers := AbandonOwned(s, id)), ServingVictims(s, id) + TransferVictims(s, id));
  }

  lemma CancelQuiet(s: Fabric, id: Id, reason: Reason, now: int)
    requires s.book == EMPTY_BOOK
    ensures var s' := C.CancelRequest(s, id, reason, now).fabric;
      && Quiet(s, s') && s'.book == s.book && s'.slo == s.slo
      && s'.ledger == LedgerModel.CancelRequest(s.ledger, id, reason, s.sequence + 1, now).ledger
  {
    var out := LedgerModel.CancelRequest(s.ledger, id, reason, s.sequence + 1, now);
    IdleRelease(s.(sequence := s.sequence + 1, ledger := out.ledger), id);
  }

  lemma CancelRetains(l: Ledger, r: Id, reason: Reason, sequence: Generation)
    requires Holds(l, l.limits, r, NewRequest(r, 0), []) && l.limits.maxRetained > 0
    ensures var out := LedgerModel.CancelRequest(l, r, reason, sequence, 0);
      out.result.Success? && r in out.ledger.requests
  {
    AfterEnd(l, r, CancelledRecord(l.requests[r], reason, sequence, 0),
             l.account.(cancelled := l.account.cancelled + 1));
  }

  lemma FitsUnderCeiling(s: Fabric, declared: nat)
    requires s.policy == SmallPolicy() && s.book.bulk + declared <= 10
    ensures !BulkExhausted(s, KvTransfer, declared)
  {
    assert AddWrap(s.book.bulk, declared) == s.book.bulk + declared;
  }

  /** Register a request, give it a transfer, cancel it, open a flow for the transfer: the cancellation is undone. */
  lemma CancellationCanBeUndone(s: Fabric, r: Id, t: Id, reason: Reason, tag: bv64)
    requires Opening(s) && !r.IsNil() && !t.IsNil()
    ensures var s1 := C.RegisterRequest(s, r, 0).fabric;
      var s2 := RegisterTransfer(s1, Order(t, r, 6)).fabric;
      var out := C.CancelRequest(s2, r, reason, 0);
      && out.result.Success? && Dead(out.fabric, r)
      && !Dead(C.OpenFlow(out.fabric, Kindless(out.fabric, t), 6, 0, tag).fabric, r)
  {
    RequestOpens(s, r);
    var s1 := C.RegisterRequest(s, r, 0).fabric;
    Ordered(s1, t, r, 6);
    RegisterTransferCoheres(s1, Order(t, r, 6));
    var s2 := RegisterTransfer(s1, Order(t, r, 6)).fabric;
    CancelRetains(s2.ledger, r, reason, s2.sequence + 1);
    CancelQuiet(s2, r, reason, 0);
    CancelThenRevive(s2, r, t, reason, 0, 6, 0, tag);
  }

  // ---------------------------------------------------------------------------------------------
  // The self-check asks for more than coherence
  // ---------------------------------------------------------------------------------------------

  function Finished(r: Id, a: Id): Publication { Publication(r, a, 0, true, UNKNOWN, 0, 0) }

  lemma CompleteAlone(l: Ledger, r: Id, a: Id)
    requires Holds(l, l.limits, r, Bind(NewRequest(r, 0), NewAttempt(a, 1, 0, 0, 0, 0)), [])
    requires l.limits.maxRetained > 0 && !r.IsNil() && !a.IsNil()
    ensures var out := LedgerModel.PublishCompletion(l, Finished(r, a), 0);
      && out.result.Success? && out.result.value.disposition.Committed?
      && out.ledger.requests.Keys == {r} && out.ledger.requests[r].lifecycle.Completed?
  {
    var q := l.requests[r];
    assert Find(q.attempts, a) == 0;
    AfterEnd(l, r, CommittedRecord(q, 0, Finished(r, a), 0), CommitAccount(l.account, true));
  }

  /** The request has completed and nothing is left open. */
  lemma Completes(s: Fabric, r: Id, a: Id)
    requires Opening(s) && !r.IsNil() && !a.IsNil()
    ensures var s1 := C.RegisterRequest(s, r, 0).fabric;
      var s2 := C.RegisterAttempt(s1, r, a, 0, 0).fabric;
      var s3 := C.PublishCompletion(s2, Finished(r, a), 0).fabric;
      && Coherent(s3) && Standard(s3) && s3.transfers == map[] && s3.book == EMPTY_BOOK
      && r in s3.ledger.requests && s3.ledger.requests[r].lifecycle.Completed?
  {
    RequestOpens(s, r);
    var s1 := C.RegisterRequest(s, r, 0).fabric;
    AttemptCoheres(s1, r, a, 0, 0);
    AfterBind(s1.ledger, r, NewRequest(r, 0), a);
    var s2 := C.RegisterAttempt(s1, r, a, 0, 0).fabric;
    assert s2 == s1.(ledger := s2.ledger);
    CompletesBound(s2, r, a);
  }

  lemma CompletesBound(s: Fabric, r: Id, a: Id)
    requires Coherent(s) && Standard(s) && s.transfers == map[] && s.book == EMPTY_BOOK
    requires Holds(s.ledger, s.ledger.limits, r, Bind(NewRequest(r, 0), NewAttempt(a, 1, 0, 0, 0, 0)), [])
    requires s.ledger.limits.maxRetained > 0 && !r.IsNil() && !a.IsNil()
    ensures var s' := C.PublishCompletion(s, Finished(r, a), 0).fabric;
      && Coherent(s') && Standard(s') && s'.transfers == map[] && s'.book == EMPTY_BOOK
      && r in s'.ledger.requests && s'.ledger.requests[r].lifecycle.Completed?
  {
    CompleteAlone(s.ledger, r, a);
    PublishCoheres(s, Finished(r, a), 0);
    IdleRelease(s.(ledger := LedgerModel.PublishCompletion(s.ledger, Finished(r, a), 0).ledger), r);
  }

  /** A transfer is taken on and authorized for a request that has completed; the self-check then fails. */
  lemma CompletedOwnerFailsCheck(s: Fabric, r: Id, a: Id, t: Id, choice: Key, tag: bv64)
    requires Opening(s) && !r.IsNil() && !a.IsNil() && !t.IsNil()
    ensures var s1 := C.RegisterRequest(s, r, 0).fabric;
      var s2 := C.RegisterAttempt(s1, r, a, 0, 0).fabric;
      var s3 := C.PublishCompletion(s2, Finished(r, a), 0).fabric;
      var s4 := RegisterTransfer(s3, Order(t, r, 6)).fabric;
      var s5 := AuthorizeTransfer(s4, Ask(t), 0, choice, tag).fabric;
      Coherent(s5) && !InvariantsHold(s5)
  {
    Completes(s, r, a);
    var s1 := C.RegisterRequest(s, r, 0).fabric;
    var s2 := C.RegisterAttempt(s1, r, a, 0, 0).fabric;
    ShipsForEnded(C.PublishCompletion(s2, Finished(r, a), 0).fabric, r, t, choice, tag);
  }

  lemma ShipsForEnded(s: Fabric, r: Id, t: Id, choice: Key, tag: bv64)
    requires Coherent(s) && Standard(s) && s.transfers == map[] && s.book == EMPTY_BOOK
    requires r in s.ledger.requests && s.ledger.requests[r].lifecycle.Completed? && !r.IsNil() && !t.IsNil()
    ensures var s' := RegisterTransfer(s, Order(t, r, 6)).fabric;
      var s'' := AuthorizeTransfer(s', Ask(t), 0, choice, tag).fabric;
      Coherent(s'') && !InvariantsHold(s'')
  {
    Ordered(s, t, r, 6);
    RegisterTransferCoheres(s, Order(t, r, 6));
    var s' := RegisterTransfer(s, Order(t, r, 6)).fabric;
    FirstAuthorization(s', t, r, 6, 0, 0, choice, tag);
    AuthorizeCoheres(s', Ask(t), 0, choice, tag);
    var s'' := AuthorizeTransfer(s', Ask(t), 0, choice, tag).fabric;
    assert FlowId(s'.book.nextFlow + 1, tag) in s''.book.flows;
  }

  /** Two transfers fit the bulk ceiling, but not the flow ceiling that the self-check holds them to. */
  lemma TransferFlowsFailCheck(s: Fabric, t: Id, u: Id, choice: Key, tag: bv64, choice': Key, tag': bv64)
    requires Opening(s) && s.config.ledger.maxFlowsTotal == 1 && !t.IsNil() && !u.IsNil() && t != u
    ensures var s1 := RegisterTransfer(s, Order(t, NIL, 4)).fabric;
      var s2 := RegisterTransfer(s1, Order(u, NIL, 4)).fabric;
      var s3 := AuthorizeTransfer(s2, Ask(t), 0, choice, tag).fabric;
      var s4 := AuthorizeTransfer(s3, Ask(u), 0, choice', tag').fabric;
      Coherent(s4) && !InvariantsHold(s4)
  {
    Ordered(s, t, NIL, 4);
    RegisterTransferCoheres(s, Order(t, NIL, 4));
    var s1 := RegisterTransfer(s, Order(t, NIL, 4)).fabric;
    assert |s1.transfers| == |s1.transfers.Keys| == 1 by { assert s1.transfers.Keys == {t}; }
    Ordered(s1, u, NIL, 4);
    RegisterTransferCoheres(s1, Order(u, NIL, 4));
    BothShip(RegisterTransfer(s1, Order(u, NIL, 4)).fabric, t, u, choice, tag, choice', tag');
  }

  lemma BothShip(s: Fabric, t: Id, u: Id, choice: Key, tag: bv64, choice': Key, tag': bv64)
    requires Coherent(s) && s.config.ledger.maxFlowsTotal == 1 && !t.IsNil() && !u.IsNil() && t != u
    requires s.book == EMPTY_BOOK
    requires Prepared(s, t, Shipment(NIL, 4, TransferRegistered, NO_FLOW), 0)
    requires Prepared(s, u, Shipment(NIL, 4, TransferRegistered, NO_FLOW), 0)
    ensures var s1 := AuthorizeTransfer(s, Ask(t), 0, choice, tag).fabric;
      var s2 := AuthorizeTransfer(s1, Ask(u), 0, choice', tag').fabric;
      Coherent(s2) && !InvariantsHold(s2)
  {
    FirstShips(s, t, u, choice, tag);
    SecondShips(AuthorizeTransfer(s, Ask(t), 0, choice, tag).fabric, u, FlowId(1, tag), choice', tag');
  }

  lemma FirstShips(s: Fabric, t: Id, u: Id, choice: Key, tag: bv64)
    requires Coherent(s) && !t.IsNil() && !u.IsNil() && t != u && s.book == EMPTY_BOOK
    requires Prepared(s, t, Shipment(NIL, 4, TransferRegistered, NO_FLOW), 0)
    requires Prepared(s, u, Shipment(NIL, 4, TransferRegistered, NO_FLOW), 0)
    ensures var s' := AuthorizeTransfer(s, Ask(t), 0, choice, tag).fabric;
      && Coherent(s') && s'.config == s.config && s'.book.nextFlow == 1
      && s'.book.flows.Keys == {FlowId(1, tag)}
      && Prepared(s', u, Shipment(NIL, 4, TransferRegistered, NO_FLOW), 4)
  {
    FirstAuthorization(s, t, NIL, 4, 0, 0, choice, tag);
    AuthorizeCoheres(s, Ask(t), 0, choice, tag);
  }

  lemma SecondShips(s: Fabric, u: Id, f: FlowId, choice: Key, tag: bv64)
    requires Coherent(s) && s.config.ledger.maxFlowsTotal == 1 && !u.IsNil()
    requires Prepared(s, u, Shipment(NIL, 4, TransferRegistered, NO_FLOW), 4)
    requires s.book.flows.Keys == {f} && f.sequence != s.book.nextFlow + 1
    ensures var s' := AuthorizeTransfer(s, Ask(u), 0, choice, tag).fabric; Coherent(s') && !InvariantsHold(s')
  {
    var g := FlowId(s.book.nextFlow + 1, tag);
    assert g != f;
    FirstAuthorization(s, u, NIL, 4, 4, 0, choice, tag);
    AuthorizeCoheres(s, Ask(u), 0, choice, tag);
    var s' := AuthorizeTransfer(s, Ask(u), 0, choice, tag).fabric;
    TwoAreTooMany(s', f, g);
  }

  lemma TwoAreTooMany(s: Fabric, f: FlowId, g: FlowId)
    requires s.book.flows.Keys == {f, g} && f != g && s.config.ledger.maxFlowsTotal == 1
    ensures !InvariantsHold(s)
  {
    assert |s.book.flows| == |s.book.flows.Keys| == 2;
  }
}
