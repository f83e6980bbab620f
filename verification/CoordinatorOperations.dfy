/**
 * What each call on the evidence, the registries and the transfer list demands and what it leaves
 * (src/coordinator.cpp), without the order in which the code asks.
 */
module CoordinatorOperations {
  import opened Ids
  import opened Traffic
  import opened Reasons
  import opened Policies
  import opened LedgerModel
  import opened LedgerOperations
  import opened Deferral
  import opened CoordinatorModel
  import C = CoordinatorModel
  import opened Evaluation
  import opened EvaluationProofs
  import opened CoordinatorRuns
  import opened CoordinatorCoherence
  import opened CoordinatorInvariant

  // ---------------------------------------------------------------------------------------------
  // Generation registries
  // ---------------------------------------------------------------------------------------------

  /** The next generation may be set: the first of a new entry, or the successor of a confirmed one. */
  predicate MaySet(m: map<Word64, Registration>, limit: nat, h: Word64, expected: Option<Generation>) {
    && h != 0
    && (h !in m ==> expected.None? && |m| < limit)
    && (h in m ==> !m[h].requiresRevalidation && Agrees(expected, m[h].generation))
  }

  /** The entry has its successor generation, confirmed; every other entry stands. */
  predicate SetOnce(m: map<Word64, Registration>, m': map<Word64, Registration>, h: Word64, g: Generation) {
    && m'.Keys == m.Keys + {h} && (forall k | k in m && k != h :: m'[k] == m[k])
    && m'[h] == Registration(g, false) && g == if h in m then m[h].generation + 1 else 1
  }

  lemma NextGenerationExactly(m: map<Word64, Registration>, limit: nat, h: Word64, expected: Option<Generation>)
    ensures var g := AdvanceGeneration(m, limit, h, expected);
      && (g.Success? <==> MaySet(m, limit, h, expected))
      && (g.Success? ==> SetOnce(m, m[h := Registration(g.value, false)], h, g.value))
      && (h != 0 && h in m && !m[h].requiresRevalidation && !Agrees(expected, m[h].generation) ==>
            g == Failure(Conflict))
  {
  }

  /** Compare and set: with the wrong expectation nothing changes, with the right one the number rises by one. */
  lemma SetModelExactly(s: Fabric, h: Word64, expected: Option<Generation>)
    ensures var out := SetModelGeneration(s, h, expected);
      && (out.result.Success? <==> MaySet(s.models, s.config.maxModels, h, expected))
      && (out.result.Failure? ==> out.fabric == s)
      && (out.result.Success? ==>
            out.fabric == s.(models := out.fabric.models) && SetOnce(s.models, out.fabric.models, h, out.result.value))
      && (h != 0 && h in s.models && !s.models[h].requiresRevalidation && !Agrees(expected, s.models[h].generation) ==>
            out.result == Failure(Conflict))
  {
    NextGenerationExactly(s.models, s.config.maxModels, h, expected);
  }

  lemma SetStateExactly(s: Fabric, h: Word64, expected: Option<Generation>)
    ensures var out := AdvanceStateGeneration(s, h, expected);
      && (out.result.Success? <==> MaySet(s.states, s.config.maxStates, h, expected))
      && (out.result.Failure? ==> out.fabric == s)
      && (out.result.Success? ==>
            out.fabric == s.(states := out.fabric.states) && SetOnce(s.states, out.fabric.states, h, out.result.value))
      && (h != 0 && h in s.states && !s.states[h].requiresRevalidation && !Agrees(expected, s.states[h].generation) ==>
            out.result == Failure(Conflict))
  {
    NextGenerationExactly(s.states, s.config.maxStates, h, expected);
  }

  /** Confirmation keeps the number, and is all that makes a withheld entry usable. */
  lemma ConfirmExactly(s: Fabric, h: Word64)
    ensures var m, n := RevalidateModel(s, h), RevalidateState(s, h);
      && (m.result.Success? <==> h in s.models) && (n.result.Success? <==> h in s.states)
      && m.fabric == s.(models := m.fabric.models) && n.fabric == s.(states := n.fabric.states)
      && (h in s.models ==> m.result.value == s.models[h].generation
                            && m.fabric.models == s.models[h := Registration(s.models[h].generation, false)])
      && (h in s.states ==> n.result.value == s.states[h].generation
                            && n.fabric.states == s.states[h := Registration(s.states[h].generation, false)])
      && (h !in s.models ==> m.fabric == s) && (h !in s.states ==> n.fabric == s)
  {
  }

  // ---------------------------------------------------------------------------------------------
  // Evidence
  // ---------------------------------------------------------------------------------------------

  lemma PolicyExactly(s: Fabric, p: Policy)
    ensures var out := ApplyPolicy(s, p);
      && (out.result.Success? <==> PolicyValid(p)) && (out.result.Failure? ==> out.fabric == s)
      && (out.result.Success? ==>
            && out.fabric == s.(policy := out.fabric.policy) && out.fabric.policy.generation == p.generation + 1
            && out.fabric.policy.(generation := p.generation) == p)
  {
  }

  /** Published evidence is what the caller gave, numbered next, stamped with the time and this incarnation. */
  lemma TopologyExactly(s: Fabric, t: Topology, now: int)
    requires !s.incarnation.IsNil()
    ensures var out := PublishTopology(s, t, now);
      && (out.result.Success? <==> TopologyValid(t)) && (out.result.Failure? ==> out.fabric == s)
      && (out.result.Success? ==>
            && out.fabric == s.(topology := out.fabric.topology) && out.fabric.topology.Some?
            && var t' := out.fabric.topology.value;
               && t'.generation == out.result.value
               && out.result.value == (if s.topology.Some? then s.topology.value.generation + 1 else 1)
               && t'.boot == s.incarnation && t'.observedAt == now
               && t'.maxAge == (if t.maxAge == 0 then s.config.defaultMaxAge else t.maxAge)
               && t'.(generation := t.generation, boot := t.boot, observedAt := t.observedAt, maxAge := t.maxAge) == t
               && Fresh(out.fabric, now))
  {
  }

  lemma ContractExactly(s: Fabric, id: Id, tail: Word64, deadline: nat, share: nat)
    ensures var out := RegisterSlo(s, id, tail, deadline, share);
      && (out.result.Success? <==>
            !id.IsNil() && id in s.ledger.requests && tail > 0 && (id in s.slo || |s.slo| < s.config.maxSlo))
      && (out.result.Failure? ==> out.fabric == s)
      && (out.result.Success? ==>
            && out.fabric == s.(slo := out.fabric.slo)
            && out.result.value == (if id in s.slo then s.slo[id].generation + 1 else 1)
            && id in out.fabric.slo && out.fabric.slo == s.slo[id := out.fabric.slo[id]]
            && var c := out.fabric.slo[id];
               && c.generation == out.result.value && c.tailBudget == tail && c.registrationDeadline == deadline
               && c.share <= 1000 && c.share <= share && c.share in {share, 1000})
  {
  }

  lemma RouteExactly(s: Fabric, id: Id, a: Id)
    ensures var out := IssueRoute(s, id, a);
      && (out.result.Success? <==>
            && !id.IsNil() && !a.IsNil() && id in s.ledger.requests && Find(s.ledger.requests[id].attempts, a) >= 0
            && (a in s.routes || |s.routes| < s.config.maxRoutes))
      && (out.result.Failure? ==> out.fabric == s)
      && (out.result.Success? ==>
            && out.result.value == (if a in s.routes then s.routes[a] + 1 else 1)
            && out.fabric == s.(routes := s.routes[a := out.result.value]))
  {
  }

  // ---------------------------------------------------------------------------------------------
  // Transfers
  // ---------------------------------------------------------------------------------------------

  predicate MayRegister(s: Fabric, x: TransferSpec) {
    && !x.id.IsNil() && TransferClass(x.declaredClass) && x.payloadBytes <= s.config.maxPayload
    && x.id !in s.transfers && |s.transfers| < s.config.maxTransfers
    && x.modelHash in s.models && !s.models[x.modelHash].requiresRevalidation
    && x.stateHash in s.states && !s.states[x.stateHash].requiresRevalidation
    && !(!x.request.IsNil() && x.request in s.ledger.requests && s.ledger.requests[x.request].lifecycle.Cancelled?)
  }

  /** The transfer is what the caller asked for, nothing of it has moved, and it is bound to what is current. */
  predicate AsAsked(s: Fabric, x: TransferSpec) {
    && x.id in s.transfers
    && var t := s.transfers[x.id];
       && t.state.TransferRegistered? && t.flow.IsNil() && t.verifiedBytes == 0 && t.reason == UNKNOWN
       && t.stateHash == x.stateHash && t.modelHash == x.modelHash && t.payloadBytes == x.payloadBytes
       && t.request == x.request && t.attempt == x.attempt
       && t.declaredClass == x.declaredClass && t.integrity == x.integrity
       && Confirmed(s.models, t.modelHash, t.modelGeneration) && Confirmed(s.states, t.stateHash, t.stateGeneration)
  }

  lemma RegistrationExactly(s: Fabric, x: TransferSpec)
    ensures var out := RegisterTransfer(s, x);
      && (out.result.Success? <==> MayRegister(s, x)) && (out.result.Failure? ==> out.fabric == s)
      && (out.result.Success? ==>
            && out.result.value == x.id && AsAsked(out.fabric, x)
            && out.fabric == s.(transfers := out.fabric.transfers, owned := out.fabric.owned)
            && out.fabric.transfers == s.transfers[x.id := out.fabric.transfers[x.id]]
            && out.fabric.owned == if x.request.IsNil() then s.owned else s.owned + {(x.request, x.id)})
  {
  }

  /** A question about the transfer that binds nothing. */
  predicate AsksUnbound(q: TrafficRequest, t: Id) {
    && q.subject == Some(Moving(t)) && q.StructurallyValid()
    && q.binding == Binding(None, None, None, None, None, None, None, None)
  }

  /** Right after it was registered, no fence about the transfer itself is down. */
  lemma RegisteredMeetsFences(s: Fabric, x: TransferSpec, q: TrafficRequest)
    requires RegisterTransfer(s, x).result.Success? && AsksUnbound(q, x.id)
    ensures SubjectFenced(RegisterTransfer(s, x).fabric, q)
  {
    RegistrationExactly(s, x);
  }

  // ---------------------------------------------------------------------------------------------
  // Attempts
  // ---------------------------------------------------------------------------------------------

  /** Binding an attempt to a model takes the model's confirmed generation, or fails. */
  lemma AttemptBindsModel(s: Fabric, id: Id, a: Id, h: Word64, now: int)
    requires C.RegisterAttempt(s, id, a, h, now).result.Success?
    ensures var s' := C.RegisterAttempt(s, id, a, h, now).fabric;
      && s' == s.(ledger := s'.ledger) && id in s'.ledger.requests
      && var r := s'.ledger.requests[id];
         && r.attempts != [] && r.IsCurrent(a)
         && var x := r.attempts[|r.attempts| - 1];
            && x.id == a && x.modelHash == h
            && (h != 0 ==> Confirmed(s.models, h, x.modelGeneration)) && (h == 0 ==> x.modelGeneration == 0)
  {
    var model := if h == 0 then Success(0) else RequireGeneration(s.models, h);
    BindExactly(s.ledger, id, a, h, model.value, 0, now);
  }

  /** After a replacement, a question bound to the earlier generation of the request is refused. */
  lemma ReplacementFencesGeneration(s: Fabric, id: Id, a: Id, b: Id, h: Word64, now: int, q: TrafficRequest, later: int,
                                    choice: Key)
    requires Coherent(s) && id in s.ledger.requests && ReplaceAttempt(s, id, a, b, h, now).result.Success?
    requires q.subject.Some? && q.subject.value.Serving? && q.subject.value.request == id
    requires q.binding.request.Some? && q.binding.request.value <= s.ledger.requests[id].generation
    ensures var s' := ReplaceAttempt(s, id, a, b, h, now).fabric;
      Coherent(s') && Evaluate(s', q, later, choice).1.verdict.Rejected?
  {
    ReplaceCoheres(s, id, a, b, h, now);
    ReplacedGeneration(s, id, a, b, h, now);
    GateMeaning(ReplaceAttempt(s, id, a, b, h, now).fabric, q, later);
  }

  /** The request has moved on by one generation; the replacement is current, on the model named. */
  lemma ReplacedGeneration(s: Fabric, id: Id, a: Id, b: Id, h: Word64, now: int)
    requires Coherent(s) && id in s.ledger.requests && ReplaceAttempt(s, id, a, b, h, now).result.Success?
    ensures var s' := ReplaceAttempt(s, id, a, b, h, now).fabric;
      && id in s'.ledger.requests && s'.ledger.requests[id].generation == s.ledger.requests[id].generation + 1
      && s'.ledger.requests[id].IsCurrent(b) && s'.routes == s.routes - {a}
      && var i := Find(s'.ledger.requests[id].attempts, b);
         && i >= 0
         && var x := s'.ledger.requests[id].attempts[i];
            && x.modelHash == h
            && (h != 0 ==> Confirmed(s.models, h, x.modelGeneration)) && (h == 0 ==> x.modelGeneration == 0)
  {
    ReplaceReleases(s, id, a, b, now);
    var s2 := ReleaseRequest(s.(ledger := SupersedeAttempt(s.ledger, id, a, b, now).ledger), id);
    var model := if h == 0 then Success(0) else RequireGeneration(s.models, h);
    RemodelExactly(s2.ledger, id, b, h, model.value);
    FindStays(s2.ledger.requests[id].attempts, b, h, model.value);
  }

  lemma FindStays(attempts: seq<Attempt>, b: Id, h: Word64, g: Generation)
    requires Find(attempts, b) >= 0
    ensures var i := Find(attempts, b);
      Find(attempts[i := attempts[i].(modelHash := h, modelGeneration := g)], b) == i
  {
    var i := Find(attempts, b);
    var after := attempts[i := attempts[i].(modelHash := h, modelGeneration := g)];
    assert after[i].id == b;
    assert forall j | 0 <= j < i :: after[j].id == attempts[j].id;
  }

  lemma ReplaceReleases(s: Fabric, id: Id, a: Id, b: Id, now: int)
    requires Coherent(s) && id in s.ledger.requests && SupersedeAttempt(s.ledger, id, a, b, now).result.Success?
    ensures var s2 := ReleaseRequest(s.(ledger := SupersedeAttempt(s.ledger, id, a, b, now).ledger), id);
      && s2.routes == s.routes && id in s2.ledger.requests
      && var r := s2.ledger.requests[id];
         && r.generation == s.ledger.requests[id].generation + 1 && r.IsCurrent(b) && Find(r.attempts, b) >= 0
  {
    ReplaceExactly(s.ledger, id, a, b, now);
    LedgerView(s);
    var op := OpSupersede(id, a, b, now);
    var l := SupersedeAttempt(s.ledger, id, a, b, now).ledger;
    LedgerStep(s.ledger, op);
    KnownIsNotNil(s.ledger, id);
    EndingCoheres(s, s.(ledger := l), id);
    assert At(id);
    var attempts := l.requests[id].attempts;
    assert attempts[|attempts| - 1].id == b;
  }
}
