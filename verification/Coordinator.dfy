/**
 * The coordinator as the source keeps it: one object that owns a ledger and updates its tables in place.
 * Every operation is proved to compute the function of the same name on whole states.
 */
module Coordinators {
  import opened Ids
  import opened Traffic
  import opened Reasons
  import opened Policies
  import opened LedgerModel
  import opened RequestLedgers
  import opened Mixing
  import opened Deferral
  import opened CoordinatorModel
  import opened Evaluation
  import opened CoordinatorRuns
  import opened ReleaseOrder
  import opened Restart
  import opened CoordinatorCoherence
  import opened CoordinatorChecks
  import C = CoordinatorModel
  import R = CoordinatorRuns
  import B = Restart

  class Coordinator {
    const config: Config
    const ledger: RequestLedger
    var epoch: Generation
    var incarnation: Id
    var sequence: Generation
    var bootCount: nat
    var policy: Policy
    var topology: Option<Topology>
    var models: map<Word64, Registration>
    var states: map<Word64, Registration>
    var slo: map<Id, Slo>
    var routes: map<Id, Generation>
    var transfers: map<Id, Transfer>
    var owned: set<(Id, Id)>
    var flows: map<FlowId, Flow>
    var byRequest: set<(Id, FlowId)>
    var byTransfer: set<(Id, FlowId)>
    var bulk: nat
    var nextFlow: nat
    var defers: map<Key, DeferRecord>
    var streaming: nat
    var started: nat
    var finished: nat
    var refused: nat

    function FlowBook(): Book
      reads this
    {
      Book(flows, byRequest, byTransfer, bulk, nextFlow)
    }

    function DeferTable(): Table
      reads this
    {
      Table(config.hash, config.maxDefers, defers, streaming)
    }

    function State(): Fabric
      reads this, ledger
    {
      Fabric(config, epoch, incarnation, sequence, bootCount, policy, topology, models, states, slo, routes,
             transfers, owned, FlowBook(), DeferTable(), ledger.State(), started, finished, refused)
    }

    constructor (config: Config)
      ensures State() == Unbooted(config) && fresh(ledger)
    {
      this.config := config;
      ledger := new RequestLedger(config.ledger);
      epoch, incarnation, sequence, bootCount := 0, NIL, 0, 0;
      policy := Numbered(config.policy);
      topology := None;
      models, states, slo, routes, transfers, owned := map[], map[], map[], map[], map[], {};
      flows, byRequest, byTransfer, bulk, nextFlow := map[], {}, {}, 0, 0;
      defers, streaming := map[], 0;
      started, finished, refused := 0, 0, 0;
    }

    // -------------------------------------------------------------------------------------------
    // Releasing flows
    // -------------------------------------------------------------------------------------------

    /** The index loops of the source stop at the first matching entry; an entry is there at most once. */
    method UnfileFlow(f: FlowId)
      requires f in flows
      modifies this`flows, this`bulk, this`byRequest, this`byTransfer
      ensures FlowBook() == DropFlow(old(FlowBook()), f)
    {
      var flow := flows[f];
      if flow.bulk {
        if bulk >= flow.declaredBytes { bulk := bulk - flow.declaredBytes; } else { bulk := 0; }
      }
      flows := flows - {f};
      match flow.owner {
        case OfRequest(id, _) => byRequest := byRequest - {(id, f)};
        case OfTransfer(t) => byTransfer := byTransfer - {(t, f)};
      }
    }

    method ReleaseFlowLocked(f: FlowId)
      requires f in flows
      modifies this, ledger
      ensures State() == ReleaseOne(old(State()), f)
    {
      var owner := flows[f].owner;
      UnfileFlow(f);
      ghost var s1 := State();
      assert s1 == old(State()).(book := FlowBook());
      if owner.OfRequest? {
        var ignored := ledger.ReleaseFlow(f);
        assert State() == s1.(ledger := ledger.State());
      } else {
        var t := owner.transfer;
        if t in transfers && transfers[t].flow == f {
          transfers := transfers[t := transfers[t].(flow := NO_FLOW)];
        }
      }
    }

    /** Releases each flow that is still there, in the order the set yields them. */
    method ReleaseVictims(victims: set<FlowId>)
      modifies this, ledger
      ensures State() == ReleaseAll(old(State()), victims)
    {
      var left := victims;
      while left != {}
        invariant ReleaseAll(State(), left) == ReleaseAll(old(State()), victims)
        decreases left
      {
        var f :| f in left;
        ReleaseOrderFree(State(), left, f);
        if f in flows { ReleaseFlowLocked(f); }
        left := left - {f};
      }
    }

    /** Ends every transfer the request owns, one after another. */
    method AbandonOwnedTransfers(id: Id)
      modifies this`transfers
      ensures transfers == AbandonOwned(old(State()), id)
    {
      var left := set p | p in owned && p.0 == id :: p.1;
      ghost var all := left;
      while left != {}
        invariant left <= all && all == OwnedBy(old(State()), id)
        invariant transfers == Abandoning(old(transfers), all - left)
        decreases left
      {
        var t :| t in left;
        AbandonOneMore(old(transfers), all - left, t);
        if t in transfers && !TransferEnded(transfers[t].state) {
          transfers := transfers[t := transfers[t].(state := Abandoned, reason := REJECTED_REQUEST_TERMINAL)];
        }
        assert all - (left - {t}) == (all - left) + {t};
        left := left - {t};
      }
      assert all - left == all;
    }

    method ReleaseRequestFlows(id: Id)
      modifies this, ledger
      ensures State() == ReleaseRequest(old(State()), id)
    {
      if id.IsNil() { return; }
      var serving := set p | p in byRequest && p.0 == id :: p.1;
      var moving := set t | t in (set p | p in owned && p.0 == id :: p.1) && t in transfers
                            && !transfers[t].flow.IsNil() :: transfers[t].flow;
      assert serving == ServingVictims(State(), id) && moving == TransferVictims(State(), id);
      AbandonOwnedTransfers(id);
      ReleaseVictims(serving + moving);
    }

    method ReleaseTransferFlows(t: Id)
      modifies this, ledger
      ensures State() == ReleaseTransfer(old(State()), t)
    {
      if t.IsNil() { return; }
      ReleaseVictims(set p | p in byTransfer && p.0 == t :: p.1);
    }

    method ReleaseFlow(f: FlowId) returns (result: Result<()>)
      modifies this, ledger
      ensures Effect(State(), result) == C.ReleaseFlow(old(State()), f)
    {
      if f !in flows { return Failure(NotFound); }
      ReleaseFlowLocked(f);
      return Success(());
    }

    method RecordFlowBytes(f: FlowId, bytes: nat, inbound: bool) returns (result: Result<()>)
      modifies this, ledger
      ensures Effect(State(), result) == C.RecordFlowBytes(old(State()), f, bytes, inbound)
    {
      if f !in flows { return Failure(NotFound); }
      if flows[f].observedBytes + bytes >= TWO_64 { return Failure(BoundsExceeded); }
      flows := flows[f := flows[f].(observedBytes := flows[f].observedBytes + bytes)];
      if flows[f].owner.OfRequest? {
        result := ledger.RecordFlowBytes(f, bytes, inbound);
      } else {
        result := Success(());
      }
    }

    // -------------------------------------------------------------------------------------------
    // The deferral table
    // -------------------------------------------------------------------------------------------

    method DropDefer(key: Key)
      requires key in defers
      modifies this`defers, this`streaming
      ensures DeferTable() == Drop(old(DeferTable()), key)
    {
      if defers[key].protected && streaming > 0 { streaming := streaming - 1; }
      defers := defers - {key};
    }

    /** Retires whichever record the table yields first. */
    method EvictDefer() returns (ghost choice: Key)
      modifies this`defers, this`streaming
      ensures DeferTable() == EvictOne(old(DeferTable()), choice)
    {
      if defers == map[] {
        choice := Key(0);
      } else {
        assert exists key :: key in defers;
        var key :| key in defers;
        choice := key;
        DropDefer(key);
      }
    }

    method NoteDefer(p: Party, c: TrafficClass, now: int) returns (count: nat, ghost choice: Key)
      modifies this`defers, this`streaming
      ensures DeferTable() == Note(old(DeferTable()), p, c, RuleOf(policy, c).starvationProtected, now, choice)
      ensures config.hash(p, c) in defers && count == defers[config.hash(p, c)].count
    {
      var protected := RuleOf(policy, c).starvationProtected;
      var key := config.hash(p, c);
      choice := Key(0);
      if key in defers && defers[key].party != p { DropDefer(key); }
      if key !in defers {
        if |defers| >= config.maxDefers { choice := EvictDefer(); }
        defers := defers[key := DeferRecord(p, c, 1, now, now, protected)];
        if protected { streaming := streaming + 1; }
        count := 1;
      } else {
        defers := defers[key := defers[key].(count := defers[key].count + 1, last := now)];
        count := defers[key].count;
      }
    }

    method ClearDefer(p: Party, c: TrafficClass)
      modifies this`defers, this`streaming
      ensures DeferTable() == Clear(old(DeferTable()), p, c)
    {
      var key := config.hash(p, c);
      if key !in defers { return; }
      if defers[key].party != p { return; }
      DropDefer(key);
    }

    // -------------------------------------------------------------------------------------------
    // Decisions
    // -------------------------------------------------------------------------------------------

    method MintStamp() returns (stamp: Stamp)
      modifies this`sequence
      ensures sequence == old(sequence) + 1
      ensures stamp == Stamp(epoch, incarnation, policy.generation, sequence)
    {
      sequence := sequence + 1;
      stamp := Stamp(epoch, incarnation, policy.generation, sequence);
    }

    /** Stamps a decision, and counts it on the request it is about. */
    method Build(q: TrafficRequest, v: Verdict, reason: Reason, treatment: Treatment, hint: nat)
      returns (d: Decision)
      modifies this`sequence, ledger
      ensures sequence == old(sequence) + 1 && ledger.State() == Counted(old(ledger.State()), SubjectOf(q), v)
      ensures d == Decision(v, reason, treatment, SubjectOf(q), q.binding,
                            Stamp(epoch, incarnation, policy.generation, old(sequence) + 1), hint)
    {
      var x := SubjectOf(q);
      var stamp := MintStamp();
      d := Decision(v, reason, treatment, x, q.binding, stamp, hint);
      if x.Serving? { var ignored := ledger.RecordDecision(x.request, x.attempt, v); }
    }

    method Evaluate(q: TrafficRequest, now: int) returns (d: Decision, ghost choice: Key)
      modifies this, ledger
      ensures (State(), d) == Evaluation.Evaluate(old(State()), q, now, choice)
    {
      var v, reason, treatment, hint;
      v, reason, treatment, hint, choice := Rule(q, now);
      d := Pronounce(q, v, reason, treatment, hint, old(State()));
    }

    method Pronounce(q: TrafficRequest, v: Verdict, reason: Reason, treatment: Treatment, hint: nat, ghost s: Fabric)
      returns (d: Decision)
      requires State() == s.(defers := DeferTable())
      modifies this`sequence, ledger
      ensures (State(), d) == Pronounced(s, q, Ruling(old(DeferTable()), v, reason, treatment, hint))
    {
      d := Build(q, v, reason, treatment, hint);
      assert State() == old(State()).(sequence := sequence, ledger := ledger.State());
    }

    method Rule(q: TrafficRequest, now: int)
      returns (v: Verdict, reason: Reason, treatment: Treatment, hint: nat, ghost choice: Key)
      modifies this`defers, this`streaming
      ensures State() == old(State()).(defers := DeferTable())
      ensures Ruling(DeferTable(), v, reason, treatment, hint) == Decide(old(State()), q, now, choice)
    {
      var gate := GateOf(State(), q, now);
      if gate.Stopped? {
        return Rejected, gate.reason, NO_TREATMENT, 0, Key(0);
      }
      v, reason, treatment, hint, choice := Weigh(q, gate.traffic, gate.degraded, now);
    }

    /** The pressure test, the starvation guard and the grant, for a request that passed every gate. */
    method Weigh(q: TrafficRequest, c: TrafficClass, degraded: Objection, now: int)
      returns (v: Verdict, reason: Reason, treatment: Treatment, hint: nat, ghost choice: Key)
      requires GateOf(State(), q, now) == Passed(c, degraded)
      modifies this`defers, this`streaming
      ensures Ruling(DeferTable(), v, reason, treatment, hint) == Decide(old(State()), q, now, choice)
    {
      choice, hint := Key(0), 0;
      treatment := Granted(State(), q, c, degraded);
      var pressure := Pressure(State(), q, c, now);
      if pressure.None? {
        ClearDefer(PartyOf(SubjectOf(q)), c);
        var final := FinalDegradation(q, RuleOf(policy, c), degraded);
        v := if final.Some? then Degraded else Allowed;
        reason := if final.Some? then final.value else ADMITTED;
        return;
      }
      var held := DeferredTreatment(State(), c, now, 0);
      var exhausted, count;
      exhausted, count, choice := Defer(SubjectOf(q), c, now);
      if exhausted {
        v, reason := Allowed, ADMITTED_STARVATION_GUARD;
      } else {
        v, reason, treatment, hint := Deferred, pressure.value, held.(deferCount := count), policy.deferHint;
      }
    }

    /** Counts one more deferral; an exhausted protection forgets them all. */
    method Defer(x: Subject, c: TrafficClass, now: int) returns (exhausted: bool, count: nat, ghost choice: Key)
      modifies this`defers, this`streaming
      ensures exhausted == Guarded(old(State()), x, c, now, choice)
      ensures count == NotedRecord(old(State()), x, c, now, choice).count
      ensures DeferTable() == if exhausted then Clear(Noted(old(State()), x, c, now, choice), PartyOf(x), c)
                              else Noted(old(State()), x, c, now, choice)
    {
      count, choice := NoteDefer(PartyOf(x), c, now);
      exhausted := Exhausted(RuleOf(policy, c), defers[config.hash(PartyOf(x), c)], now);
      if exhausted { ClearDefer(PartyOf(x), c); }
    }

    method ValidateDecision(d: Decision) returns (code: Status)
      ensures code == C.ValidateDecision(State(), d)
    {
      var a := d.authority;
      if a.epoch == 0 || a.incarnation.IsNil() { return StaleAuthority; }
      if a.epoch != epoch { return StaleEpoch; }
      if a.incarnation != incarnation { return StaleEpoch; }
      if a.policy != policy.generation { return StaleGeneration; }
      if a.sequence == 0 { return StaleAuthority; }
      if !d.Permits() { return Status.Refused; }
      match d.subject {
        case Serving(id, attempt, _) =>
          if id !in ledger.requests { return NotFound; }
          var r := ledger.requests[id];
          if r.lifecycle.Cancelled? { return Status.Cancelled; }
          if r.requiresRevalidation { return RevalidationRequired; }
          if r.IsTerminal() { return Conflict; }
          if !r.IsCurrent(attempt) { return StaleGeneration; }
          if r.authorityFloor != 0 && a.sequence <= r.authorityFloor { return StaleAuthority; }
        case Moving(t) =>
          if t !in transfers { return NotFound; }
          code := ValidateTransfer(transfers[t]);
          return;
        case Unkinded(_) =>
      }
      return Ok;
    }

    method ValidateTransfer(t: Transfer) returns (code: Status)
      ensures code == TransferFences(State(), t)
    {
      if TransferEnded(t.state) { return Conflict; }
      if t.modelHash != 0 {
        var model := RequireGeneration(models, t.modelHash);
        if model.Failure? { return model.code; }
        if model.value != t.modelGeneration { return StaleGeneration; }
      }
      var state := RequireGeneration(states, t.stateHash);
      if state.Failure? { return state.code; }
      if state.value != t.stateGeneration { return StaleGeneration; }
      return Ok;
    }

    method OpenFlow(d: Decision, declared: nat, now: int) returns (result: Result<FlowId>)
      modifies this, ledger
      ensures Effect(State(), result) == C.OpenFlow(old(State()), d, declared, now, TagFor(d))
    {
      result := OpenTaggedFlow(d, declared, now, TagFor(d));
    }

    method OpenTaggedFlow(d: Decision, declared: nat, now: int, tag: bv64) returns (result: Result<FlowId>)
      modifies this, ledger
      ensures Effect(State(), result) == C.OpenFlow(old(State()), d, declared, now, tag)
    {
      var code := ValidateDecision(d);
      if !code.Ok? { return Failure(code); }
      if declared > config.maxPayload { return Failure(BoundsExceeded); }
      var c := d.treatment.traffic;
      var isBulk := RuleOf(policy, c).yieldsToLatency;
      if isBulk && policy.bulkCap > 0 && AddWrap(bulk, declared) > policy.bulkCap {
        return Failure(CapacityExhausted);
      }
      if d.subject.Serving? {
        result := OpenServingFlow(d, declared, now, tag);
      } else {
        result := OpenMovingFlow(d, declared, tag);
      }
    }

    method FileOpened(f: FlowId, flow: Flow)
      modifies this`flows, this`byRequest, this`byTransfer, this`bulk
      ensures FlowBook() == FileFlow(old(FlowBook()), f, flow)
    {
      if f !in flows { flows := flows[f := flow]; }
      match flow.owner {
        case OfRequest(id, _) => byRequest := byRequest + {(id, f)};
        case OfTransfer(t) => byTransfer := byTransfer + {(t, f)};
      }
      if flow.bulk { bulk := AddWrap(bulk, flow.declaredBytes); }
    }

    method OpenServingFlow(d: Decision, declared: nat, now: int, tag: bv64) returns (result: Result<FlowId>)
      requires d.subject.Serving?
      modifies this, ledger
      ensures Effect(State(), result) == OpenServing(old(State()), d, declared, now, tag)
    {
      var x, c := d.subject, d.treatment.traffic;
      result := ledger.OpenTaggedFlow(x.request, x.attempt, c, declared, now, tag);
      if result.Failure? { return; }
      FileOpened(result.value, Flow(OfRequest(x.request, x.attempt), c, declared, 0, d.authority.sequence,
                                    RuleOf(policy, c).yieldsToLatency));
    }

    method NameMovingFlow(t: Id, flow: Flow, tag: bv64) returns (f: FlowId)
      requires t in transfers
      modifies this`nextFlow, this`transfers, this`flows, this`byRequest, this`byTransfer, this`bulk
      ensures f == FlowId(old(nextFlow) + 1, tag)
      ensures FlowBook() == FileFlow(old(FlowBook()).(nextFlow := old(nextFlow) + 1), f, flow)
      ensures transfers == old(transfers)[t := old(transfers)[t].(flow := f)]
    {
      nextFlow := nextFlow + 1;
      f := FlowId(nextFlow, tag);
      transfers := transfers[t := transfers[t].(flow := f)];
      assert FlowBook() == old(FlowBook()).(nextFlow := old(nextFlow) + 1);
      FileOpened(f, flow);
    }

    method FileMovingFlow(t: Id, flow: Flow, tag: bv64) returns (f: FlowId)
      requires t in transfers
      modifies this`nextFlow, this`transfers, this`flows, this`byRequest, this`byTransfer, this`bulk
      ensures f == FlowId(old(nextFlow) + 1, tag) && State() == Moved(old(State()), t, f, flow)
    {
      f := NameMovingFlow(t, flow, tag);
      assert State() == old(State()).(transfers := transfers, book := FlowBook());
    }

    method OpenMovingFlow(d: Decision, declared: nat, tag: bv64) returns (result: Result<FlowId>)
      requires !d.subject.Serving?
      modifies this`nextFlow, this`transfers, this`flows, this`byRequest, this`byTransfer, this`bulk
      ensures Effect(State(), result) == OpenMoving(old(State()), d, declared, tag)
    {
      var t, c := d.subject.transfer, d.treatment.traffic;
      if t !in transfers { return Failure(NotFound); }
      if !transfers[t].flow.IsNil() { return Success(transfers[t].flow); }
      var flow := Flow(OfTransfer(t), c, declared, 0, d.authority.sequence, RuleOf(policy, c).yieldsToLatency);
      var f := FileMovingFlow(t, flow, tag);
      return Success(f);
    }

    // -------------------------------------------------------------------------------------------
    // Transfers
    // -------------------------------------------------------------------------------------------

    method RegisterTransfer(r: TransferSpec) returns (result: Result<Id>)
      modifies this
      ensures Effect(State(), result) == R.RegisterTransfer(old(State()), r)
    {
      if r.id.IsNil() { return Failure(InvalidArgument); }
      if !TransferClass(r.declaredClass) { return Failure(InvalidArgument); }
      if r.payloadBytes > config.maxPayload { return Failure(BoundsExceeded); }
      if r.id in transfers { return Failure(AlreadyExists); }
      if |transfers| >= config.maxTransfers { return Failure(CapacityExhausted); }
      var model := RequireGeneration(models, r.modelHash);
      if model.Failure? { return Failure(model.code); }
      var state := RequireGeneration(states, r.stateHash);
      if state.Failure? { return Failure(state.code); }
      if !r.request.IsNil() && r.request in ledger.requests
         && ledger.requests[r.request].lifecycle.Cancelled? {
        return Failure(Status.Cancelled);
      }
      transfers := transfers[r.id := Transfer(
        r.stateHash, r.modelHash, r.payloadBytes, 0, model.value, state.value, r.request, r.attempt,
        r.declaredClass, r.integrity, TransferRegistered, UNKNOWN, NO_FLOW)];
      if !r.request.IsNil() { owned := owned + {(r.request, r.id)}; }
      return Success(r.id);
    }

    method Mark(t: Id, state: TransferState, reason: Reason)
      requires t in transfers
      modifies this`transfers
      ensures transfers == old(transfers)[t := old(transfers)[t].(state := state, reason := reason)]
    {
      transfers := transfers[t := transfers[t].(state := state, reason := reason)];
    }

    method Refuse(t: Id, reason: Reason)
      requires t in transfers
      modifies this, ledger
      ensures State() == RefuseTransfer(old(State()), t, reason)
    {
      Mark(t, TransferRefused, reason);
      assert State() == WithState(old(State()), t, TransferRefused, reason);
      ReleaseTransferFlows(t);
      refused := refused + 1;
      RefusedCount(WithState(old(State()), t, TransferRefused, reason), t);
    }

    method AuthorizeTransfer(q: TrafficRequest, now: int, tag: bv64)
      returns (result: Result<Authorization>, ghost choice: Key)
      modifies this, ledger
      ensures Effect(State(), result) == R.AuthorizeTransfer(old(State()), q, now, choice, tag)
    {
      choice := Key(0);
      if q.subject.None? || !q.subject.value.Moving? { return Failure(InvalidArgument), choice; }
      var t := q.subject.value.transfer;
      var d;
      d, choice := Evaluate(q, now);
      if !d.Permits() {
        if t in transfers { Refuse(t, d.reason); } else { refused := refused + 1; }
        result := Success(AuthorizationFor(t, d));
      } else if t !in transfers {
        result := Failure(NotFound);
      } else {
        result := OpenAuthorized(d, t, now, tag);
      }
    }

    method OpenAuthorized(d: Decision, t: Id, now: int, tag: bv64) returns (result: Result<Authorization>)
      requires t in transfers
      modifies this, ledger
      ensures var s := old(State());
        var out := C.OpenFlow(s, d, s.transfers[t].payloadBytes, now, tag);
        var a := AuthorizationFor(t, d);
        Effect(State(), result) ==
          if out.result.Failure?
          then Effect(WithState(s, t, TransferRefused, REJECTED_FLOW_LIMIT).(refused := s.refused + 1),
                      Success(a.(authorized := false, reason := REJECTED_FLOW_LIMIT)))
          else Authorise(out.fabric, t, out.result.value, a)
    {
      var a := AuthorizationFor(t, d);
      var opening := OpenTaggedFlow(d, transfers[t].payloadBytes, now, tag);
      FailedOpenStands(old(State()), d, old(State()).transfers[t].payloadBytes, now, tag);
      if opening.Failure? {
        Mark(t, TransferRefused, REJECTED_FLOW_LIMIT);
        refused := refused + 1;
        return Success(a.(authorized := false, reason := REJECTED_FLOW_LIMIT));
      }
      if t !in transfers { return Failure(NotFound); }
      transfers := transfers[t := transfers[t].(state := Authorized, flow := opening.value)];
      started := started + 1;
      return Success(a.(flow := opening.value));
    }

    method StartTransfer(t: Id, a: Authorization) returns (result: Result<()>)
      modifies this
      ensures Effect(State(), result) == R.StartTransfer(old(State()), t, a)
    {
      if t !in transfers { return Failure(NotFound); }
      if a.transfer != t { return Failure(InvalidArgument); }
      if !a.authorized { return Failure(NotAuthorized); }
      if transfers[t].state.InProgress? { return Success(()); }
      if !transfers[t].state.Authorized? { return Failure(Conflict); }
      transfers := transfers[t := transfers[t].(state := InProgress)];
      return Success(());
    }

    method CompleteTransfer(t: Id, verified: nat) returns (result: Result<()>)
      modifies this, ledger
      ensures Effect(State(), result) == R.CompleteTransfer(old(State()), t, verified)
    {
      if t !in transfers { return Failure(NotFound); }
      var r := transfers[t];
      if !r.state.Authorized? && !r.state.InProgress? { return Failure(Conflict); }
      if r.integrity.ChecksumAndVerify? && verified != r.payloadBytes {
        Refuse(t, REJECTED_INTEGRITY_UNAVAILABLE);
        return Failure(IntegrityMismatch);
      }
      if verified > r.payloadBytes {
        Refuse(t, REJECTED_INTEGRITY_UNAVAILABLE);
        return Failure(IntegrityMismatch);
      }
      transfers := transfers[t := r.(verifiedBytes := verified)];
      Finish(t);
      return Success(());
    }

    method Finish(t: Id)
      requires t in transfers
      modifies this, ledger
      ensures State() == ReleaseTransfer(WithState(old(State()), t, TransferCompleted, COMMITTED_COMPLETION), t)
                         .(finished := old(finished) + 1)
    {
      Mark(t, TransferCompleted, COMMITTED_COMPLETION);
      assert State() == WithState(old(State()), t, TransferCompleted, COMMITTED_COMPLETION);
      ReleaseTransferFlows(t);
      finished := finished + 1;
      RefusedCount(WithState(old(State()), t, TransferCompleted, COMMITTED_COMPLETION), t);
    }

    method AbandonTransfer(t: Id, reason: Reason) returns (result: Result<()>)
      modifies this, ledger
      ensures Effect(State(), result) == R.AbandonTransfer(old(State()), t, reason)
    {
      if t !in transfers { return Failure(NotFound); }
      if transfers[t].state.TransferCompleted? { return Failure(Conflict); }
      Mark(t, Abandoned, reason);
      assert State() == WithState(old(State()), t, Abandoned, reason);
      ReleaseTransferFlows(t);
      refused := refused + 1;
      RefusedCount(WithState(old(State()), t, Abandoned, reason), t);
      return Success(());
    }

    // -------------------------------------------------------------------------------------------
    // Registries, policy and evidence
    // -------------------------------------------------------------------------------------------

    method SetModelGeneration(h: Word64, expected: Option<Generation>) returns (result: Result<Generation>)
      modifies this
      ensures Effect(State(), result) == C.SetModelGeneration(old(State()), h, expected)
    {
      if h == 0 { return Failure(InvalidArgument); }
      var g := 1;
      if h !in models {
        if expected.Some? { return Failure(Conflict); }
        if |models| >= config.maxModels { return Failure(CapacityExhausted); }
      } else {
        if models[h].requiresRevalidation { return Failure(RevalidationRequired); }
        if expected.Some? && models[h].generation != expected.value { return Failure(Conflict); }
        g := models[h].generation + 1;
      }
      models := models[h := Registration(g, false)];
      return Success(g);
    }

    method AdvanceStateGeneration(h: Word64, expected: Option<Generation>) returns (result: Result<Generation>)
      modifies this
      ensures Effect(State(), result) == C.AdvanceStateGeneration(old(State()), h, expected)
    {
      if h == 0 { return Failure(InvalidArgument); }
      var g := 1;
      if h !in states {
        if expected.Some? { return Failure(Conflict); }
        if |states| >= config.maxStates { return Failure(CapacityExhausted); }
      } else {
        if states[h].requiresRevalidation { return Failure(RevalidationRequired); }
        if expected.Some? && states[h].generation != expected.value { return Failure(Conflict); }
        g := states[h].generation + 1;
      }
      states := states[h := Registration(g, false)];
      return Success(g);
    }

    method RevalidateModel(h: Word64) returns (result: Result<Generation>)
      modifies this
      ensures Effect(State(), result) == C.RevalidateModel(old(State()), h)
    {
      if h !in models { return Failure(NotFound); }
      models := models[h := models[h].(requiresRevalidation := false)];
      return Success(models[h].generation);
    }

    method RevalidateState(h: Word64) returns (result: Result<Generation>)
      modifies this
      ensures Effect(State(), result) == C.RevalidateState(old(State()), h)
    {
      if h !in states { return Failure(NotFound); }
      states := states[h := states[h].(requiresRevalidation := false)];
      return Success(states[h].generation);
    }

    method ApplyPolicy(p: Policy) returns (result: Result<()>)
      modifies this
      ensures Effect(State(), result) == C.ApplyPolicy(old(State()), p)
    {
      if !PolicyValid(p) { return Failure(PolicyInvalid); }
      policy := p.(generation := p.generation + 1);
      return Success(());
    }

    method PublishTopology(given: Topology, now: int) returns (result: Result<Generation>)
      modifies this
      ensures Effect(State(), result) == C.PublishTopology(old(State()), given, now)
    {
      if given.provenance.ProvenanceUnknown? { return Failure(InvalidArgument); }
      if given.nodes == 0 { return Failure(InvalidArgument); }
      var t := given.(generation := if topology.Some? then topology.value.generation + 1 else 1,
                      boot := incarnation, observedAt := now);
      if t.maxAge == 0 { t := t.(maxAge := config.defaultMaxAge); }
      if !TopologyAuthoritative(t) { return Failure(InvalidArgument); }
      topology := Some(t);
      return Success(t.generation);
    }

    method RegisterSlo(id: Id, tailBudget: Word64, deadline: nat, share: nat) returns (result: Result<Generation>)
      modifies this
      ensures Effect(State(), result) == C.RegisterSlo(old(State()), id, tailBudget, deadline, share)
    {
      if id.IsNil() { return Failure(InvalidArgument); }
      if id !in ledger.requests { return Failure(NotFound); }
      if tailBudget == 0 { return Failure(InvalidArgument); }
      if id !in slo && |slo| >= config.maxSlo { return Failure(CapacityExhausted); }
      var g := if id in slo then slo[id].generation + 1 else 1;
      slo := slo[id := Slo(g, tailBudget, deadline, if share > 1000 then 1000 else share)];
      return Success(g);
    }

    method IssueRoute(id: Id, a: Id) returns (result: Result<Generation>)
      modifies this
      ensures Effect(State(), result) == C.IssueRoute(old(State()), id, a)
    {
      if id !in ledger.requests { return Failure(NotFound); }
      if Find(ledger.requests[id].attempts, a) < 0 { return Failure(NotFound); }
      if a !in routes && |routes| >= config.maxRoutes { return Failure(CapacityExhausted); }
      var g := if a in routes then routes[a] + 1 else 1;
      if id.IsNil() || a.IsNil() { return Failure(InvalidArgument); }
      routes := routes[a := g];
      return Success(g);
    }

    // -------------------------------------------------------------------------------------------
    // Requests
    // -------------------------------------------------------------------------------------------

    method RegisterRequest(id: Id, now: int) returns (result: Result<Generation>)
      modifies ledger
      ensures Effect(State(), result) == C.RegisterRequest(old(State()), id, now)
    {
      result := ledger.RegisterRequest(id, now);
    }

    method RegisterAttempt(id: Id, a: Id, h: Word64, now: int) returns (result: Result<Generation>)
      modifies ledger
      ensures Effect(State(), result) == C.RegisterAttempt(old(State()), id, a, h, now)
    {
      var g := 0;
      if h != 0 {
        var found := RequireGeneration(models, h);
        if found.Failure? { return found; }
        g := found.value;
      }
      result := ledger.RegisterAttempt(id, a, h, g, 0, now);
    }

    method RevalidateRequest(id: Id, a: Id, now: int) returns (result: Result<Generation>)
      modifies ledger
      ensures Effect(State(), result) == C.RevalidateRequest(old(State()), id, a, now)
    {
      result := ledger.RevalidateRequest(id, a, now);
    }

    method AdvanceStage(id: Id, a: Id, target: Stage, now: int) returns (result: Result<()>)
      modifies ledger
      ensures Effect(State(), result) == C.AdvanceStage(old(State()), id, a, target, now)
    {
      result := ledger.AdvanceStage(id, a, target, now);
    }

    method CancelRequest(id: Id, reason: Reason, now: int) returns (result: Result<()>)
      modifies this, ledger
      ensures Effect(State(), result) == C.CancelRequest(old(State()), id, reason, now)
    {
      result := MarkCancelled(id, reason, now);
      if result.Success? { ReleaseRequestFlows(id); }
    }

    method MarkCancelled(id: Id, reason: Reason, now: int) returns (result: Result<()>)
      modifies this`sequence, ledger
      ensures var s := old(State());
        var out := LedgerModel.CancelRequest(s.ledger, id, reason, s.sequence + 1, now);
        State() == s.(sequence := s.sequence + 1, ledger := out.ledger) && result == out.result
    {
      sequence := sequence + 1;
      result := ledger.CancelRequest(id, reason, sequence, now);
      assert State() == old(State()).(sequence := sequence, ledger := ledger.State());
    }

    method FailAttempt(id: Id, a: Id, reason: Reason, now: int) returns (result: Result<Generation>)
      modifies this, ledger
      ensures Effect(State(), result) == C.FailAttempt(old(State()), id, a, reason, now)
    {
      result := ledger.FailAttempt(id, a, reason, now);
      if result.Success? { ReleaseRequestFlows(id); }
    }

    method ReplaceAttempt(id: Id, a: Id, b: Id, h: Word64, now: int) returns (result: Result<Generation>)
      modifies this, ledger
      ensures Effect(State(), result) == C.ReplaceAttempt(old(State()), id, a, b, h, now)
    {
      var g := 0;
      if h != 0 {
        var found := RequireGeneration(models, h);
        if found.Failure? { return found; }
        g := found.value;
      }
      result := ledger.SupersedeAttempt(id, a, b, now);
      if result.Failure? { return; }
      ReleaseRequestFlows(id);
      var ignored := ledger.SetAttemptModel(id, b, h, g);
      routes := routes - {a};
    }

    method PublishCompletion(p: Publication, now: int) returns (result: Result<PublishOutcome>)
      modifies this, ledger
      ensures Effect(State(), result) == C.PublishCompletion(old(State()), p, now)
    {
      result := ledger.PublishCompletion(p, now);
      if result.Success? && result.value.disposition.Committed? { ReleaseRequestFlows(p.request); }
    }

    // -------------------------------------------------------------------------------------------
    // Boot
    // -------------------------------------------------------------------------------------------

    method ClearFlows()
      modifies this`flows, this`byRequest, this`byTransfer, this`bulk, this`nextFlow
      ensures FlowBook() == EMPTY_BOOK
    {
      flows, byRequest, byTransfer, bulk, nextFlow := map[], {}, {}, 0, 0;
    }

    method ClearDefers()
      modifies this`defers, this`streaming
      ensures DeferTable() == Table(config.hash, config.maxDefers, map[], 0)
    {
      defers, streaming := map[], 0;
    }

    method ClearEvidence()
      modifies this`topology, this`models, this`states, this`slo, this`routes
      ensures topology.None? && models == map[] && states == map[] && slo == map[] && routes == map[]
    {
      topology, models, states, slo, routes := None, map[], map[], map[], map[];
    }

    method ClearTransfers()
      modifies this`transfers, this`owned, this`started, this`finished, this`refused
      ensures transfers == map[] && owned == {} && started == finished == refused == 0
    {
      transfers, owned, started, finished, refused := map[], {}, 0, 0, 0;
    }

    /** Everything that an incarnation learnt or promised, but for the flows and deferrals. */
    method ClearKnowledge()
      modifies this`topology, this`models, this`states, this`slo, this`routes,
               this`transfers, this`owned, this`started, this`finished, this`refused
      ensures State() == old(State()).(
        topology := None, models := map[], states := map[], slo := map[], routes := map[],
        transfers := map[], owned := {}, started := 0, finished := 0, refused := 0)
    {
      ClearEvidence();
      ghost var s := State();
      assert s == old(State()).(topology := topology, models := models, states := states, slo := slo, routes := routes);
      ClearTransfers();
      assert State() == s.(
        transfers := transfers, owned := owned, started := started, finished := finished, refused := refused);
    }

    method ClearState()
      modifies this`topology, this`models, this`states, this`slo, this`routes,
               this`transfers, this`owned, this`started, this`finished, this`refused,
               this`flows, this`byRequest, this`byTransfer, this`bulk, this`nextFlow,
               this`defers, this`streaming, ledger
      ensures State() == Cleared(old(State()))
    {
      ClearKnowledge();
      ghost var s := State();
      ClearFlows();
      ClearDefers();
      ledger.Clear();
      assert State() == s.(book := FlowBook(), defers := DeferTable(), ledger := ledger.State());
    }

    method BootFresh(chosen: Id)
      modifies this, ledger
      ensures State() == B.BootFresh(old(State()), chosen)
    {
      ClearState();
      epoch, bootCount, incarnation, sequence := 1, bootCount + 1, chosen, 1;
      policy := Numbered(config.policy);
    }

    static method InspectRecords(records: seq<Request>, before: set<Id>) returns (result: Result<set<Id>>)
      ensures result == Inspect(records, before)
    {
      var seen := before;
      var k := 0;
      while k < |records|
        invariant 0 <= k <= |records|
        invariant Inspect(records, before) == Inspect(records[k..], seen)
      {
        var r := records[k];
        if r.id.IsNil() { return Failure(MalformedInput); }
        if |r.attempts| > MAX_ATTEMPTS { return Failure(MalformedInput); }
        if r.id in seen { return Failure(AlreadyExists); }
        seen := seen + {r.id};
        assert records[k..][1..] == records[k + 1..];
        k := k + 1;
      }
      return Success(seen);
    }

    static method EntriesAreValid(entries: Entries) returns (valid: bool)
      ensures valid == EntriesValid(entries)
    {
      var k := 0;
      while k < |entries|
        invariant 0 <= k <= |entries|
        invariant forall i | 0 <= i < k :: entries[i].0 != 0 && entries[i].1.generation != 0
      {
        if entries[k].0 == 0 || entries[k].1.generation == 0 { return false; }
        k := k + 1;
      }
      return true;
    }

    method ValidateRestored(d: Document) returns (code: Status)
      ensures code == ValidateDocument(config, d)
    {
      if d.version != FORMAT_VERSION { return UnsupportedVersion; }
      if !PolicyValid(d.policy) { return PolicyInvalid; }
      if d.policy.generation == 0 { return MalformedInput; }
      if |d.models| > config.maxModels { return BoundsExceeded; }
      var valid := EntriesAreValid(d.models);
      if !valid { return MalformedInput; }
      if |d.states| > config.maxStates { return BoundsExceeded; }
      valid := EntriesAreValid(d.states);
      if !valid { return MalformedInput; }
      if d.topology.Some? && !TopologyAuthoritative(d.topology.value) { return MalformedInput; }
      var first := InspectRecords(d.terminal, {});
      if first.Failure? { return first.code; }
      var second := InspectRecords(d.live, first.value);
      if second.Failure? { return second.code; }
      return Ok;
    }

    /** Keeps the first entry of each hash, marked for revalidation. */
    static method RestoreEntries(entries: Entries) returns (m: map<Word64, Registration>)
      ensures m == RestoreRegistry(entries)
    {
      m := map[];
      var k := 0;
      while k < |entries|
        invariant 0 <= k <= |entries|
        invariant m == RestoreRegistry(entries[..k])
      {
        var (h, r) := entries[k];
        assert entries[..k + 1][..k] == entries[..k];
        if h !in m { m := m[h := Registration(r.generation, true)]; }
        k := k + 1;
      }
      assert entries[..k] == entries;
    }

    method RestoreRecords(records: seq<Request>) returns (result: Result<()>)
      modifies ledger
      ensures Outcome(ledger.State(), result) == RestoreAll(old(ledger.State()), records)
    {
      var k := 0;
      while k < |records|
        invariant 0 <= k <= |records|
        invariant RestoreAll(ledger.State(), records[k..]) == RestoreAll(old(ledger.State()), records)
      {
        result := ledger.RestoreRecord(records[k]);
        if result.Failure? { return; }
        assert records[k..][1..] == records[k + 1..];
        k := k + 1;
      }
      return Success(());
    }

    method RestoreEvidence(d: Document)
      modifies this`policy, this`models, this`states, this`topology
      ensures State() == B.WithEvidence(old(State()), d)
    {
      AdoptEvidence(d);
      assert State() == old(State()).(policy := policy, models := models, states := states, topology := topology);
    }

    method AdoptEvidence(d: Document)
      modifies this`policy, this`models, this`states, this`topology
      ensures policy == d.policy.(generation := d.policy.generation + 1)
      ensures models == RestoreRegistry(d.models) && states == RestoreRegistry(d.states)
      ensures topology == if d.topology.Some? then d.topology else old(topology)
    {
      policy := d.policy.(generation := d.policy.generation + 1);
      models := RestoreEntries(d.models);
      states := RestoreEntries(d.states);
      if d.topology.Some? { topology := d.topology; }
    }

    method RestoreState(d: Document) returns (result: Result<()>)
      modifies this`policy, this`models, this`states, this`topology, ledger
      ensures Effect(State(), result) == B.RestoreState(old(State()), d)
    {
      var code := ValidateRestored(d);
      if !code.Ok? { return Failure(code); }
      RestoreEvidence(d);
      ghost var s1 := State();
      result := RestoreHistory(d);
      assert State() == s1.(ledger := ledger.State());
    }

    method RestoreHistory(d: Document) returns (result: Result<()>)
      modifies ledger
      ensures Outcome(ledger.State(), result) == RestoreBoth(old(ledger.State()), d.terminal, d.live)
    {
      result := RestoreRecords(d.terminal);
      if result.Failure? { return; }
      result := RestoreRecords(d.live);
    }

    method Adopt(boots: nat, next: Generation, chosen: Id)
      modifies this`bootCount, this`epoch, this`incarnation, this`sequence
      ensures bootCount == boots && epoch == next && incarnation == chosen && sequence == 1
    {
      bootCount, epoch, incarnation, sequence := boots, next, chosen, 1;
    }

    method BootFrom(d: Document, chosen: Id) returns (result: Result<Generation>)
      modifies this, ledger
      ensures Effect(State(), result) == B.BootFrom(old(State()), d, chosen)
    {
      ClearState();
      var restored := RestoreState(d);
      if restored.Failure? {
        ClearState();
        return Failure(restored.code);
      }
      ghost var s1 := State();
      Adopt(Max(d.bootCount, bootCount) + 1, d.epoch + 1, chosen);
      assert State() == s1.(bootCount := bootCount, epoch := epoch, incarnation := incarnation, sequence := sequence);
      return Success(epoch);
    }

    // -------------------------------------------------------------------------------------------
    // Export
    // -------------------------------------------------------------------------------------------

    /** Puts an entry where the ascending order wants it. */
    static method InsertEntry(entries: Entries, e: (Word64, Registration)) returns (out: Entries)
      requires Ascending(entries) && forall i | 0 <= i < |entries| :: entries[i].0 != e.0
      ensures Ascending(out) && multiset(out) == multiset(entries) + multiset{e}
    {
      var k := 0;
      while k < |entries| && entries[k].0 < e.0
        invariant 0 <= k <= |entries| && forall i | 0 <= i < k :: entries[i].0 < e.0
      {
        k := k + 1;
      }
      out := entries[..k] + [e] + entries[k..];
      assert entries == entries[..k] + entries[k..];
    }

    /** The registry's entries, sorted by hash. */
    static method ListEntries(m: map<Word64, Registration>) returns (entries: Entries)
      ensures Lists(m, entries)
    {
      entries := [];
      var left := m.Keys;
      while left != {}
        invariant left <= m.Keys && Ascending(entries)
        invariant forall x | x in entries :: x.0 in m && x.0 !in left && m[x.0] == x.1
        invariant forall h | h in m && h !in left :: (h, m[h]) in entries
        decreases left
      {
        var h :| h in left;
        ghost var before := entries;
        entries := InsertEntry(entries, (h, m[h]));
        SameEntries(before, (h, m[h]), entries);
        left := left - {h};
      }
    }

    method ExportState() returns (d: Document)
      requires ledger.Keyed()
      ensures Exports(State(), d)
    {
      var listedModels := ListEntries(models);
      var listedStates := ListEntries(states);
      var terminal := ledger.ExportTerminalRecords(config.ledger.maxRetained);
      var live := ledger.ExportLiveRecords();
      d := Document(FORMAT_VERSION, epoch, incarnation, bootCount, policy, topology, listedModels, listedStates,
                    terminal, live);
    }

    // -------------------------------------------------------------------------------------------
    // Self-check
    // -------------------------------------------------------------------------------------------

    /** Walks the flow table once: are all flows in order, how many serve, how many bulk bytes? */
    method WalkFlows() returns (sound: bool, serving: nat, bytes: nat)
      ensures sound <==> forall f | f in flows :: FlowChecks(State(), flows[f])
      ensures sound ==> serving == |ServingFlows(flows)| && bytes == Wrap(BulkSum(flows))
    {
      serving, bytes := 0, 0;
      var left := flows.Keys;
      NothingWalked(flows);
      while left != {}
        invariant left <= flows.Keys
        invariant forall f | f in flows && f !in left :: FlowChecks(State(), flows[f])
        invariant serving == |ServingFlows(flows - left)| && bytes < TWO_64
        invariant AddWrap(bytes, BulkSum(Remaining(flows, left))) == Wrap(BulkSum(flows))
        decreases left
      {
        var f :| f in left;
        if !FlowChecks(State(), flows[f]) { return false, serving, bytes; }
        WalkServing(flows, left, f);
        WalkBytes(flows, left, f, bytes);
        if flows[f].owner.OfRequest? { serving := serving + 1; }
        if flows[f].bulk { bytes := AddWrap(bytes, flows[f].declaredBytes); }
        left := left - {f};
      }
      AllWalked(flows, bytes);
      sound := true;
    }

    method CountProtected() returns (count: nat)
      ensures count == |Protected(defers)|
    {
      count := 0;
      var left := defers.Keys;
      assert Protected(defers - left) == {};
      while left != {}
        invariant left <= defers.Keys && count == |Protected(defers - left)|
        decreases left
      {
        var key :| key in left;
        CountOneProtected(defers, left, key);
        if defers[key].protected { count := count + 1; }
        left := left - {key};
      }
      assert defers - left == defers;
    }

    method VerifyInvariants() returns (code: Status)
      ensures code.Ok? <==> InvariantsHold(State())
    {
      var closure := ledger.VerifyClosure();
      if !closure.Ok? { return closure; }
      var sound, serving, bytes := WalkFlows();
      if !sound { return Internal; }
      if serving != ledger.account.activeTotal { return Internal; }
      if bytes != bulk { return Internal; }
      var protected := CountProtected();
      if protected != streaming { return Internal; }
      if |defers| > config.maxDefers { return Internal; }
      if |flows| > config.ledger.maxFlowsTotal { return Internal; }
      return Ok;
    }
  }

  function TransferTag(t: Id): bv64 { Mix64(Bits(t.low) ^ (Bits(t.high) + 0xA24BAED4963EE407)) }

  /** The mixed half of the identity the decision's flow would get. */
  function TagFor(d: Decision): bv64 {
    if d.subject.Serving? then FlowTag(d.subject.request, d.subject.attempt, d.treatment.traffic)
    else TransferTag(d.subject.transfer)
  }

  /** Releasing flows leaves the counters alone. */
  lemma RefusedCount(s: Fabric, t: Id)
    ensures ReleaseTransfer(s, t).refused == s.refused && ReleaseTransfer(s, t).finished == s.finished
  {
    if !t.IsNil() { ReleaseAllCounts(s, set p | p in s.book.byTransfer && p.0 == t :: p.1); }
  }

  lemma {:induction false} ReleaseAllCounts(s: Fabric, victims: set<FlowId>)
    ensures ReleaseAll(s, victims).refused == s.refused && ReleaseAll(s, victims).finished == s.finished
    decreases victims
  {
    if victims == {} {
    } else {
      var f :| f in victims && ReleaseAll(s, victims) == ReleaseAll(ReleaseOne(s, f), victims - {f});
      assert ReleaseOne(s, f).refused == s.refused && ReleaseOne(s, f).finished == s.finished;
      ReleaseAllCounts(ReleaseOne(s, f), victims - {f});
    }
  }

  lemma FailedOpenStands(s: Fabric, d: Decision, declared: nat, now: int, tag: bv64)
    ensures C.OpenFlow(s, d, declared, now, tag).result.Failure? ==>
              C.OpenFlow(s, d, declared, now, tag).fabric == s
  {
  }

  // ---------------------------------------------------------------------------------------------
  // Abandoning, one transfer at a time
  // ---------------------------------------------------------------------------------------------

  function Abandoning(transfers: map<Id, Transfer>, done: set<Id>): map<Id, Transfer> {
    map t | t in transfers :: if t in done then AbandonedTransfer(transfers[t]) else transfers[t]
  }

  lemma AbandonOneMore(transfers: map<Id, Transfer>, done: set<Id>, t: Id)
    requires t !in done
    ensures Abandoning(transfers, done + {t}) ==
            if t in transfers && !TransferEnded(transfers[t].state)
            then Abandoning(transfers, done)[t := transfers[t].(state := Abandoned, reason := REJECTED_REQUEST_TERMINAL)]
            else Abandoning(transfers, done)
    ensures t in transfers ==> t in Abandoning(transfers, done) && Abandoning(transfers, done)[t] == transfers[t]
  {
  }

  // ---------------------------------------------------------------------------------------------
  // Walking a table, one entry at a time
  // ---------------------------------------------------------------------------------------------

  function Remaining(flows: map<FlowId, Flow>, left: set<FlowId>): map<FlowId, Flow> {
    map f | f in flows && f in left :: flows[f]
  }

  lemma NothingWalked(flows: map<FlowId, Flow>)
    ensures |ServingFlows(flows - flows.Keys)| == 0
    ensures AddWrap(0, BulkSum(Remaining(flows, flows.Keys))) == Wrap(BulkSum(flows))
  {
    assert ServingFlows(flows - flows.Keys) == {};
    assert Remaining(flows, flows.Keys) == flows;
  }

  lemma AllWalked(flows: map<FlowId, Flow>, bytes: nat)
    requires AddWrap(bytes, BulkSum(Remaining(flows, {}))) == Wrap(BulkSum(flows))
    ensures flows - {} == flows
    ensures bytes < TWO_64 ==> bytes == Wrap(BulkSum(flows))
  {
    assert Remaining(flows, {}).Keys == {};
  }

  lemma WalkServing(flows: map<FlowId, Flow>, left: set<FlowId>, f: FlowId)
    requires f in left && left <= flows.Keys
    ensures |ServingFlows(flows - (left - {f}))|
            == |ServingFlows(flows - left)| + (if flows[f].owner.OfRequest? then 1 else 0)
  {
    if flows[f].owner.OfRequest? {
      assert ServingFlows(flows - (left - {f})) == ServingFlows(flows - left) + {f};
    } else {
      assert ServingFlows(flows - (left - {f})) == ServingFlows(flows - left);
    }
  }

  lemma WalkSum(flows: map<FlowId, Flow>, left: set<FlowId>, f: FlowId)
    requires f in left && left <= flows.Keys
    ensures BulkSum(Remaining(flows, left)) == Share(flows[f]) + BulkSum(Remaining(flows, left - {f}))
  {
    BulkSumWithout(Remaining(flows, left), f);
    assert Remaining(flows, left) - {f} == Remaining(flows, left - {f});
  }

  lemma WalkBytes(flows: map<FlowId, Flow>, left: set<FlowId>, f: FlowId, bytes: nat)
    requires f in left && left <= flows.Keys
    ensures var more := if flows[f].bulk then AddWrap(bytes, flows[f].declaredBytes) else bytes;
      AddWrap(more, BulkSum(Remaining(flows, left - {f}))) == AddWrap(bytes, BulkSum(Remaining(flows, left)))
  {
    WalkSum(flows, left, f);
    if flows[f].bulk { WrapAssociates(bytes, flows[f].declaredBytes, BulkSum(Remaining(flows, left - {f}))); }
  }

  lemma {:induction false} WrapAssociates(a: nat, b: nat, c: nat)
    ensures AddWrap(AddWrap(a, b), c) == AddWrap(a, b + c)
  {
    WrapPlus(a + b, c);
  }

  lemma {:induction false} WrapPlus(x: nat, c: nat)
    ensures Wrap(Wrap(x) + c) == Wrap(x + c)
    decreases x
  {
    if x >= TWO_64 { WrapPlus(x - TWO_64, c); }
  }

  lemma CountOneProtected(records: map<Key, DeferRecord>, left: set<Key>, key: Key)
    requires key in left && left <= records.Keys
    ensures |Protected(records - (left - {key}))|
            == |Protected(records - left)| + (if records[key].protected then 1 else 0)
  {
    if records[key].protected {
      assert Protected(records - (left - {key})) == Protected(records - left) + {key};
    } else {
      assert Protected(records - (left - {key})) == Protected(records - left);
    }
  }

  // ---------------------------------------------------------------------------------------------
  // Sorting entries
  // ---------------------------------------------------------------------------------------------

  predicate Ascending(entries: Entries) {
    forall i, j | 0 <= i < j < |entries| :: entries[i].0 < entries[j].0
  }

  /** An insertion leaves the old entries and the new one, and nothing else. */
  lemma SameEntries(before: Entries, e: (Word64, Registration), after: Entries)
    requires multiset(after) == multiset(before) + multiset{e}
    ensures forall x :: x in after <==> x in before || x == e
  {
    forall x
      ensures x in after <==> x in before || x == e
    {
      assert x in after <==> x in multiset(after);
      assert x in before <==> x in multiset(before);
    }
  }
}
