/**
 * Accounting closure: in every state any run of ledger operations reaches, the running counters equal
 * the counts over the live flow records, the reverse index is exact, ended and interrupted requests
 * hold no flow and both flow limits hold. No assumption about the callers is made.
 */
module LedgerAccounting {
  import opened Ids
  import opened Traffic
  import opened LedgerModel

  type Flows = map<FlowId, LedgerFlow>
  type Requests = map<Id, Request>

  function FlowsOf(flows: Flows, id: Id): set<FlowId> {
    set f | f in flows && flows[f].request == id
  }

  function FlowsOfClass(flows: Flows, c: TrafficClass): set<FlowId> {
    set f | f in flows && flows[f].traffic == c
  }

  /** The reverse index holds one entry for each flow, and no other. */
  ghost predicate IndexExact(index: set<(Id, FlowId)>, flows: Flows) {
    && (forall p | p in index :: p.1 in flows && flows[p.1].request == p.0)
    && (forall f | f in flows :: (flows[f].request, f) in index)
  }

  /** A request that may hold flows. */
  predicate MayHoldFlows(requests: Requests, id: Id) {
    id in requests && !requests[id].IsTerminal() && !requests[id].requiresRevalidation
  }

  /** Every flow belongs to a request that may hold one and was minted by the counter. */
  ghost predicate FlowsHoused(requests: Requests, flows: Flows, nextFlow: nat) {
    forall f | f in flows :: 0 < f.sequence <= nextFlow && MayHoldFlows(requests, flows[f].request)
  }

  ghost predicate ClassesExact(counts: map<TrafficClass, nat>, flows: Flows) {
    forall c :: ClassCount(counts, c) == |FlowsOfClass(flows, c)|
  }

  ghost predicate RequestsExact(requests: Requests, flows: Flows) {
    forall id | id in requests :: requests[id].activeFlows == |FlowsOf(flows, id)|
  }

  ghost predicate RequestsWithin(requests: Requests, limit: nat) {
    forall id | id in requests :: requests[id].activeFlows <= limit
  }

  ghost predicate Books(s: Ledger) {
    && FlowsHoused(s.requests, s.flows, s.nextFlow)
    && IndexExact(s.index, s.flows)
    && s.account.activeTotal == |s.flows|
    && ClassesExact(s.account.activeByClass, s.flows)
    && RequestsExact(s.requests, s.flows)
    && s.account.activeTotal <= s.limits.maxFlowsTotal
    && RequestsWithin(s.requests, s.limits.maxFlowsPerRequest)
  }

  /** Marks a ledger whose books a proof opens. */
  predicate Opened(s: Ledger) { true }

  /** The books, kept closed so that proofs about whole steps do not unfold them for every state. */
  ghost predicate Accounted(s: Ledger) {
    forall t {:trigger Opened(t)} :: Opened(t) && t == s ==> Books(t)
  }

  lemma OpenBooks(s: Ledger)
    requires Accounted(s)
    ensures Books(s)
  {
    assert Opened(s);
  }

  // ---------------------------------------------------------------------------------------------
  // Steps that touch no flow
  // ---------------------------------------------------------------------------------------------

  ghost predicate SameFlows(s: Ledger, s': Ledger) {
    && s'.flows == s.flows && s'.index == s.index && s'.nextFlow == s.nextFlow
    && s'.limits == s.limits
    && s'.account.activeTotal == s.account.activeTotal
    && s'.account.activeByClass == s.account.activeByClass
  }

  /** Requests keep their flow count; those that vanish or stop held none. */
  ghost predicate RequestsFramed(requests: Requests, requests': Requests) {
    && (forall id | id in requests' ::
          requests'[id].activeFlows == if id in requests then requests[id].activeFlows else 0)
    && (forall id | MayHoldFlows(requests, id) :: MayHoldFlows(requests', id))
  }

  lemma Framed(s: Ledger, s': Ledger)
    requires Accounted(s) && SameFlows(s, s') && RequestsFramed(s.requests, s'.requests)
    ensures Accounted(s')
  {
    OpenBooks(s);
    forall id | id in s'.requests && id !in s.requests
      ensures FlowsOf(s.flows, id) == {}
    {
    }
  }

  /** Replacing one record that keeps its flow count and may hold flows whenever it could before. */
  lemma Updated(s: Ledger, s': Ledger, id: Id, r: Request)
    requires Accounted(s) && SameFlows(s, s') && id in s.requests
    requires s'.requests == s.requests[id := r]
    requires r.activeFlows == s.requests[id].activeFlows
    requires MayHoldFlows(s.requests, id) ==> !r.IsTerminal() && !r.requiresRevalidation
    ensures Accounted(s')
  {
    Framed(s, s');
  }

  lemma IdleHoldsNone(requests: Requests, flows: Flows, nextFlow: nat, id: Id)
    requires FlowsHoused(requests, flows, nextFlow) && !MayHoldFlows(requests, id)
    ensures FlowsOf(flows, id) == {}
  {
  }

  lemma {:induction false} EvictFramed(s: Ledger)
    ensures SameFlows(s, Evict(s))
    ensures Evict(s).requests.Keys <= s.requests.Keys
    ensures forall id | id in Evict(s).requests :: Evict(s).requests[id] == s.requests[id]
    ensures forall id | id in s.requests && !s.requests[id].IsTerminal() :: id in Evict(s).requests
    decreases |s.terminalOrder|
  {
    if |s.terminalOrder| > s.limits.maxRetained {
      var victim := s.terminalOrder[0];
      var popped := s.(terminalOrder := s.terminalOrder[1..]);
      if victim in s.requests && s.requests[victim].IsTerminal() {
        EvictFramed(popped.(requests := s.requests - {victim},
                            account := s.account.(evicted := s.account.evicted + 1)));
      } else {
        EvictFramed(popped);
      }
    }
  }

  lemma EvictAccounted(s: Ledger)
    requires Accounted(s)
    ensures Accounted(Evict(s))
  {
    EvictFramed(s);
    Framed(s, Evict(s));
  }

  // ---------------------------------------------------------------------------------------------
  // Closing flows
  // ---------------------------------------------------------------------------------------------

  lemma SplitCard<T>(whole: set<T>, part: set<T>, rest: set<T>)
    requires part + rest == whole && part !! rest
    ensures |whole| == |part| + |rest|
  {
  }

  lemma CloseTotal(flows: Flows, ids: set<FlowId>)
    ensures |flows - ids| == |flows| - |Among(flows, ids)| <= |flows|
  {
    var rest := flows - ids;
    assert Among(flows, ids) + rest.Keys == flows.Keys;
    SplitCard(flows.Keys, Among(flows, ids), rest.Keys);
    assert |rest| == |rest.Keys| && |flows| == |flows.Keys|;
  }

  lemma CloseClass(flows: Flows, ids: set<FlowId>, c: TrafficClass)
    ensures |FlowsOfClass(flows - ids, c)| == |FlowsOfClass(flows, c)| - |AmongOfClass(flows, ids, c)|
  {
    var part, rest := AmongOfClass(flows, ids, c), FlowsOfClass(flows - ids, c);
    assert part + rest == FlowsOfClass(flows, c);
    SplitCard(FlowsOfClass(flows, c), part, rest);
  }

  lemma CloseClasses(a: Account, flows: Flows, ids: set<FlowId>)
    requires ClassesExact(a.activeByClass, flows)
    ensures ClassesExact(ClosedAccount(a, flows, ids).activeByClass, flows - ids)
  {
    forall c
      ensures ClassCount(ClosedAccount(a, flows, ids).activeByClass, c) == |FlowsOfClass(flows - ids, c)|
    {
      CloseClass(flows, ids, c);
      assert ClassCount(a.activeByClass, c) == |FlowsOfClass(flows, c)|;
    }
  }

  lemma CloseOf(flows: Flows, ids: set<FlowId>, id: Id)
    ensures FlowsOf(flows - ids, id) == FlowsOf(flows, id) - ids
  {
  }

  lemma EntriesAreOwn(index: set<(Id, FlowId)>, flows: Flows, id: Id)
    requires IndexExact(index, flows)
    ensures FlowIds(EntriesOf(index, id)) == FlowsOf(flows, id)
  {
    forall f | f in FlowsOf(flows, id)
      ensures f in FlowIds(EntriesOf(index, id))
    {
      assert (id, f) in EntriesOf(index, id);
    }
  }

  lemma OneEntry(id: Id, f: FlowId)
    ensures FlowIds({(id, f)}) == {f}
  {
    assert (id, f) in {(id, f)};
  }

  lemma CloseIndex(index: set<(Id, FlowId)>, flows: Flows, entries: set<(Id, FlowId)>)
    requires IndexExact(index, flows) && entries <= index
    ensures IndexExact(index - entries, flows - FlowIds(entries))
  {
    forall p | p in index - entries
      ensures p.1 !in FlowIds(entries)
    {
      assert forall q | q in entries :: q.1 == p.1 ==> q == p;
    }
    forall f | f in flows - FlowIds(entries)
      ensures (flows[f].request, f) !in entries
    {
    }
  }

  lemma ReleaseHoused(requests: Requests, flows: Flows, nextFlow: nat, id: Id, r: Request)
    requires FlowsHoused(requests, flows, nextFlow)
    ensures FlowsHoused(requests[id := r], flows - FlowsOf(flows, id), nextFlow)
  {
  }

  lemma ReleaseExact(requests: Requests, flows: Flows, id: Id, r: Request)
    requires RequestsExact(requests, flows) && r.activeFlows == 0
    ensures RequestsExact(requests[id := r], flows - FlowsOf(flows, id))
  {
    var ids := FlowsOf(flows, id);
    forall other | other in requests[id := r]
      ensures requests[id := r][other].activeFlows == |FlowsOf(flows - ids, other)|
    {
      CloseOf(flows, ids, other);
      if other == id {
        assert FlowsOf(flows, id) - ids == {};
      } else {
        assert FlowsOf(flows, other) - ids == FlowsOf(flows, other);
      }
    }
  }

  lemma ReleaseBooks(s: Ledger, id: Id, r: Request)
    requires Books(s)
    ensures Books(ReleaseRequestFlows(s, id, r))
  {
    var ids := FlowsOf(s.flows, id);
    EntriesAreOwn(s.index, s.flows, id);
    CloseTotal(s.flows, ids);
    CloseClasses(s.account, s.flows, ids);
    CloseIndex(s.index, s.flows, EntriesOf(s.index, id));
    var r' := r.(activeFlows := 0, accountingClosed := true);
    ReleaseHoused(s.requests, s.flows, s.nextFlow, id, r');
    ReleaseExact(s.requests, s.flows, id, r');
  }

  /** Releasing a request's flows keeps the books, and leaves that request with none. */
  lemma ReleaseAccounted(s: Ledger, id: Id, r: Request)
    requires Accounted(s)
    ensures Accounted(ReleaseRequestFlows(s, id, r))
  {
    OpenBooks(s);
    ReleaseBooks(s, id, r);
  }

  lemma EndAccounted(s: Ledger, id: Id, r: Request, account: Account)
    requires Accounted(s) && id in s.requests && r.IsTerminal()
    ensures Accounted(End(s, id, r, account))
  {
    ReleaseAccounted(s, id, r);
    var released := ReleaseRequestFlows(s, id, r);
    var queued := released.(terminalOrder := released.terminalOrder + [id],
                            account := account.(activeTotal := released.account.activeTotal,
                                                activeByClass := released.account.activeByClass));
    Framed(released, queued);
    EvictAccounted(queued);
  }

  // ---------------------------------------------------------------------------------------------
  // Opening and releasing one flow
  // ---------------------------------------------------------------------------------------------

  lemma AddClass(counts: map<TrafficClass, nat>, flows: Flows, f: FlowId, flow: LedgerFlow)
    requires f !in flows && ClassesExact(counts, flows)
    ensures ClassesExact(counts[flow.traffic := ClassCount(counts, flow.traffic) + 1], flows[f := flow])
  {
    var more := flows[f := flow];
    forall c
      ensures ClassCount(counts[flow.traffic := ClassCount(counts, flow.traffic) + 1], c)
              == |FlowsOfClass(more, c)|
    {
      assert ClassCount(counts, c) == |FlowsOfClass(flows, c)|;
      AddOneClass(flows, f, flow, c);
    }
  }

  lemma AddOneClass(flows: Flows, f: FlowId, flow: LedgerFlow, c: TrafficClass)
    requires f !in flows
    ensures |FlowsOfClass(flows[f := flow], c)| == |FlowsOfClass(flows, c)| + if c == flow.traffic then 1 else 0
  {
    if c == flow.traffic {
      assert FlowsOfClass(flows[f := flow], c) == FlowsOfClass(flows, c) + {f};
    } else {
      assert FlowsOfClass(flows[f := flow], c) == FlowsOfClass(flows, c);
    }
  }

  lemma AddRequest(requests: Requests, flows: Flows, f: FlowId, flow: LedgerFlow)
    requires f !in flows && RequestsExact(requests, flows) && flow.request in requests
    ensures var r := requests[flow.request];
      RequestsExact(requests[flow.request := r.(activeFlows := r.activeFlows + 1)], flows[f := flow])
  {
    var more := flows[f := flow];
    forall id | id in requests
      ensures |FlowsOf(more, id)| == |FlowsOf(flows, id)| + if id == flow.request then 1 else 0
    {
      AddOneOf(flows, f, flow, id);
    }
  }

  lemma AddOneOf(flows: Flows, f: FlowId, flow: LedgerFlow, id: Id)
    requires f !in flows
    ensures |FlowsOf(flows[f := flow], id)| == |FlowsOf(flows, id)| + if id == flow.request then 1 else 0
  {
    if id == flow.request {
      assert FlowsOf(flows[f := flow], id) == FlowsOf(flows, id) + {f};
    } else {
      assert FlowsOf(flows[f := flow], id) == FlowsOf(flows, id);
    }
  }

  lemma AddHoused(requests: Requests, flows: Flows, nextFlow: nat, f: FlowId, flow: LedgerFlow, r: Request)
    requires FlowsHoused(requests, flows, nextFlow) && MayHoldFlows(requests, flow.request)
    requires f.sequence == nextFlow + 1 && !r.IsTerminal() && !r.requiresRevalidation
    ensures f !in flows
    ensures FlowsHoused(requests[flow.request := r], flows[f := flow], nextFlow + 1)
  {
  }

  lemma AddIndex(index: set<(Id, FlowId)>, flows: Flows, f: FlowId, flow: LedgerFlow)
    requires IndexExact(index, flows) && f !in flows
    ensures IndexExact(index + {(flow.request, f)}, flows[f := flow])
    ensures |flows[f := flow]| == |flows| + 1
  {
  }

  lemma OpenedBooks(s: Ledger, f: FlowId, flow: LedgerFlow)
    requires Books(s) && MayHoldFlows(s.requests, flow.request) && f.sequence == s.nextFlow + 1
    requires s.requests[flow.request].activeFlows < s.limits.maxFlowsPerRequest
    requires s.account.activeTotal < s.limits.maxFlowsTotal
    ensures Books(WithFlow(s, f, flow))
  {
    var r := s.requests[flow.request];
    AddHoused(s.requests, s.flows, s.nextFlow, f, flow, r.(activeFlows := r.activeFlows + 1));
    AddIndex(s.index, s.flows, f, flow);
    AddClass(s.account.activeByClass, s.flows, f, flow);
    AddRequest(s.requests, s.flows, f, flow);
    AddWithin(s.requests, s.limits.maxFlowsPerRequest, flow.request);
    var s' := WithFlow(s, f, flow);
    assert FlowsHoused(s'.requests, s'.flows, s'.nextFlow) && IndexExact(s'.index, s'.flows);
    assert ClassesExact(s'.account.activeByClass, s'.flows) && RequestsExact(s'.requests, s'.flows);
    assert RequestsWithin(s'.requests, s'.limits.maxFlowsPerRequest);
  }

  lemma AddWithin(requests: Requests, limit: nat, id: Id)
    requires RequestsWithin(requests, limit) && id in requests && requests[id].activeFlows < limit
    ensures RequestsWithin(requests[id := requests[id].(activeFlows := requests[id].activeFlows + 1)], limit)
  {
  }

  lemma OpenedAccounted(s: Ledger, id: Id, a: Id, c: TrafficClass, f: FlowId, flow: LedgerFlow)
    requires Accounted(s) && OpenCheck(s, id, a, c).Ok?
    requires flow.request == id && f.sequence == s.nextFlow + 1
    ensures Accounted(WithFlow(s, f, flow))
  {
    OpenBooks(s);
    OpenedBooks(s, f, flow);
  }

  lemma OpenAccounted(s: Ledger, id: Id, a: Id, c: TrafficClass, declared: nat, now: int, tag: bv64)
    requires Accounted(s)
    ensures Accounted(OpenFlow(s, id, a, c, declared, now, tag).ledger)
  {
    if OpenCheck(s, id, a, c).Ok? {
      OpenedAccounted(s, id, a, c, FlowId(s.nextFlow + 1, tag),
                      LedgerFlow(id, c, declared, 0, now));
    }
  }

  /** The zero guards on the three decrements of a release are dead. */
  lemma GuardsDead(s: Ledger, f: FlowId)
    requires Accounted(s) && f in s.flows
    ensures s.account.activeTotal > 0
    ensures ClassCount(s.account.activeByClass, s.flows[f].traffic) > 0
    ensures s.flows[f].request in s.requests && s.requests[s.flows[f].request].activeFlows > 0
  {
    OpenBooks(s);
    assert f in FlowsOfClass(s.flows, s.flows[f].traffic);
    assert f in FlowsOf(s.flows, s.flows[f].request);
  }

  lemma DropRequest(requests: Requests, flows: Flows, f: FlowId)
    requires f in flows && RequestsExact(requests, flows) && flows[f].request in requests
    ensures var r := requests[flows[f].request];
      RequestsExact(requests[flows[f].request := r.(activeFlows := Monus(r.activeFlows, 1))], flows - {f})
  {
    forall id | id in requests
      ensures |FlowsOf(flows - {f}, id)| == |FlowsOf(flows, id)| - if id == flows[f].request then 1 else 0
    {
      CloseOf(flows, {f}, id);
      if id == flows[f].request {
        SplitCard(FlowsOf(flows, id), {f}, FlowsOf(flows, id) - {f});
      } else {
        assert FlowsOf(flows, id) - {f} == FlowsOf(flows, id);
      }
    }
  }

  lemma DropHoused(requests: Requests, flows: Flows, nextFlow: nat, f: FlowId)
    requires f in flows && FlowsHoused(requests, flows, nextFlow)
    ensures flows[f].request in requests
    ensures var r := requests[flows[f].request];
      FlowsHoused(requests[flows[f].request := r.(activeFlows := Monus(r.activeFlows, 1))],
                  flows - {f}, nextFlow)
  {
  }

  lemma ReleaseFlowBooks(s: Ledger, f: FlowId)
    requires Books(s) && f in s.flows
    ensures Books(ReleaseFlow(s, f).ledger)
  {
    DropHoused(s.requests, s.flows, s.nextFlow, f);
    CloseTotal(s.flows, {f});
    CloseClasses(s.account, s.flows, {f});
    OneEntry(s.flows[f].request, f);
    CloseIndex(s.index, s.flows, {(s.flows[f].request, f)});
    DropRequest(s.requests, s.flows, f);
  }

  lemma ReleaseFlowAccounted(s: Ledger, f: FlowId)
    requires Accounted(s)
    ensures Accounted(ReleaseFlow(s, f).ledger)
  {
    if f in s.flows {
      OpenBooks(s);
      ReleaseFlowBooks(s, f);
    }
  }

  /** Rewriting a flow in place keeps every count. */
  lemma SameSets(flows: Flows, f: FlowId, flow: LedgerFlow)
    requires f in flows && flow.request == flows[f].request && flow.traffic == flows[f].traffic
    ensures |flows[f := flow]| == |flows|
    ensures forall c :: FlowsOfClass(flows[f := flow], c) == FlowsOfClass(flows, c)
    ensures forall id :: FlowsOf(flows[f := flow], id) == FlowsOf(flows, id)
  {
    assert flows[f := flow].Keys == flows.Keys;
  }

  lemma SameShape(s: Ledger, f: FlowId, flow: LedgerFlow)
    requires Accounted(s) && f in s.flows
    requires flow.request == s.flows[f].request && flow.traffic == s.flows[f].traffic
    ensures Accounted(s.(flows := s.flows[f := flow]))
  {
    OpenBooks(s);
    SameSets(s.flows, f, flow);
    SamePlaces(s.requests, s.index, s.flows, s.nextFlow, f, flow);
    var flows' := s.flows[f := flow];
    assert ClassesExact(s.account.activeByClass, flows');
    assert RequestsExact(s.requests, flows');
  }

  lemma SamePlaces(requests: Requests, index: set<(Id, FlowId)>, flows: Flows, nextFlow: nat, f: FlowId,
                   flow: LedgerFlow)
    requires FlowsHoused(requests, flows, nextFlow) && IndexExact(index, flows)
    requires f in flows && flow.request == flows[f].request
    ensures FlowsHoused(requests, flows[f := flow], nextFlow) && IndexExact(index, flows[f := flow])
  {
  }

  lemma BytesAccounted(s: Ledger, f: FlowId, bytes: nat, inbound: bool)
    requires Accounted(s)
    ensures Accounted(RecordFlowBytes(s, f, bytes, inbound).ledger)
  {
    if f in s.flows && s.flows[f].observedBytes + bytes < TWO_64 {
      var flow := s.flows[f].(observedBytes := s.flows[f].observedBytes + bytes);
      SameShape(s, f, flow);
      var s1 := s.(flows := s.flows[f := flow]);
      var s' := RecordFlowBytes(s, f, bytes, inbound).ledger;
      if s' != s1 {
        Updated(s1, s', flow.request, s'.requests[flow.request]);
      }
    }
  }

  // ---------------------------------------------------------------------------------------------
  // Steps and runs
  // ---------------------------------------------------------------------------------------------

  lemma InterruptAccounted(s: Ledger, op: Op)
    requires Accounted(s) && op.OpInterrupt?
    ensures Accounted(Step(s, op))
  {
    if op.id in s.requests && !s.requests[op.id].IsTerminal() {
      var r := InterruptedRecord(s.requests[op.id], op.now);
      ReleaseAccounted(s, op.id, r);
      Updated(ReleaseRequestFlows(s, op.id, r), Step(s, op), op.id,
              r.(activeFlows := 0, accountingClosed := false));
    }
  }

  lemma PublishAccounted(s: Ledger, op: Op)
    requires Accounted(s) && op.OpPublish?
    ensures Accounted(Step(s, op))
  {
    var p := op.publication;
    if !p.request.IsNil() && !p.attempt.IsNil() && p.request in s.requests {
      var r := s.requests[p.request];
      var j := Judge(r, p);
      if j.Commit? {
        EndAccounted(s, p.request, CommittedRecord(r, j.attempt, p, op.now),
                     CommitAccount(s.account, p.success));
      } else {
        Framed(s, Step(s, op));
      }
    }
  }

  lemma FailAccounted(s: Ledger, op: Op)
    requires Accounted(s) && op.OpFail?
    ensures Accounted(Step(s, op))
  {
    if op.id in s.requests {
      var r' := FailedRecord(s.requests[op.id], op.attempt, op.reason, op.now);
      if r'.Success? && r'.value.IsTerminal() {
        EndAccounted(s, op.id, r'.value, s.account.(attemptsFailed := s.account.attemptsFailed + 1,
                                                    failed := s.account.failed + 1));
      }
    }
  }

  lemma CancelAccounted(s: Ledger, op: Op)
    requires Accounted(s) && op.OpCancel?
    ensures Accounted(Step(s, op))
  {
    if op.id in s.requests {
      var r := s.requests[op.id];
      if r.lifecycle.Cancelled? {
        Updated(s, Step(s, op), op.id,
                r.(authorityFloor := RaisedFloor(r.authorityFloor, op.sequence)));
      } else if !r.IsTerminal() {
        EndAccounted(s, op.id, CancelledRecord(r, op.reason, op.sequence, op.now),
                     s.account.(cancelled := s.account.cancelled + 1));
      }
    }
  }

  lemma RestoreAccounted(s: Ledger, op: Op)
    requires Accounted(s) && op.OpRestore?
    ensures Accounted(Step(s, op))
  {
    var r := op.record;
    if RestoreRecord(s, r).result.Success? {
      var put := s.(requests := s.requests[r.id := Restored(r)],
                    terminalOrder := if r.IsTerminal() then s.terminalOrder + [r.id]
                                     else s.terminalOrder,
                    account := RestoredAccount(s.account, r.lifecycle));
      Framed(s, put);
      EvictAccounted(put);
    }
  }

  /** Binding, advancing, superseding and tallying rewrite one record and touch no flow. */
  lemma RecordAccounted(s: Ledger, op: Op)
    requires Accounted(s)
    requires op.OpAttempt? || op.OpRevalidate? || op.OpAdvance? || op.OpSupersede? || op.OpSetModel?
             || op.OpDecision?
    ensures Accounted(Step(s, op))
  {
    var s' := Step(s, op);
    if s' != s {
      Updated(s, s', op.id, s'.requests[op.id]);
    }
  }

  lemma FlowOpAccounted(s: Ledger, op: Op)
    requires Accounted(s) && (op.OpOpen? || op.OpRelease? || op.OpBytes?)
    ensures Accounted(Step(s, op))
  {
    match op
    case OpOpen(id, a, c, declared, now, tag) => OpenAccounted(s, id, a, c, declared, now, tag);
    case OpRelease(f) => ReleaseFlowAccounted(s, f);
    case OpBytes(f, bytes, inbound) => BytesAccounted(s, f, bytes, inbound);
  }

  /** Every operation keeps the books. */
  lemma StepAccounted(s: Ledger, op: Op)
    requires Accounted(s)
    ensures Accounted(Step(s, op))
  {
    match op
    case OpRegister(_, _) => Framed(s, Step(s, op));
    case OpFail(_, _, _, _) => FailAccounted(s, op);
    case OpCancel(_, _, _, _) => CancelAccounted(s, op);
    case OpInterrupt(_, _) => InterruptAccounted(s, op);
    case OpPublish(_, _) => PublishAccounted(s, op);
    case OpOpen(_, _, _, _, _, _) => FlowOpAccounted(s, op);
    case OpRelease(_) => FlowOpAccounted(s, op);
    case OpBytes(_, _, _) => FlowOpAccounted(s, op);
    case OpRestore(_) => RestoreAccounted(s, op);
    case _ => RecordAccounted(s, op);
  }

  lemma {:induction false} RunAccounted(s: Ledger, ops: seq<Op>)
    requires Accounted(s)
    ensures Accounted(Run(s, ops))
    decreases |ops|
  {
    if ops == [] {
    } else {
      StepAccounted(s, ops[0]);
      RunAccounted(Step(s, ops[0]), ops[1..]);
    }
  }

  /** The closure theorem, from an empty ledger, over every run. */
  lemma AccountingCloses(limits: Limits, ops: seq<Op>)
    ensures var s := Run(EmptyLedger(limits), ops);
      && Books(s)
      && forall id | id in s.requests && (s.requests[id].IsTerminal() || s.requests[id].requiresRevalidation)
         :: s.requests[id].activeFlows == 0 && FlowsOf(s.flows, id) == {}
  {
    var empty := EmptyLedger(limits);
    assert forall c :: FlowsOfClass(empty.flows, c) == {};
    RunAccounted(empty, ops);
    var s := Run(empty, ops);
    OpenBooks(s);
    forall id | id in s.requests && (s.requests[id].IsTerminal() || s.requests[id].requiresRevalidation)
      ensures s.requests[id].activeFlows == 0 && FlowsOf(s.flows, id) == {}
    {
      IdleHoldsNone(s.requests, s.flows, s.nextFlow, id);
    }
  }
}
