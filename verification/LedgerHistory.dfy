/**
 * The bounded terminal history. It is exact as long as an attempt is bound only to a request that has
 * no live attempt (`Disciplined`); the source does not enforce that, and `UndisciplinedRun` shows what
 * goes wrong without it.
 */
module LedgerHistory {
  import opened Ids
  import opened Traffic
  import opened Reasons
  import opened LedgerModel
  import opened LedgerAccounting
  import opened LedgerRecords

  ghost predicate DistinctIds(attempts: seq<Attempt>) {
    forall i, j | 0 <= i < j < |attempts| :: attempts[i].id != attempts[j].id
  }

  /** Only the last attempt may be live, and none is once the request has ended. */
  ghost predicate OneLive(r: Request) {
    && (forall i | 0 <= i < |r.attempts| - 1 :: AttemptTerminal(r.attempts[i].lifecycle))
    && (r.IsTerminal() ==> AllTerminal(r.attempts))
  }

  ghost predicate Tame(r: Request) { DistinctIds(r.attempts) && OneLive(r) }

  /** What a caller can check before a call that binds an attempt, and of a document it restores. */
  ghost predicate Disciplined(s: Ledger, op: Op) {
    && ((op.OpAttempt? || op.OpRevalidate?) && op.id in s.requests ==>
          !s.requests[op.id].HasLiveAttempt())
    && (op.OpRevalidate? && op.id in s.requests ==> Find(s.requests[op.id].attempts, op.attempt) < 0)
    && (op.OpRestore? ==> Tame(op.record))
  }

  // ---------------------------------------------------------------------------------------------
  // One record
  // ---------------------------------------------------------------------------------------------

  lemma FindsTheCurrent(id: Id, r: Request, a: Id)
    requires RecordOk(id, r) && Tame(r) && r.IsCurrent(a)
    ensures |r.attempts| > 0 && Find(r.attempts, a) == |r.attempts| - 1
  {
    assert r.attempts[|r.attempts| - 1].id == a;
  }

  /** The discipline is exactly what binding needs. */
  lemma BindingNeedsDiscipline(l: Limits, r: Request, a: Id, h: Word64, g: Generation, t: Generation, now: int)
    requires Tame(r) && BoundRecord(l, r, a, h, g, t, now).Success?
    ensures Tame(BoundRecord(l, r, a, h, g, t, now).value) <==> !r.HasLiveAttempt()
  {
    var r' := BoundRecord(l, r, a, h, g, t, now).value;
    assert forall i | 0 <= i < |r.attempts| :: r'.attempts[i] == r.attempts[i];
    if OneLive(r') { assert AllTerminal(r.attempts); }
  }

  lemma RevalidationNeedsDiscipline(l: Limits, r: Request, a: Id, now: int)
    requires Tame(r) && RevalidatedRecord(l, r, a, now).Success?
    ensures Tame(RevalidatedRecord(l, r, a, now).value)
            <==> !r.HasLiveAttempt() && Find(r.attempts, a) < 0
  {
    var r' := RevalidatedRecord(l, r, a, now).value;
    var n := |r.attempts|;
    assert forall i | 0 <= i < n :: r'.attempts[i] == r.attempts[i];
    assert r'.attempts[n].id == a;
    if OneLive(r') { assert AllTerminal(r.attempts); }
  }

  lemma SupersededTame(l: Limits, id: Id, r: Request, a: Id, b: Id, now: int)
    requires RecordOk(id, r) && Tame(r) && SupersededRecord(l, r, a, b, now).Success?
    ensures Tame(SupersededRecord(l, r, a, b, now).value)
  {
    FindsTheCurrent(id, r, a);
  }

  lemma FailedTame(id: Id, r: Request, a: Id, reason: Reason, now: int)
    requires RecordOk(id, r) && Tame(r) && FailedRecord(r, a, reason, now).Success?
    ensures Tame(FailedRecord(r, a, reason, now).value)
    ensures r.IsTerminal() ==> FailedRecord(r, a, reason, now).value == r
  {
    FindsTheCurrent(id, r, a);
  }

  lemma CommittedTame(id: Id, r: Request, p: Publication, now: int)
    requires RecordOk(id, r) && Tame(r) && Judge(r, p).Commit?
    ensures Tame(CommittedRecord(r, Judge(r, p).attempt, p, now))
  {
  }

  // ---------------------------------------------------------------------------------------------
  // The order of endings
  // ---------------------------------------------------------------------------------------------

  ghost predicate Distinct(order: seq<Id>) {
    forall i, j | 0 <= i < j < |order| :: order[i] != order[j]
  }

  /** Marks a queue whose entries a proof looks at; the facts below stay closed for every other queue. */
  predicate Line(order: seq<Id>) { true }

  ghost predicate Unrepeated(order: seq<Id>) {
    forall o {:trigger Line(o)} :: Line(o) && o == order ==> Distinct(o)
  }

  /** `rest` is what `order` is without its first `k` entries. */
  ghost predicate Dropped(order: seq<Id>, k: int, rest: seq<Id>) {
    forall o {:trigger Line(o)} :: Line(o) && o == rest ==> 0 <= k <= |order| && o == order[k..]
  }

  lemma DropView(order: seq<Id>, k: int, rest: seq<Id>)
    ensures Dropped(order, k, rest) <==> 0 <= k <= |order| && rest == order[k..]
  {
    assert Line(rest);
  }

  lemma DropNone(order: seq<Id>)
    ensures Dropped(order, 0, order) && Dropped(order + [], 0, order)
  {
    assert order + [] == order && order[0..] == order;
  }

  lemma DropFirst(order: seq<Id>, k: int, rest: seq<Id>)
    requires order != [] && Dropped(order[1..], k, rest)
    ensures Dropped(order, k + 1, rest)
  {
    DropView(order[1..], k, rest);
    assert order[1..][k..] == order[k + 1..];
  }

  lemma DropTwice(order: seq<Id>, a: seq<Id>, b: seq<Id>, j: int, k: int, middle: seq<Id>, end: seq<Id>)
    requires Dropped(order + a, j, middle) && Dropped(middle + b, k, end)
    ensures Dropped(order + (a + b), j + k, end)
  {
    DropView(order + a, j, middle);
    DropView(middle + b, k, end);
    assert end == (order + (a + b))[j + k..];
  }

  /** The queue holds exactly the retained requests that have ended, each once. */
  ghost predicate OrderExact(order: seq<Id>, requests: Requests) {
    && Unrepeated(order)
    && (forall id {:trigger At(id)} :: At(id) ==>
          (id in order <==> id in requests && requests[id].IsTerminal()))
  }

  function Endings(a: Account): nat { a.completed + a.cancelled + a.failed }

  ghost predicate Conserved(a: Account, requests: nat, queued: nat) {
    && queued <= requests
    && a.live == requests - queued && a.retained == queued
    && a.registered == a.live + Endings(a)
    && a.retained + a.evicted == Endings(a)
  }

  ghost predicate Historic(s: Ledger) {
    && OrderExact(s.terminalOrder, s.requests)
    && Conserved(s.account, |s.requests|, |s.terminalOrder|)
    && |s.terminalOrder| <= s.limits.maxRetained
  }

  lemma {:induction false} DistinctCard(order: seq<Id>)
    requires Distinct(order)
    ensures |set id | id in order| == |order|
    decreases |order|
  {
    if order == [] {
    } else {
      DistinctCard(order[1..]);
      assert (set id | id in order) == (set id | id in order[1..]) + {order[0]};
    }
  }

  lemma OrderFits(order: seq<Id>, requests: Requests)
    requires OrderExact(order, requests)
    ensures |order| <= |requests|
  {
    assert Line(order);
    DistinctCard(order);
    var queued := set id | id in order;
    assert queued <= requests.Keys by {
      forall id | id in queued
        ensures id in requests.Keys
      {
        assert At(id);
      }
    }
    assert queued + (requests.Keys - queued) == requests.Keys;
    SplitCard(requests.Keys, queued, requests.Keys - queued);
  }

  /** The live count that admission reads is a true difference: the subtraction never wraps. */
  lemma LiveCountNeverWraps(s: Ledger)
    requires OrderExact(s.terminalOrder, s.requests) && |s.requests| < TWO_64
    ensures LiveCount(s) == |s.requests| - |s.terminalOrder|
  {
    OrderFits(s.terminalOrder, s.requests);
  }

  function Overflow(s: Ledger): nat { Monus(|s.terminalOrder|, s.limits.maxRetained) }

  lemma {:induction false} EvictsQueue(s: Ledger)
    requires OrderExact(s.terminalOrder, s.requests)
    ensures Dropped(s.terminalOrder, Overflow(s), Evict(s).terminalOrder)
    ensures |Evict(s).terminalOrder| == |s.terminalOrder| - Overflow(s)
    ensures OrderExact(Evict(s).terminalOrder, Evict(s).requests)
    ensures |Evict(s).requests| == |s.requests| - Overflow(s)
    decreases |s.terminalOrder|
  {
    if |s.terminalOrder| > s.limits.maxRetained {
      PopStep(s);
      EvictsQueue(Popped(s));
      DropFirst(s.terminalOrder, Overflow(Popped(s)), Evict(s).terminalOrder);
    } else {
      DropNone(s.terminalOrder);
    }
  }

  lemma {:induction false} EvictsCounted(s: Ledger)
    requires OrderExact(s.terminalOrder, s.requests)
    ensures Evict(s).account.evicted == s.account.evicted + Overflow(s)
    ensures Evict(s).account.registered == s.account.registered
    ensures Endings(Evict(s).account) == Endings(s.account)
    decreases |s.terminalOrder|
  {
    if |s.terminalOrder| > s.limits.maxRetained {
      PopStep(s);
      EvictsCounted(Popped(s));
    }
  }

  lemma {:induction false} EvictRefreshes(s: Ledger)
    ensures Evict(s).account.retained == |Evict(s).terminalOrder|
    ensures Evict(s).account.live == Monus(|Evict(s).requests|, |Evict(s).terminalOrder|)
    decreases |s.terminalOrder|
  {
    if |s.terminalOrder| > s.limits.maxRetained {
      var victim := s.terminalOrder[0];
      var popped := s.(terminalOrder := s.terminalOrder[1..]);
      if victim in s.requests && s.requests[victim].IsTerminal() {
        EvictRefreshes(Popped(s));
      } else {
        EvictRefreshes(popped);
      }
    }
  }

  /** Eviction drops the oldest endings, as many as overflow the ceiling, and counts each. */
  lemma EvictsOldest(s: Ledger)
    requires OrderExact(s.terminalOrder, s.requests)
    ensures Dropped(s.terminalOrder, Overflow(s), Evict(s).terminalOrder)
    ensures |Evict(s).terminalOrder| == |s.terminalOrder| - Overflow(s)
    ensures OrderExact(Evict(s).terminalOrder, Evict(s).requests)
    ensures |Evict(s).requests| == |s.requests| - Overflow(s)
    ensures Evict(s).account.evicted == s.account.evicted + Overflow(s)
    ensures Evict(s).account.registered == s.account.registered
    ensures Endings(Evict(s).account) == Endings(s.account)
    ensures Evict(s).account.retained == |Evict(s).terminalOrder|
    ensures Evict(s).account.live == Monus(|Evict(s).requests|, |Evict(s).terminalOrder|)
  {
    EvictsQueue(s);
    EvictsCounted(s);
    EvictRefreshes(s);
  }

  /** The ledger without its oldest ending. */
  function Popped(s: Ledger): Ledger
    requires s.terminalOrder != []
  {
    s.(terminalOrder := s.terminalOrder[1..], requests := s.requests - {s.terminalOrder[0]},
       account := s.account.(evicted := s.account.evicted + 1))
  }

  lemma PopStep(s: Ledger)
    requires OrderExact(s.terminalOrder, s.requests) && |s.terminalOrder| > s.limits.maxRetained
    ensures Evict(s) == Evict(Popped(s)) && OrderExact(Popped(s).terminalOrder, Popped(s).requests)
    ensures |Popped(s).requests| == |s.requests| - 1
  {
    var victim := s.terminalOrder[0];
    assert At(victim) && victim in s.terminalOrder;
    PopExact(s.terminalOrder, s.requests);
    assert (s.requests - {victim}).Keys == s.requests.Keys - {victim};
  }

  lemma PopExact(order: seq<Id>, requests: Requests)
    requires OrderExact(order, requests) && order != []
    ensures OrderExact(order[1..], requests - {order[0]})
  {
    assert Line(order);
    forall id | At(id)
      ensures id in order[1..] <==> id in requests - {order[0]} && requests[id].IsTerminal()
    {
      if id in order[1..] {
        var j :| 0 <= j < |order[1..]| && order[1..][j] == id;
        assert order[j + 1] == id;
      }
      if id in order && id != order[0] {
        var j :| 0 <= j < |order| && order[j] == id;
        assert order[1..][j - 1] == id;
      }
    }
  }

  lemma PushExact(order: seq<Id>, requests: Requests, id: Id, r: Request)
    requires OrderExact(order, requests) && r.IsTerminal()
    requires id in requests ==> !requests[id].IsTerminal()
    ensures OrderExact(order + [id], requests[id := r])
  {
    assert At(id) && Line(order);
    assert id !in order;
  }

  /** Ending an open request appends it, then drops what overflows. */
  lemma EndHistoric(s: Ledger, id: Id, r: Request, account: Account)
    requires Historic(s) && id in s.requests && !s.requests[id].IsTerminal() && r.IsTerminal()
    requires account.registered == s.account.registered && account.evicted == s.account.evicted
    requires Endings(account) == Endings(s.account) + 1
    ensures Historic(End(s, id, r, account))
    ensures var s' := End(s, id, r, account);
      var k := s'.account.evicted - s.account.evicted;
      Dropped(s.terminalOrder + [id], k, s'.terminalOrder)
  {
    var released := ReleaseRequestFlows(s, id, r);
    var queued := released.(terminalOrder := released.terminalOrder + [id],
                            account := account.(activeTotal := released.account.activeTotal,
                                                activeByClass := released.account.activeByClass));
    PushExact(s.terminalOrder, s.requests, id, r.(activeFlows := 0, accountingClosed := true));
    assert queued.requests.Keys == s.requests.Keys;
    EvictsOldest(queued);
    OrderFits(queued.terminalOrder, queued.requests);
  }

  // ---------------------------------------------------------------------------------------------
  // Steps
  // ---------------------------------------------------------------------------------------------

  ghost predicate AllTame(requests: Requests) {
    forall id {:trigger At(id)} :: At(id) && id in requests ==> Tame(requests[id])
  }

  ghost predicate Orderly(s: Ledger) { Structured(s) && AllTame(s.requests) && Historic(s) }

  function Target(op: Op): Id {
    match op
    case OpPublish(p, _) => p.request
    case OpRestore(r) => r.id
    case OpRelease(_) => NIL
    case OpBytes(_, _, _) => NIL
    case _ => op.id
  }

  /** The request this step ends, if any. */
  function Ended(s: Ledger, op: Op): seq<Id> {
    if Endings(Step(s, op).account) > Endings(s.account) then [Target(op)] else []
  }

  /** The queue grows by what ended and loses its oldest entries, one for each eviction counted. */
  ghost predicate Fifo(s: Ledger, s': Ledger, ended: seq<Id>) {
    Dropped(s.terminalOrder + ended, s'.account.evicted - s.account.evicted, s'.terminalOrder)
  }

  ghost predicate SameHistory(s: Ledger, s': Ledger) {
    && s'.terminalOrder == s.terminalOrder && s'.limits == s.limits
    && s'.account.registered == s.account.registered && s'.account.evicted == s.account.evicted
    && s'.account.completed == s.account.completed && s'.account.cancelled == s.account.cancelled
    && s'.account.failed == s.account.failed
    && s'.account.live == s.account.live && s'.account.retained == s.account.retained
  }

  /** A step that ends nothing. */
  ghost predicate Uneventful(s: Ledger, s': Ledger) {
    Historic(s') && AllTame(s'.requests) && Fifo(s, s', []) && Endings(s'.account) == Endings(s.account)
  }

  /** A step that ends one request. */
  ghost predicate Eventful(s: Ledger, s': Ledger, id: Id) {
    Historic(s') && AllTame(s'.requests) && Fifo(s, s', [id]) && Endings(s'.account) == Endings(s.account) + 1
  }

  /** What a step must show, beside the soundness of its records. */
  ghost predicate StepHistoric(s: Ledger, op: Op) {
    var s' := Step(s, op);
    Historic(s') && AllTame(s'.requests) && Fifo(s, s', Ended(s, op))
  }

  lemma Concludes(s: Ledger, op: Op)
    requires Uneventful(s, Step(s, op)) || Eventful(s, Step(s, op), Target(op))
    ensures StepHistoric(s, op)
  {
  }

  lemma RewriteHistoric(s: Ledger, s': Ledger, id: Id, r: Request)
    requires Historic(s) && AllTame(s.requests) && SameHistory(s, s') && id in s.requests
    requires s'.requests == s.requests[id := r] && Tame(r)
    requires r.IsTerminal() <==> s.requests[id].IsTerminal()
    ensures Uneventful(s, s')
  {
    assert s'.requests.Keys == s.requests.Keys;
    DropNone(s.terminalOrder);
  }

  lemma StillHistoric(s: Ledger, s': Ledger)
    requires Historic(s) && AllTame(s.requests) && SameHistory(s, s') && s'.requests == s.requests
    ensures Uneventful(s, s')
  {
    DropNone(s.terminalOrder);
  }

  lemma EndEventful(s: Ledger, id: Id, r: Request, account: Account)
    requires Historic(s) && AllTame(s.requests) && Tame(r) && r.IsTerminal()
    requires id in s.requests && !s.requests[id].IsTerminal()
    requires account.registered == s.account.registered && account.evicted == s.account.evicted
    requires Endings(account) == Endings(s.account) + 1
    ensures Eventful(s, End(s, id, r, account), id)
  {
    EndHistoric(s, id, r, account);
    EndRecords(s, id, r, account);
    EndCounted(s, id, r, account);
  }

  lemma EndCounted(s: Ledger, id: Id, r: Request, account: Account)
    requires OrderExact(s.terminalOrder, s.requests) && r.IsTerminal()
    requires id in s.requests && !s.requests[id].IsTerminal()
    ensures Endings(End(s, id, r, account).account) == Endings(account)
  {
    var released := ReleaseRequestFlows(s, id, r);
    PushExact(s.terminalOrder, s.requests, id, r.(activeFlows := 0, accountingClosed := true));
    EvictsOldest(released.(terminalOrder := released.terminalOrder + [id],
                           account := account.(activeTotal := released.account.activeTotal,
                                               activeByClass := released.account.activeByClass)));
  }

  // Every operation in turn.

  lemma RegisterExact(order: seq<Id>, requests: Requests, id: Id, r: Request)
    requires OrderExact(order, requests) && AllTame(requests) && id !in requests
    requires !r.IsTerminal() && Tame(r)
    ensures OrderExact(order, requests[id := r]) && AllTame(requests[id := r])
    ensures |requests[id := r]| == |requests| + 1
  {
    assert At(id) && id !in order;
  }

  lemma JoinUneventful(s: Ledger, s': Ledger, id: Id, r: Request)
    requires Historic(s) && AllTame(s.requests) && id !in s.requests && !r.IsTerminal() && Tame(r)
    requires s'.requests == s.requests[id := r] && s'.terminalOrder == s.terminalOrder && s'.limits == s.limits
    requires s'.account == s.account.(registered := s.account.registered + 1, live := s.account.live + 1)
    ensures Uneventful(s, s')
  {
    RegisterExact(s.terminalOrder, s.requests, id, r);
    DropNone(s.terminalOrder);
  }

  lemma RegisterUneventful(s: Ledger, id: Id, now: int)
    requires Historic(s) && AllTame(s.requests)
    ensures Uneventful(s, RegisterRequest(s, id, now).ledger)
  {
    if RegisterRequest(s, id, now).result.Success? {
      assert |s.requests[id := NewRequest(id, now)]| == |s.requests| + 1;
      JoinUneventful(s, RegisterRequest(s, id, now).ledger, id, NewRequest(id, now));
    } else {
      StillHistoric(s, s);
    }
  }

  lemma BindUneventful(s: Ledger, id: Id, a: Id, h: Word64, g: Generation, t: Generation, now: int)
    requires Historic(s) && AllTame(s.requests) && (id in s.requests ==> !s.requests[id].HasLiveAttempt())
    ensures Uneventful(s, RegisterAttempt(s, id, a, h, g, t, now).ledger)
  {
    var s' := RegisterAttempt(s, id, a, h, g, t, now).ledger;
    if s' == s {
      StillHistoric(s, s');
    } else {
      assert At(id);
      BindingNeedsDiscipline(s.limits, s.requests[id], a, h, g, t, now);
      RewriteHistoric(s, s', id, BoundRecord(s.limits, s.requests[id], a, h, g, t, now).value);
    }
  }

  lemma RevalidateUneventful(s: Ledger, id: Id, a: Id, now: int)
    requires Historic(s) && AllTame(s.requests)
    requires id in s.requests ==> !s.requests[id].HasLiveAttempt() && Find(s.requests[id].attempts, a) < 0
    ensures Uneventful(s, RevalidateRequest(s, id, a, now).ledger)
  {
    var s' := RevalidateRequest(s, id, a, now).ledger;
    if s' == s {
      StillHistoric(s, s');
    } else {
      assert At(id);
      RevalidationNeedsDiscipline(s.limits, s.requests[id], a, now);
      RewriteHistoric(s, s', id, RevalidatedRecord(s.limits, s.requests[id], a, now).value);
    }
  }

  lemma SupersedeUneventful(s: Ledger, id: Id, a: Id, b: Id, now: int)
    requires Orderly(s)
    ensures Uneventful(s, SupersedeAttempt(s, id, a, b, now).ledger)
  {
    var s' := SupersedeAttempt(s, id, a, b, now).ledger;
    if s' == s {
      StillHistoric(s, s');
    } else {
      assert At(id);
      SupersededTame(s.limits, id, s.requests[id], a, b, now);
      RewriteHistoric(s, s', id, s'.requests[id]);
    }
  }

  lemma OpenUneventful(s: Ledger, id: Id, a: Id, c: TrafficClass, declared: nat, now: int, tag: bv64)
    requires Historic(s) && AllTame(s.requests)
    ensures Uneventful(s, OpenFlow(s, id, a, c, declared, now, tag).ledger)
  {
    var s' := OpenFlow(s, id, a, c, declared, now, tag).ledger;
    if s' == s {
      StillHistoric(s, s');
    } else {
      assert At(id);
      RewriteHistoric(s, s', id, s'.requests[id]);
    }
  }

  lemma AdvanceUneventful(s: Ledger, id: Id, a: Id, target: Stage, now: int)
    requires Historic(s) && AllTame(s.requests)
    ensures Uneventful(s, AdvanceStage(s, id, a, target, now).ledger)
  {
    var s' := AdvanceStage(s, id, a, target, now).ledger;
    if s' == s {
      StillHistoric(s, s');
    } else {
      assert At(id);
      RewriteHistoric(s, s', id, s'.requests[id]);
    }
  }

  lemma SetModelUneventful(s: Ledger, id: Id, a: Id, h: Word64, g: Generation)
    requires Historic(s) && AllTame(s.requests)
    ensures Uneventful(s, SetAttemptModel(s, id, a, h, g).ledger)
  {
    var s' := SetAttemptModel(s, id, a, h, g).ledger;
    if s' == s {
      StillHistoric(s, s');
    } else {
      assert At(id);
      RewriteHistoric(s, s', id, s'.requests[id]);
    }
  }

  lemma DecisionUneventful(s: Ledger, id: Id, a: Id, v: Verdict)
    requires Historic(s) && AllTame(s.requests)
    ensures Uneventful(s, RecordDecision(s, id, a, v).ledger)
  {
    var s' := RecordDecision(s, id, a, v).ledger;
    if s' == s {
      StillHistoric(s, s');
    } else {
      assert At(id);
      RewriteHistoric(s, s', id, s'.requests[id]);
    }
  }

  lemma ReleaseUneventful(s: Ledger, f: FlowId)
    requires Historic(s) && AllTame(s.requests)
    ensures Uneventful(s, ReleaseFlow(s, f).ledger)
  {
    var s' := ReleaseFlow(s, f).ledger;
    if f !in s.flows || s.flows[f].request !in s.requests {
      StillHistoric(s, s');
    } else {
      var id := s.flows[f].request;
      assert At(id);
      RewriteHistoric(s, s', id, s'.requests[id]);
    }
  }

  lemma BytesUneventful(s: Ledger, f: FlowId, bytes: nat, inbound: bool)
    requires Historic(s) && AllTame(s.requests)
    ensures Uneventful(s, RecordFlowBytes(s, f, bytes, inbound).ledger)
  {
    var s' := RecordFlowBytes(s, f, bytes, inbound).ledger;
    if f !in s.flows || s.flows[f].request !in s.requests || s'.requests == s.requests {
      StillHistoric(s, s');
    } else {
      var id := s.flows[f].request;
      assert At(id);
      RewriteHistoric(s, s', id, s'.requests[id]);
    }
  }

  lemma InterruptUneventful(s: Ledger, id: Id, now: int)
    requires Orderly(s)
    ensures Uneventful(s, MarkInterrupted(s, id, now).ledger)
  {
    var s' := MarkInterrupted(s, id, now).ledger;
    if id !in s.requests || s.requests[id].IsTerminal() {
      StillHistoric(s, s');
    } else {
      assert At(id);
      InterruptedSound(id, s.requests[id], now);
      RewriteHistoric(s, s', id, s'.requests[id]);
    }
  }

  lemma FailHistoric(s: Ledger, id: Id, a: Id, reason: Reason, now: int)
    requires Orderly(s)
    ensures var s' := FailAttempt(s, id, a, reason, now).ledger; Uneventful(s, s') || Eventful(s, s', id)
  {
    if FailAttempt(s, id, a, reason, now).ledger == s {
      StillHistoric(s, s);
    } else {
      assert At(id);
      FailedTame(id, s.requests[id], a, reason, now);
      EndEventful(s, id, FailedRecord(s.requests[id], a, reason, now).value,
                  s.account.(attemptsFailed := s.account.attemptsFailed + 1, failed := s.account.failed + 1));
    }
  }

  lemma CancelHistoric(s: Ledger, id: Id, reason: Reason, sequence: Generation, now: int)
    requires Orderly(s)
    ensures var s' := CancelRequest(s, id, reason, sequence, now).ledger; Uneventful(s, s') || Eventful(s, s', id)
  {
    var s' := CancelRequest(s, id, reason, sequence, now).ledger;
    assert At(id);
    if id in s.requests && !s.requests[id].IsTerminal() {
      CancelledSound(id, s.requests[id], reason, sequence, now);
      EndEventful(s, id, CancelledRecord(s.requests[id], reason, sequence, now),
                  s.account.(cancelled := s.account.cancelled + 1));
    } else if id in s.requests && s.requests[id].lifecycle.Cancelled? {
      RewriteHistoric(s, s', id, s'.requests[id]);
    } else {
      StillHistoric(s, s');
    }
  }

  lemma PublishHistoric(s: Ledger, p: Publication, now: int)
    requires Orderly(s)
    ensures var s' := PublishCompletion(s, p, now).ledger; Uneventful(s, s') || Eventful(s, s', p.request)
  {
    assert At(p.request);
    if !p.request.IsNil() && !p.attempt.IsNil() && p.request in s.requests
       && Judge(s.requests[p.request], p).Commit? {
      var r := s.requests[p.request];
      CommittedTame(p.request, r, p, now);
      EndEventful(s, p.request, CommittedRecord(r, Judge(r, p).attempt, p, now),
                  CommitAccount(s.account, p.success));
    } else {
      StillHistoric(s, PublishCompletion(s, p, now).ledger);
    }
  }

  /** A restored record joins the ledger, behind the queue if it had ended. */
  lemma JoinHistoric(s: Ledger, put: Ledger, r: Request)
    requires Historic(s) && AllTame(s.requests) && r.id !in s.requests && Tame(r)
    requires put == s.(requests := s.requests[r.id := Restored(r)],
                       terminalOrder := if r.IsTerminal() then s.terminalOrder + [r.id] else s.terminalOrder,
                       account := RestoredAccount(s.account, r.lifecycle))
    ensures if r.IsTerminal() then Eventful(s, Evict(put), r.id) else Uneventful(s, Evict(put))
  {
    assert At(r.id);
    assert put.requests.Keys == s.requests.Keys + {r.id};
    if r.IsTerminal() {
      PushExact(s.terminalOrder, s.requests, r.id, Restored(r));
    } else {
      assert s.terminalOrder + [] == s.terminalOrder;
    }
    EvictsOldest(put);
    EvictFramed(put);
    OrderFits(put.terminalOrder, put.requests);
  }

  lemma RestoreHistoric(s: Ledger, r: Request)
    requires Historic(s) && AllTame(s.requests) && Tame(r)
    ensures var s' := RestoreRecord(s, r).ledger; Uneventful(s, s') || Eventful(s, s', r.id)
  {
    if RestoreRecord(s, r).result.Failure? {
      StillHistoric(s, s);
    } else {
      JoinHistoric(s, s.(requests := s.requests[r.id := Restored(r)],
                         terminalOrder := if r.IsTerminal() then s.terminalOrder + [r.id] else s.terminalOrder,
                         account := RestoredAccount(s.account, r.lifecycle)), r);
    }
  }

  /** Under the discipline every operation keeps the history exact, conserved and first-in-first-out. */
  lemma StepKeepsHistory(s: Ledger, op: Op)
    requires Orderly(s) && SoundOp(op) && Disciplined(s, op)
    ensures Orderly(Step(s, op)) && Fifo(s, Step(s, op), Ended(s, op))
  {
    StepKeepsRecords(s, op);
    match op {
      case OpRegister(id, now) => RegisterUneventful(s, id, now);
      case OpAttempt(id, a, h, g, t, now) => BindUneventful(s, id, a, h, g, t, now);
      case OpRevalidate(id, a, now) => RevalidateUneventful(s, id, a, now);
      case OpAdvance(id, a, target, now) => AdvanceUneventful(s, id, a, target, now);
      case OpFail(id, a, reason, now) => FailHistoric(s, id, a, reason, now);
      case OpSupersede(id, a, b, now) => SupersedeUneventful(s, id, a, b, now);
      case OpSetModel(id, a, h, g) => SetModelUneventful(s, id, a, h, g);
      case OpCancel(id, reason, sequence, now) => CancelHistoric(s, id, reason, sequence, now);
      case OpInterrupt(id, now) => InterruptUneventful(s, id, now);
      case OpPublish(p, now) => PublishHistoric(s, p, now);
      case OpOpen(id, a, c, declared, now, tag) => OpenUneventful(s, id, a, c, declared, now, tag);
      case OpRelease(f) => ReleaseUneventful(s, f);
      case OpBytes(f, bytes, inbound) => BytesUneventful(s, f, bytes, inbound);
      case OpDecision(id, a, v) => DecisionUneventful(s, id, a, v);
      case OpRestore(r) => RestoreHistoric(s, r);
    }
    Concludes(s, op);
  }

  // ---------------------------------------------------------------------------------------------
  // Runs
  // ---------------------------------------------------------------------------------------------

  ghost predicate DisciplinedRun(s: Ledger, ops: seq<Op>)
    decreases |ops|
  {
    ops != [] ==>
      SoundOp(ops[0]) && Disciplined(s, ops[0]) && DisciplinedRun(Step(s, ops[0]), ops[1..])
  }

  function EndedAlong(s: Ledger, ops: seq<Op>): seq<Id>
    decreases |ops|
  {
    if ops == [] then [] else Ended(s, ops[0]) + EndedAlong(Step(s, ops[0]), ops[1..])
  }

  /**
   * Over any disciplined run the queue is what was queued before plus every ending in the order it
   * happened, less the oldest entries, exactly as many as were counted evicted.
   */
  lemma {:induction false} HistoryIsFifo(s: Ledger, ops: seq<Op>)
    requires Orderly(s) && DisciplinedRun(s, ops)
    ensures Orderly(Run(s, ops)) && Fifo(s, Run(s, ops), EndedAlong(s, ops))
    decreases |ops|
  {
    if ops == [] {
      DropNone(s.terminalOrder);
    } else {
      var s' := Step(s, ops[0]);
      StepKeepsHistory(s, ops[0]);
      HistoryIsFifo(s', ops[1..]);
      DropTwice(s.terminalOrder, Ended(s, ops[0]), EndedAlong(s', ops[1..]),
                s'.account.evicted - s.account.evicted, Run(s', ops[1..]).account.evicted - s'.account.evicted,
                s'.terminalOrder, Run(s', ops[1..]).terminalOrder);
    }
  }

  /** A ledger nothing has been done to. */
  predicate Unused(s: Ledger) {
    && s.requests == map[] && s.terminalOrder == [] && s.limits.maxAttempts <= MAX_ATTEMPTS
    && s.account.registered == 0 && s.account.evicted == 0 && s.account.live == 0
    && s.account.retained == 0
    && s.account.completed == 0 && s.account.cancelled == 0 && s.account.failed == 0
  }

  lemma UnusedOrderly(s: Ledger)
    requires Unused(s)
    ensures Orderly(s)
  {
  }

  /**
   * The history theorem: after any disciplined run of a new ledger the queue is the sequence of
   * endings without its first `evicted` entries, it holds exactly the retained ended requests, and
   * registered = live + ended, retained + evicted = ended.
   */
  lemma HistoryIsExact(s: Ledger, ops: seq<Op>)
    requires Unused(s) && DisciplinedRun(s, ops)
    ensures var s' := Run(s, ops);
      && s'.account.evicted <= |EndedAlong(s, ops)|
      && s'.terminalOrder == EndedAlong(s, ops)[s'.account.evicted..]
      && Historic(s')
  {
    UnusedOrderly(s);
    HistoryIsFifo(s, ops);
    assert s.terminalOrder + EndedAlong(s, ops) == EndedAlong(s, ops);
    DropView(EndedAlong(s, ops), Run(s, ops).account.evicted, Run(s, ops).terminalOrder);
  }
}
