/**
 * Exactly when the bounded history breaks. One call can end a request that has already ended:
 * `fail_attempt` on a current attempt that is still live, which `register_attempt` makes possible. Then and
 * only then does a completed request turn failed and the queue hold it twice.
 */
module LedgerEndings {
  import opened Ids
  import opened LedgerModel
  import opened LedgerAccounting
  import opened LedgerRecords
  import opened LedgerCurrency
  import opened LedgerHistory

  /** The operation fails a live current attempt of a request that has already ended. */
  predicate EndsAgain(s: Ledger, op: Op) {
    && op.OpFail? && op.id in s.requests
    && var r := s.requests[op.id];
       var i := Find(r.attempts, op.attempt);
       && r.IsTerminal() && r.IsCurrent(op.attempt)
       && i >= 0 && !AttemptTerminal(r.attempts[i].lifecycle)
  }

  // ---------------------------------------------------------------------------------------------
  // Completed
  // ---------------------------------------------------------------------------------------------

  /** A completed request that is retained leaves that state exactly when the operation ends it again. */
  lemma CompletedLeavesExactly(s: Ledger, op: Op, id: Id)
    requires id in s.requests && s.requests[id].lifecycle.Completed? && id in Step(s, op).requests
    ensures Step(s, op).requests[id].lifecycle.Completed? <==> !(EndsAgain(s, op) && op.id == id)
    ensures EndsAgain(s, op) && op.id == id ==> Step(s, op).requests[id].lifecycle.Failed?
  {
    match op
    case OpFail(_, _, _, _) => FailedAgain(s, op, id);
    case OpCancel(_, _, _, _) => CompletedCancel(s, op, id);
    case OpPublish(_, _) => CompletedPublish(s, op, id);
    case OpRestore(r) => RestoreSpares(s, r, id);
    case _ =>
  }

  /** The failure is not refused, and not a repetition of one. */
  predicate Fails(s: Ledger, op: Op)
    requires op.OpFail?
  {
    && op.id in s.requests && s.requests[op.id].IsCurrent(op.attempt)
    && var i := Find(s.requests[op.id].attempts, op.attempt);
       i >= 0 && !AttemptTerminal(s.requests[op.id].attempts[i].lifecycle)
  }

  lemma FailedAgain(s: Ledger, op: Op, id: Id)
    requires op.OpFail? && id in s.requests && s.requests[id].lifecycle.Completed? && id in Step(s, op).requests
    ensures Step(s, op).requests[id].lifecycle.Completed? <==> !(EndsAgain(s, op) && op.id == id)
    ensures EndsAgain(s, op) && op.id == id ==> Step(s, op).requests[id].lifecycle.Failed?
  {
    if Fails(s, op) {
      EndRecords(s, op.id, FailedRecord(s.requests[op.id], op.attempt, op.reason, op.now).value,
                 s.account.(attemptsFailed := s.account.attemptsFailed + 1, failed := s.account.failed + 1));
    }
  }

  lemma CompletedCancel(s: Ledger, op: Op, id: Id)
    requires op.OpCancel?
    requires id in s.requests && s.requests[id].lifecycle.Completed? && id in Step(s, op).requests
    ensures Step(s, op).requests[id].lifecycle.Completed?
  {
    if op.id in s.requests && !s.requests[op.id].IsTerminal() {
      EndRecords(s, op.id, CancelledRecord(s.requests[op.id], op.reason, op.sequence, op.now),
                 s.account.(cancelled := s.account.cancelled + 1));
    }
  }

  lemma CompletedPublish(s: Ledger, op: Op, id: Id)
    requires op.OpPublish?
    requires id in s.requests && s.requests[id].lifecycle.Completed? && id in Step(s, op).requests
    ensures Step(s, op).requests[id].lifecycle.Completed?
  {
    var p := op.publication;
    if p.request in s.requests && Judge(s.requests[p.request], p).Commit? {
      var r := s.requests[p.request];
      EndRecords(s, p.request, CommittedRecord(r, Judge(r, p).attempt, p, op.now),
                 CommitAccount(s.account, p.success));
    }
  }

  // ---------------------------------------------------------------------------------------------
  // The queue
  // ---------------------------------------------------------------------------------------------

  /** The queue holds exactly the retained ended requests, each once, and is within a ceiling that admits one. */
  ghost predicate Exact(s: Ledger) {
    && OrderExact(s.terminalOrder, s.requests)
    && |s.terminalOrder| <= s.limits.maxRetained && s.limits.maxRetained >= 1
  }

  lemma StillExact(s: Ledger, s': Ledger)
    requires Exact(s) && s'.terminalOrder == s.terminalOrder && s'.limits == s.limits && s'.requests == s.requests
    ensures Exact(s')
  {
  }

  lemma RewriteExact(s: Ledger, s': Ledger, id: Id, r: Request)
    requires Exact(s) && s'.terminalOrder == s.terminalOrder && s'.limits == s.limits
    requires id in s.requests && s'.requests == s.requests[id := r]
    requires r.IsTerminal() <==> s.requests[id].IsTerminal()
    ensures Exact(s')
  {
  }

  lemma EvictExact(s: Ledger)
    requires OrderExact(s.terminalOrder, s.requests) && s.limits.maxRetained >= 1
    ensures Exact(Evict(s))
  {
    EvictsOldest(s);
    EvictFramed(s);
  }

  lemma EndExact(s: Ledger, id: Id, r: Request, account: Account)
    requires Exact(s) && id in s.requests && !s.requests[id].IsTerminal() && r.IsTerminal()
    ensures Exact(End(s, id, r, account))
  {
    var released := ReleaseRequestFlows(s, id, r);
    PushExact(s.terminalOrder, s.requests, id, r.(activeFlows := 0, accountingClosed := true));
    EvictExact(released.(terminalOrder := released.terminalOrder + [id],
                         account := account.(activeTotal := released.account.activeTotal,
                                             activeByClass := released.account.activeByClass)));
  }

  lemma EvictsOne(s: Ledger)
    requires |s.terminalOrder| == s.limits.maxRetained + 1
    ensures Evict(s).terminalOrder == s.terminalOrder[1..]
    ensures var victim := s.terminalOrder[0];
      victim in s.requests && s.requests[victim].IsTerminal() ==> victim !in Evict(s).requests
  {
  }

  lemma TwiceIsInexact(order: seq<Id>, requests: Requests, id: Id, i: nat)
    requires i < |order| && order[i] == id
    ensures !OrderExact(order + [id], requests)
  {
    var twice := order + [id];
    assert twice[i] == twice[|order|] && !Distinct(twice);
    assert Line(twice);
  }

  lemma GoneIsInexact(order: seq<Id>, requests: Requests, id: Id)
    requires id !in requests
    ensures !OrderExact(order + [id], requests)
  {
    assert At(id) && (order + [id])[|order|] == id;
  }

  /** Ending a queued request again leaves it queued twice, or queued and no longer retained. */
  lemma SecondEndBreaks(s: Ledger, id: Id, r: Request, account: Account)
    requires Exact(s) && id in s.requests && s.requests[id].IsTerminal() && r.IsTerminal()
    ensures !Exact(End(s, id, r, account))
  {
    var released := ReleaseRequestFlows(s, id, r);
    var order := s.terminalOrder;
    assert released.terminalOrder == order;
    var queued := released.(terminalOrder := order + [id],
                            account := account.(activeTotal := released.account.activeTotal,
                                                activeByClass := released.account.activeByClass));
    assert At(id) && id in order;
    var i :| 0 <= i < |order| && order[i] == id;
    if |order| < s.limits.maxRetained {
      TwiceIsInexact(order, Evict(queued).requests, id, i);
    } else {
      EvictsOne(queued);
      assert (order + [id])[1..] == order[1..] + [id];
      if i == 0 {
        GoneIsInexact(order[1..], Evict(queued).requests, id);
      } else {
        TwiceIsInexact(order[1..], Evict(queued).requests, id, i - 1);
      }
    }
  }

  // ---------------------------------------------------------------------------------------------
  // Steps
  // ---------------------------------------------------------------------------------------------

  lemma BindExact(s: Ledger, op: Op)
    requires Exact(s) && (op.OpAttempt? || op.OpRevalidate? || op.OpSupersede?)
    ensures Exact(Step(s, op))
  {
    if Step(s, op) != s { RewriteExact(s, Step(s, op), op.id, Step(s, op).requests[op.id]); }
  }

  lemma TouchExact(s: Ledger, op: Op)
    requires Exact(s) && (op.OpAdvance? || op.OpSetModel? || op.OpDecision? || op.OpOpen? || op.OpInterrupt?)
    ensures Exact(Step(s, op))
  {
    if Step(s, op).requests == s.requests { StillExact(s, Step(s, op)); }
    else { RewriteExact(s, Step(s, op), op.id, Step(s, op).requests[op.id]); }
  }

  lemma FlowExact(s: Ledger, op: Op)
    requires Exact(s) && (op.OpRelease? || op.OpBytes?)
    ensures Exact(Step(s, op))
  {
    if Step(s, op).requests == s.requests { StillExact(s, Step(s, op)); }
    else {
      var id := s.flows[op.flow].request;
      RewriteExact(s, Step(s, op), id, Step(s, op).requests[id]);
    }
  }

  lemma RegisterKeepsExact(s: Ledger, id: Id, now: int)
    requires Exact(s)
    ensures Exact(RegisterRequest(s, id, now).ledger)
  {
    if RegisterRequest(s, id, now).result.Success? { assert At(id) && id !in s.terminalOrder; }
  }

  lemma CancelExact(s: Ledger, op: Op)
    requires Exact(s) && op.OpCancel?
    ensures Exact(Step(s, op))
  {
    if op.id in s.requests && !s.requests[op.id].IsTerminal() {
      EndExact(s, op.id, CancelledRecord(s.requests[op.id], op.reason, op.sequence, op.now),
               s.account.(cancelled := s.account.cancelled + 1));
    } else if op.id in s.requests && s.requests[op.id].lifecycle.Cancelled? {
      RewriteExact(s, Step(s, op), op.id, Step(s, op).requests[op.id]);
    }
  }

  lemma PublishExact(s: Ledger, p: Publication, now: int)
    requires Exact(s)
    ensures Exact(PublishCompletion(s, p, now).ledger)
  {
    if !p.request.IsNil() && !p.attempt.IsNil() && p.request in s.requests
       && Judge(s.requests[p.request], p).Commit? {
      var r := s.requests[p.request];
      EndExact(s, p.request, CommittedRecord(r, Judge(r, p).attempt, p, now), CommitAccount(s.account, p.success));
    } else {
      StillExact(s, PublishCompletion(s, p, now).ledger);
    }
  }

  lemma RestoreExact(s: Ledger, r: Request)
    requires Exact(s)
    ensures Exact(RestoreRecord(s, r).ledger)
  {
    if RestoreRecord(s, r).result.Success? {
      assert At(r.id);
      if r.IsTerminal() { PushExact(s.terminalOrder, s.requests, r.id, Restored(r)); }
      EvictExact(s.(requests := s.requests[r.id := Restored(r)],
                    terminalOrder := if r.IsTerminal() then s.terminalOrder + [r.id] else s.terminalOrder,
                    account := RestoredAccount(s.account, r.lifecycle)));
    }
  }

  lemma FailExactly(s: Ledger, op: Op)
    requires Exact(s) && op.OpFail?
    ensures Exact(Step(s, op)) <==> !EndsAgain(s, op)
  {
    if Fails(s, op) {
      var r := s.requests[op.id];
      var r' := FailedRecord(r, op.attempt, op.reason, op.now).value;
      var account := s.account.(attemptsFailed := s.account.attemptsFailed + 1, failed := s.account.failed + 1);
      if r.IsTerminal() { SecondEndBreaks(s, op.id, r', account); } else { EndExact(s, op.id, r', account); }
    }
  }

  /** Every operation keeps the queue exact, but for the one that ends a request again, and that one never does. */
  lemma StepKeepsQueueExactly(s: Ledger, op: Op)
    requires Exact(s)
    ensures Exact(Step(s, op)) <==> !EndsAgain(s, op)
  {
    match op
    case OpRegister(id, now) => RegisterKeepsExact(s, id, now);
    case OpAttempt(_, _, _, _, _, _) => BindExact(s, op);
    case OpRevalidate(_, _, _) => BindExact(s, op);
    case OpSupersede(_, _, _, _) => BindExact(s, op);
    case OpAdvance(_, _, _, _) => TouchExact(s, op);
    case OpSetModel(_, _, _, _) => TouchExact(s, op);
    case OpDecision(_, _, _) => TouchExact(s, op);
    case OpOpen(_, _, _, _, _, _) => TouchExact(s, op);
    case OpInterrupt(_, _) => TouchExact(s, op);
    case OpRelease(_) => FlowExact(s, op);
    case OpBytes(_, _, _) => FlowExact(s, op);
    case OpCancel(_, _, _, _) => CancelExact(s, op);
    case OpPublish(p, now) => PublishExact(s, p, now);
    case OpRestore(r) => RestoreExact(s, r);
    case OpFail(_, _, _, _) => FailExactly(s, op);
  }

  lemma {:induction false} OnceIfDistinct(order: seq<Id>, id: Id)
    requires Distinct(order)
    ensures multiset(order)[id] == if id in order then 1 else 0
    decreases |order|
  {
    if order == [] {
    } else {
      assert order == [order[0]] + order[1..];
      OnceIfDistinct(order[1..], id);
    }
  }

  lemma QueuedAgain(s: Ledger, op: Op)
    requires Exact(s) && EndsAgain(s, op) && |s.terminalOrder| < s.limits.maxRetained
    ensures Step(s, op).terminalOrder == s.terminalOrder + [op.id]
  {
  }

  /** While there is room, a retained completed request is queued twice exactly when the operation ends it again. */
  lemma QueuedTwiceExactly(s: Ledger, op: Op, id: Id)
    requires Exact(s) && |s.terminalOrder| < s.limits.maxRetained
    requires id in s.requests && s.requests[id].lifecycle.Completed? && id in Step(s, op).requests
    ensures multiset(Step(s, op).terminalOrder)[id] == if EndsAgain(s, op) && op.id == id then 2 else 1
  {
    assert At(id) && Line(s.terminalOrder);
    OnceIfDistinct(s.terminalOrder, id);
    if EndsAgain(s, op) {
      QueuedAgain(s, op);
    } else {
      StepKeepsQueueExactly(s, op);
      CompletedLeavesExactly(s, op, id);
      assert Line(Step(s, op).terminalOrder);
      OnceIfDistinct(Step(s, op).terminalOrder, id);
    }
  }

  // ---------------------------------------------------------------------------------------------
  // Runs
  // ---------------------------------------------------------------------------------------------

  predicate NeverEndsAgain(s: Ledger, ops: seq<Op>)
    decreases |ops|
  {
    ops != [] ==> !EndsAgain(s, ops[0]) && NeverEndsAgain(Step(s, ops[0]), ops[1..])
  }

  /** The queue is exact in every state of the run. */
  ghost predicate ExactThroughout(s: Ledger, ops: seq<Op>)
    decreases |ops|
  {
    Exact(s) && (ops != [] ==> ExactThroughout(Step(s, ops[0]), ops[1..]))
  }

  /** From an exact queue, a run keeps it exact throughout if and only if it never ends a request again. */
  lemma {:induction false} RunKeepsQueueExactly(s: Ledger, ops: seq<Op>)
    requires Exact(s)
    ensures ExactThroughout(s, ops) <==> NeverEndsAgain(s, ops)
    decreases |ops|
  {
    if ops == [] {
    } else {
      StepKeepsQueueExactly(s, ops[0]);
      if !EndsAgain(s, ops[0]) { RunKeepsQueueExactly(Step(s, ops[0]), ops[1..]); }
    }
  }

  predicate NeverEndedAgain(s: Ledger, ops: seq<Op>, id: Id)
    decreases |ops|
  {
    ops != [] ==> !(EndsAgain(s, ops[0]) && ops[0].id == id) && NeverEndedAgain(Step(s, ops[0]), ops[1..], id)
  }

  ghost predicate CompletedThroughout(s: Ledger, ops: seq<Op>, id: Id)
    decreases |ops|
  {
    && id in s.requests && s.requests[id].lifecycle.Completed?
    && (ops != [] ==> CompletedThroughout(Step(s, ops[0]), ops[1..], id))
  }

  /** Over a run that retains it, a completed request stays completed if and only if it is never ended again. */
  lemma {:induction false} CompletedStaysExactly(s: Ledger, ops: seq<Op>, id: Id)
    requires Retained(s, ops, id) && s.requests[id].lifecycle.Completed?
    ensures CompletedThroughout(s, ops, id) <==> NeverEndedAgain(s, ops, id)
    decreases |ops|
  {
    if ops == [] {
    } else {
      CompletedLeavesExactly(s, ops[0], id);
      if !(EndsAgain(s, ops[0]) && ops[0].id == id) { CompletedStaysExactly(Step(s, ops[0]), ops[1..], id); }
    }
  }

  function LiveIds(requests: Requests): set<Id> { set id | id in requests && !requests[id].IsTerminal() }

  /** With an exact queue, the live count that admission reads is the number of requests that have not ended. */
  lemma ExactCountsLive(s: Ledger)
    requires Exact(s) && |s.requests| < TWO_64
    ensures LiveCount(s) == |LiveIds(s.requests)|
  {
    LiveCountNeverWraps(s);
    assert Line(s.terminalOrder);
    DistinctCard(s.terminalOrder);
    var ended := set id | id in s.terminalOrder;
    forall id: Id
      ensures id in ended <==> id in s.requests && s.requests[id].IsTerminal()
    {
      assert At(id);
    }
    SplitCard(s.requests.Keys, ended, LiveIds(s.requests));
  }

  // ---------------------------------------------------------------------------------------------
  // Completed is final
  // ---------------------------------------------------------------------------------------------

  /** Over a disciplined run that retains it, a completed request stays exactly as completed. */
  lemma {:induction false} CompletedIsFinal(s: Ledger, ops: seq<Op>, id: Id)
    requires Orderly(s) && DisciplinedRun(s, ops) && Retained(s, ops, id)
    requires s.requests[id].lifecycle.Completed?
    ensures id in Run(s, ops).requests && Run(s, ops).requests[id].lifecycle.Completed?
    decreases |ops|
  {
    if ops == [] {
    } else {
      EndedOnce(s, ops[0]);
      CompletedLeavesExactly(s, ops[0], id);
      StepKeepsHistory(s, ops[0]);
      CompletedIsFinal(Step(s, ops[0]), ops[1..], id);
    }
  }

  /** Until then every later publication that names one of its attempts changes one counter only. */
  lemma RepeatsAreSuppressed(s: Ledger, ops: seq<Op>, p: Publication, now: int)
    requires Orderly(s) && DisciplinedRun(s, ops) && Retained(s, ops, p.request)
    requires s.requests[p.request].lifecycle.Completed?
    requires !p.request.IsNil() && !p.attempt.IsNil()
    ensures var s' := Run(s, ops);
      var out := PublishCompletion(s', p, now);
      && p.request in s'.requests
      && (var i := Find(s'.requests[p.request].attempts, p.attempt);
          i >= 0 && (p.attemptGeneration == 0
                     || p.attemptGeneration == s'.requests[p.request].attempts[i].generation)
          ==> && out.result.Success? && out.result.value.disposition.DuplicateSuppressed?
              && out.ledger == s'.(account := s'.account.(suppressed := s'.account.suppressed + 1)))
  {
    CompletedIsFinal(s, ops, p.request);
  }

  /** The discipline rules a second ending out: nothing of an ended request is live. */
  lemma EndedOnce(s: Ledger, op: Op)
    requires Orderly(s)
    ensures !EndsAgain(s, op)
  {
    if op.OpFail? { assert At(op.id); }
  }
}
