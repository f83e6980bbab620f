/**
 * Within one incarnation a retired attempt never becomes current again: only a request that came through
 * a restart awaits revalidation, and only revalidation binds an id without looking for it first.
 */
module LedgerCurrency {
  import opened Ids
  import opened LedgerModel
  import opened LedgerAccounting
  import opened LedgerRecords

  predicate Bound(r: Request, a: Id) { Find(r.attempts, a) >= 0 }

  predicate Retired(r: Request, a: Id) { Bound(r, a) && !r.IsCurrent(a) }

  /** A confirmed request stays confirmed, and its retired attempts stay retired. */
  ghost predicate Steady(r: Request, r': Request) {
    !r.requiresRevalidation ==>
      && !r'.requiresRevalidation
      && forall a {:trigger At(a)} :: At(a) && Retired(r, a) ==> Retired(r', a)
  }

  ghost predicate Moves(r: Request, r': Request) { Evolves(r, r') && Steady(r, r') }

  lemma MovesTransitive(a: Request, b: Request, c: Request)
    requires Moves(a, b) && Moves(b, c)
    ensures Moves(a, c)
  {
    EvolvesTransitive(a, b, c);
  }

  /** A request that came through a restart waits, or ends, unless it is named for revalidation. */
  predicate StillWaits(r: Request, r': Request) {
    r.requiresRevalidation ==> r'.requiresRevalidation || r'.IsTerminal()
  }

  ghost predicate RecordsMove(requests: Requests, requests': Requests, named: set<Id>) {
    forall id {:trigger At(id)} :: At(id) && id in requests && id in requests' ==>
      Moves(requests[id], requests'[id]) && (id in named || StillWaits(requests[id], requests'[id]))
  }

  /** The request a step revalidates, if it does. */
  function Named(op: Op): set<Id> { if op.OpRevalidate? then {op.id} else {} }

  lemma BoundStays(before: seq<Attempt>, after: seq<Attempt>, a: Id)
    requires AttemptsEvolve(before, after) && Find(before, a) >= 0
    ensures Find(after, a) >= 0
  {
    assert after[Find(before, a)].id == a;
  }

  /** Keeping the current attempt, or making current an id that was not bound, retires nobody's return. */
  lemma SteadyByCurrent(r: Request, r': Request)
    requires Evolves(r, r')
    requires !r.requiresRevalidation ==> !r'.requiresRevalidation
    requires r'.currentAttempt == r.currentAttempt
             || (!r.requiresRevalidation ==> Find(r.attempts, r'.currentAttempt) < 0)
    ensures Moves(r, r')
  {
    forall a | At(a) && Retired(r, a) && !r.requiresRevalidation
      ensures Retired(r', a)
    {
      BoundStays(r.attempts, r'.attempts, a);
    }
  }

  /** No operation but an interruption, which only a restart performs, changes this. */
  lemma StepMoves(s: Ledger, op: Op)
    requires Structured(s) && SoundOp(op) && !op.OpInterrupt?
    ensures RecordsMove(s.requests, Step(s, op).requests, Named(op))
  {
    StepKeepsRecords(s, op);
    var s' := Step(s, op);
    forall id | At(id) && id in s.requests && id in s'.requests
      ensures Moves(s.requests[id], s'.requests[id])
      ensures id in Named(op) || StillWaits(s.requests[id], s'.requests[id])
    {
      CurrentMoves(s, op, id);
      SteadyByCurrent(s.requests[id], s'.requests[id]);
    }
  }

  ghost predicate CurrentOk(r: Request, r': Request, named: bool) {
    && (!r.requiresRevalidation ==> !r'.requiresRevalidation)
    && (named || StillWaits(r, r'))
    && (r'.currentAttempt == r.currentAttempt
        || (!r.requiresRevalidation ==> Find(r.attempts, r'.currentAttempt) < 0))
  }

  lemma CurrentMoves(s: Ledger, op: Op, id: Id)
    requires !op.OpInterrupt? && id in s.requests && id in Step(s, op).requests
    ensures CurrentOk(s.requests[id], Step(s, op).requests[id], id in Named(op))
  {
    match op
    case OpFail(_, _, _, _) => FailCurrent(s, op, id);
    case OpPublish(_, _) => PublishCurrent(s, op, id);
    case OpCancel(_, _, _, _) => CancelCurrent(s, op, id);
    case OpRestore(r) => RestoreSpares(s, r, id);
    case OpAttempt(_, _, _, _, _, _) => BindingCurrent(s, op, id);
    case OpRevalidate(_, _, _) => BindingCurrent(s, op, id);
    case OpSupersede(_, _, _, _) => BindingCurrent(s, op, id);
    case _ => PlainCurrent(s, op, id);
  }

  /** A restored record leaves the others as they are. */
  lemma RestoreSpares(s: Ledger, r: Request, id: Id)
    requires id in s.requests && id in RestoreRecord(s, r).ledger.requests
    ensures RestoreRecord(s, r).ledger.requests[id] == s.requests[id]
  {
    EvictFramed(s.(requests := s.requests[r.id := Restored(r)],
                   terminalOrder := if r.IsTerminal() then s.terminalOrder + [r.id] else s.terminalOrder,
                   account := RestoredAccount(s.account, r.lifecycle)));
  }

  lemma PlainCurrent(s: Ledger, op: Op, id: Id)
    requires op.OpRegister? || op.OpAdvance? || op.OpSetModel? || op.OpOpen? || op.OpRelease? || op.OpBytes?
             || op.OpDecision?
    requires id in s.requests && id in Step(s, op).requests
    ensures CurrentOk(s.requests[id], Step(s, op).requests[id], id in Named(op))
  {
  }

  lemma BindingCurrent(s: Ledger, op: Op, id: Id)
    requires op.OpAttempt? || op.OpRevalidate? || op.OpSupersede?
    requires id in s.requests && id in Step(s, op).requests
    ensures CurrentOk(s.requests[id], Step(s, op).requests[id], id in Named(op))
  {
  }

  lemma FailCurrent(s: Ledger, op: Op, id: Id)
    requires op.OpFail? && id in s.requests && id in Step(s, op).requests
    ensures CurrentOk(s.requests[id], Step(s, op).requests[id], id in Named(op))
  {
    if op.id in s.requests {
      var r' := FailedRecord(s.requests[op.id], op.attempt, op.reason, op.now);
      if r'.Success? {
        EndRecords(s, op.id, r'.value, s.account.(attemptsFailed := s.account.attemptsFailed + 1,
                                                  failed := s.account.failed + 1));
      }
    }
  }

  lemma PublishCurrent(s: Ledger, op: Op, id: Id)
    requires op.OpPublish? && id in s.requests && id in Step(s, op).requests
    ensures CurrentOk(s.requests[id], Step(s, op).requests[id], id in Named(op))
  {
    var p := op.publication;
    if p.request in s.requests && Judge(s.requests[p.request], p).Commit? {
      var r := s.requests[p.request];
      EndRecords(s, p.request, CommittedRecord(r, Judge(r, p).attempt, p, op.now),
                 CommitAccount(s.account, p.success));
    }
  }

  lemma CancelCurrent(s: Ledger, op: Op, id: Id)
    requires op.OpCancel? && id in s.requests && id in Step(s, op).requests
    ensures CurrentOk(s.requests[id], Step(s, op).requests[id], id in Named(op))
  {
    if op.id in s.requests {
      EndRecords(s, op.id, CancelledRecord(s.requests[op.id], op.reason, op.sequence, op.now),
                 s.account.(cancelled := s.account.cancelled + 1));
    }
  }

  /** A retired attempt returns exactly when it is named again to a waiting request that can bind one more. */
  lemma RevalidationMayReturn(s: Ledger, id: Id, b: Id, a: Id, now: int)
    requires Structured(s) && id in s.requests && Retired(s.requests[id], a)
    ensures var r := s.requests[id];
      RevalidateRequest(s, id, b, now).ledger.requests[id].IsCurrent(a) <==>
      && b == a && r.requiresRevalidation && !r.IsTerminal() && |r.attempts| < s.limits.maxAttempts
  {
    assert At(id);
    var r := s.requests[id];
    assert !r.attempts[Find(r.attempts, a)].id.IsNil();
  }
}
