/**
 * What every operation keeps of one request record: the shape of its attempts, the direction of its
 * stages, and the finality of endings. These hold without any discipline on the callers.
 */
module LedgerRecords {
  import opened Ids
  import opened Traffic
  import opened Reasons
  import opened LedgerModel
  import opened LedgerAccounting

  ghost predicate AllTerminal(attempts: seq<Attempt>) {
    forall i | 0 <= i < |attempts| :: AttemptTerminal(attempts[i].lifecycle)
  }

  /** Attempt i carries generation i + 1, and only a terminal attempt sits on a terminal stage. */
  ghost predicate AttemptsOk(attempts: seq<Attempt>) {
    && |attempts| <= MAX_ATTEMPTS
    && forall i | 0 <= i < |attempts| ::
         && attempts[i].generation == i + 1
         && !attempts[i].id.IsNil()
         && (StageTerminal(attempts[i].stage) ==> AttemptTerminal(attempts[i].lifecycle))
  }

  /** The current attempt is always the last one bound. */
  ghost predicate CurrentIsLast(r: Request) {
    && r.currentAttemptGeneration == |r.attempts|
    && r.currentAttempt == if r.attempts == [] then NIL else r.attempts[|r.attempts| - 1].id
  }

  /** An attempt completes only by the commit that ends its request. */
  ghost predicate NoneCompleted(attempts: seq<Attempt>) {
    forall i | 0 <= i < |attempts| :: !attempts[i].lifecycle.AttemptCompleted?
  }

  ghost predicate RecordOk(id: Id, r: Request) {
    && r.id == id && !id.IsNil()
    && AttemptsOk(r.attempts)
    && CurrentIsLast(r)
    && (r.lifecycle.Cancelled? ==> AllTerminal(r.attempts))
    && (r.authorityFloor != 0 ==> r.lifecycle.Cancelled?)
    && (!r.IsTerminal() ==> NoneCompleted(r.attempts))
  }

  /** Stages only move forward in declaration order, and a terminal attempt stays terminal. */
  ghost predicate AttemptsEvolve(before: seq<Attempt>, after: seq<Attempt>) {
    && |before| <= |after|
    && forall i | 0 <= i < |before| ::
         && after[i].id == before[i].id && after[i].generation == before[i].generation
         && StageIndex(before[i].stage) <= StageIndex(after[i].stage)
         && (AttemptTerminal(before[i].lifecycle) ==> AttemptTerminal(after[i].lifecycle))
  }

  /** Ended requests stay ended, and a cancelled one stays cancelled with its attempts frozen. */
  ghost predicate Evolves(r: Request, r': Request) {
    && AttemptsEvolve(r.attempts, r'.attempts)
    && (r.IsTerminal() ==> r'.IsTerminal() && |r'.attempts| == |r.attempts|
                           && r'.currentAttempt == r.currentAttempt)
    && (r.lifecycle.Cancelled? ==> r'.lifecycle.Cancelled?)
    && r.authorityFloor <= r'.authorityFloor
  }

  lemma EvolvesTransitive(a: Request, b: Request, c: Request)
    requires Evolves(a, b) && Evolves(b, c)
    ensures Evolves(a, c)
  {
  }

  ghost predicate Sound(id: Id, r: Request, r': Request) { RecordOk(id, r') && Evolves(r, r') }

  lemma TransitionForward(from: Stage, to: Stage)
    requires LegalTransition(from, to)
    ensures StageIndex(from) <= StageIndex(to)
  {
  }

  lemma NonTerminalStageLow(s: Stage)
    requires !StageTerminal(s)
    ensures StageIndex(s) <= StageIndex(StageCompleted)
  {
  }

  /** Replacing one attempt by a later form of itself. */
  lemma ReplaceSound(id: Id, r: Request, i: nat, a: Attempt, r': Request)
    requires RecordOk(id, r) && i < |r.attempts|
    requires a.id == r.attempts[i].id && a.generation == r.attempts[i].generation
    requires StageIndex(r.attempts[i].stage) <= StageIndex(a.stage)
    requires AttemptTerminal(r.attempts[i].lifecycle) ==> AttemptTerminal(a.lifecycle)
    requires StageTerminal(a.stage) ==> AttemptTerminal(a.lifecycle)
    requires r'.attempts == r.attempts[i := a]
    requires r'.id == r.id && r'.currentAttempt == r.currentAttempt
    requires r'.currentAttemptGeneration == r.currentAttemptGeneration
    requires r'.authorityFloor == r.authorityFloor
    requires r.IsTerminal() ==> r'.IsTerminal()
    requires r.lifecycle.Cancelled? <==> r'.lifecycle.Cancelled?
    requires !r'.IsTerminal() ==> !a.lifecycle.AttemptCompleted?
    ensures Sound(id, r, r')
  {
  }

  /** Binding a fresh attempt behind the others. */
  lemma BindSound(id: Id, r: Request, a: Attempt, r': Request)
    requires RecordOk(id, r) && !r.IsTerminal() && |r.attempts| < MAX_ATTEMPTS
    requires a.generation == |r.attempts| + 1 && !a.id.IsNil() && a.stage.StageUnknown?
    requires a.lifecycle.AttemptRegistered?
    requires r'.attempts == r.attempts + [a] && r'.currentAttempt == a.id
    requires r'.currentAttemptGeneration == a.generation && r'.id == r.id
    requires !r'.lifecycle.Cancelled? && r'.authorityFloor == r.authorityFloor
    ensures Sound(id, r, r')
  {
  }

  lemma BoundSound(l: Limits, id: Id, r: Request, a: Id, h: Word64, g: Generation, t: Generation, now: int)
    requires RecordOk(id, r) && l.maxAttempts <= MAX_ATTEMPTS && !a.IsNil()
    requires BoundRecord(l, r, a, h, g, t, now).Success?
    ensures Sound(id, r, BoundRecord(l, r, a, h, g, t, now).value)
  {
    BindSound(id, r, NewAttempt(a, |r.attempts| + 1, h, g, t, now),
              BoundRecord(l, r, a, h, g, t, now).value);
  }

  lemma RevalidatedSound(l: Limits, id: Id, r: Request, a: Id, now: int)
    requires RecordOk(id, r) && l.maxAttempts <= MAX_ATTEMPTS
    requires RevalidatedRecord(l, r, a, now).Success?
    ensures Sound(id, r, RevalidatedRecord(l, r, a, now).value)
  {
    BindSound(id, r, NewAttempt(a, |r.attempts| + 1, 0, 0, 0, now),
              RevalidatedRecord(l, r, a, now).value);
  }

  lemma AdvancedSound(id: Id, r: Request, a: Id, target: Stage, now: int)
    requires RecordOk(id, r) && !StageTerminal(target)
    requires AdvancedRecord(r, a, target, now).Success?
    ensures Sound(id, r, AdvancedRecord(r, a, target, now).value)
  {
    var i := Find(r.attempts, a);
    TransitionForward(r.attempts[i].stage, target);
    ReplaceSound(id, r, i, AdvancedAttempt(r.attempts[i], target, now),
                 AdvancedRecord(r, a, target, now).value);
  }

  lemma FailedSound(id: Id, r: Request, a: Id, reason: Reason, now: int)
    requires RecordOk(id, r) && FailedRecord(r, a, reason, now).Success?
    ensures Sound(id, r, FailedRecord(r, a, reason, now).value)
  {
    var i := Find(r.attempts, a);
    if !r.attempts[i].lifecycle.AttemptFailed? {
      ReplaceSound(id, r, i, FailedAttempt(r.attempts[i], reason, now),
                   FailedRecord(r, a, reason, now).value);
    }
  }

  lemma SupersededSound(l: Limits, id: Id, r: Request, a: Id, b: Id, now: int)
    requires RecordOk(id, r) && l.maxAttempts <= MAX_ATTEMPTS && !b.IsNil()
    requires SupersededRecord(l, r, a, b, now).Success?
    ensures Sound(id, r, SupersededRecord(l, r, a, b, now).value)
  {
    var i := Find(r.attempts, a);
    var entry := r.attempts[i].(lifecycle := AttemptSuperseded, reason := ATTEMPT_SUPERSEDED,
                                updatedAt := now);
    var mid := WithAttempt(r, i, entry);
    ReplaceSound(id, r, i, entry, mid);
    BindSound(id, mid, NewAttempt(b, |r.attempts| + 1, entry.modelHash, entry.modelGeneration, 0, now),
              SupersededRecord(l, r, a, b, now).value);
  }

  lemma RemodelledSound(id: Id, r: Request, a: Id, h: Word64, g: Generation)
    requires RecordOk(id, r) && RemodelledRecord(r, a, h, g).Success?
    ensures Sound(id, r, RemodelledRecord(r, a, h, g).value)
  {
    var i := Find(r.attempts, a);
    ReplaceSound(id, r, i, r.attempts[i].(modelHash := h, modelGeneration := g),
                 RemodelledRecord(r, a, h, g).value);
  }

  lemma TallySound(id: Id, r: Request, a: Id, v: Verdict)
    requires RecordOk(id, r)
    ensures Sound(id, r, Tally(r, a, v))
  {
    var i := Find(r.attempts, a);
    if i >= 0 {
      ReplaceSound(id, r, i, Tally(r, a, v).attempts[i], Tally(r, a, v));
    }
  }

  lemma CancelledSound(id: Id, r: Request, reason: Reason, sequence: Generation, now: int)
    requires RecordOk(id, r) && !r.IsTerminal()
    ensures Sound(id, r, CancelledRecord(r, reason, sequence, now))
    ensures AllTerminal(CancelledRecord(r, reason, sequence, now).attempts)
  {
  }

  lemma InterruptedSound(id: Id, r: Request, now: int)
    requires RecordOk(id, r) && !r.IsTerminal()
    ensures Sound(id, r, InterruptedRecord(r, now))
    ensures AllTerminal(InterruptedRecord(r, now).attempts)
  {
  }

  /** A committed attempt was not on a terminal stage, so its stage moves forward. */
  lemma CommittedSound(id: Id, r: Request, p: Publication, now: int)
    requires RecordOk(id, r) && Judge(r, p).Commit?
    ensures Sound(id, r, CommittedRecord(r, Judge(r, p).attempt, p, now))
  {
    var i := Judge(r, p).attempt;
    NonTerminalStageLow(r.attempts[i].stage);
    ReplaceSound(id, r, i, CommittedAttempt(r.attempts[i], p, now), CommittedRecord(r, i, p, now));
  }

  // ---------------------------------------------------------------------------------------------
  // Ledgers of sound records
  // ---------------------------------------------------------------------------------------------

  ghost predicate RecordsOk(requests: Requests) {
    forall id {:trigger At(id)} :: At(id) && id in requests ==> RecordOk(id, requests[id])
  }

  /** Every record kept is sound, and none that was there before has gone backwards. */
  ghost predicate RecordsEvolve(requests: Requests, requests': Requests) {
    forall id {:trigger At(id)} ::
      At(id) && id in requests && id in requests' ==> Evolves(requests[id], requests'[id])
  }

  ghost predicate Structured(s: Ledger) { RecordsOk(s.requests) && s.limits.maxAttempts <= MAX_ATTEMPTS }

  /** Restored records must be sound; every other operation is unconstrained. */
  ghost predicate SoundOp(op: Op) { op.OpRestore? ==> RecordOk(op.record.id, op.record) }

  ghost predicate StepSound(s: Ledger, s': Ledger) {
    RecordsOk(s'.requests) && RecordsEvolve(s.requests, s'.requests) && s'.limits == s.limits
  }

  lemma RewriteSound(s: Ledger, s': Ledger, id: Id, r: Request)
    requires Structured(s) && id in s.requests && Sound(id, s.requests[id], r)
    requires s'.requests == s.requests[id := r] && s'.limits == s.limits
    ensures StepSound(s, s')
  {
  }

  /** Ending a request leaves a part of the records, the ended one among them. */
  lemma EndRecords(s: Ledger, id: Id, r: Request, account: Account)
    ensures var s' := End(s, id, r, account);
      && s'.limits == s.limits
      && s'.requests.Keys <= s.requests.Keys + {id}
      && forall k | k in s'.requests ::
           s'.requests[k] == if k == id then r.(activeFlows := 0, accountingClosed := true)
                             else s.requests[k]
  {
    var released := ReleaseRequestFlows(s, id, r);
    EvictFramed(released.(terminalOrder := released.terminalOrder + [id],
                          account := account.(activeTotal := released.account.activeTotal,
                                              activeByClass := released.account.activeByClass)));
  }

  lemma EndSound(s: Ledger, id: Id, r: Request, account: Account)
    requires Structured(s) && id in s.requests && Sound(id, s.requests[id], r)
    ensures StepSound(s, End(s, id, r, account))
  {
    EndRecords(s, id, r, account);
  }

  lemma BindingSound(s: Ledger, op: Op)
    requires Structured(s) && (op.OpAttempt? || op.OpRevalidate? || op.OpSupersede?)
    ensures StepSound(s, Step(s, op))
  {
    if At(op.id) && op.id in s.requests {
      var r := s.requests[op.id];
      match op
      case OpAttempt(id, a, h, g, t, now) =>
        var r' := BoundRecord(s.limits, r, a, h, g, t, now);
        if !a.IsNil() && r'.Success? {
          BoundSound(s.limits, id, r, a, h, g, t, now);
          RewriteSound(s, Step(s, op), id, r'.value);
        }
      case OpRevalidate(id, a, now) =>
        var r' := RevalidatedRecord(s.limits, r, a, now);
        if r'.Success? {
          RevalidatedSound(s.limits, id, r, a, now);
          RewriteSound(s, Step(s, op), id, r'.value);
        }
      case OpSupersede(id, a, b, now) =>
        var r' := SupersededRecord(s.limits, r, a, b, now);
        if !b.IsNil() && r'.Success? {
          SupersededSound(s.limits, id, r, a, b, now);
          RewriteSound(s, Step(s, op), id, r'.value);
        }
    }
  }

  lemma RewritingSound(s: Ledger, op: Op)
    requires Structured(s) && (op.OpAdvance? || op.OpSetModel? || op.OpDecision?)
    ensures StepSound(s, Step(s, op))
  {
    if At(op.id) && op.id in s.requests {
      var r := s.requests[op.id];
      match op
      case OpAdvance(id, a, target, now) =>
        var r' := AdvancedRecord(r, a, target, now);
        if !StageTerminal(target) && r'.Success? {
          AdvancedSound(id, r, a, target, now);
          if !target.StageUnknown? { RewriteSound(s, Step(s, op), id, r'.value); }
        }
      case OpSetModel(id, a, h, g) =>
        var r' := RemodelledRecord(r, a, h, g);
        if r'.Success? {
          RemodelledSound(id, r, a, h, g);
          RewriteSound(s, Step(s, op), id, r'.value);
        }
      case OpDecision(id, a, v) =>
        TallySound(id, r, a, v);
        RewriteSound(s, Step(s, op), id, Tally(r, a, v));
    }
  }

  lemma FailSound(s: Ledger, op: Op)
    requires Structured(s) && op.OpFail?
    ensures StepSound(s, Step(s, op))
  {
    if At(op.id) && op.id in s.requests {
      var r' := FailedRecord(s.requests[op.id], op.attempt, op.reason, op.now);
      if r'.Success? {
        FailedSound(op.id, s.requests[op.id], op.attempt, op.reason, op.now);
        EndSound(s, op.id, r'.value, s.account.(attemptsFailed := s.account.attemptsFailed + 1,
                                                failed := s.account.failed + 1));
      }
    }
  }

  lemma PublishSound(s: Ledger, op: Op)
    requires Structured(s) && op.OpPublish?
    ensures StepSound(s, Step(s, op))
  {
    var p := op.publication;
    if At(p.request) && p.request in s.requests && Judge(s.requests[p.request], p).Commit? {
      var r := s.requests[p.request];
      CommittedSound(p.request, r, p, op.now);
      EndSound(s, p.request, CommittedRecord(r, Judge(r, p).attempt, p, op.now),
               CommitAccount(s.account, p.success));
    }
  }

  lemma CancelSound(s: Ledger, op: Op)
    requires Structured(s) && op.OpCancel?
    ensures StepSound(s, Step(s, op))
  {
    if At(op.id) && op.id in s.requests {
      var r := s.requests[op.id];
      if r.lifecycle.Cancelled? {
        RewriteSound(s, Step(s, op), op.id,
                     r.(authorityFloor := RaisedFloor(r.authorityFloor, op.sequence)));
      } else if !r.IsTerminal() {
        CancelledSound(op.id, r, op.reason, op.sequence, op.now);
        EndSound(s, op.id, CancelledRecord(r, op.reason, op.sequence, op.now),
                 s.account.(cancelled := s.account.cancelled + 1));
      }
    }
  }

  lemma InterruptSound(s: Ledger, op: Op)
    requires Structured(s) && op.OpInterrupt?
    ensures StepSound(s, Step(s, op))
  {
    if At(op.id) && op.id in s.requests && !s.requests[op.id].IsTerminal() {
      var r := s.requests[op.id];
      InterruptedSound(op.id, r, op.now);
      RewriteSound(s, Step(s, op), op.id,
                   InterruptedRecord(r, op.now).(activeFlows := 0, accountingClosed := false));
    }
  }

  lemma FlowStepSound(s: Ledger, op: Op)
    requires Structured(s) && (op.OpOpen? || op.OpRelease? || op.OpBytes?)
    ensures StepSound(s, Step(s, op))
  {
    match op
    case OpOpen(_, _, _, _, _, _) => OpenStepSound(s, op);
    case OpRelease(f) => ReleaseStepSound(s, f);
    case OpBytes(f, bytes, inbound) => BytesStepSound(s, f, bytes, inbound);
  }

  lemma OpenStepSound(s: Ledger, op: Op)
    requires Structured(s) && op.OpOpen?
    ensures StepSound(s, Step(s, op))
  {
    var s' := Step(s, op);
    if At(op.id) && s' != s { RewriteSound(s, s', op.id, s'.requests[op.id]); }
  }

  lemma ReleaseStepSound(s: Ledger, f: FlowId)
    requires Structured(s)
    ensures StepSound(s, ReleaseFlow(s, f).ledger)
  {
    if f in s.flows {
      var s', id := ReleaseFlow(s, f).ledger, s.flows[f].request;
      if At(id) && id in s.requests { RewriteSound(s, s', id, s'.requests[id]); }
    }
  }

  lemma BytesStepSound(s: Ledger, f: FlowId, bytes: nat, inbound: bool)
    requires Structured(s)
    ensures StepSound(s, RecordFlowBytes(s, f, bytes, inbound).ledger)
  {
    if f in s.flows {
      var s', id := RecordFlowBytes(s, f, bytes, inbound).ledger, s.flows[f].request;
      if At(id) && id in s.requests { RewriteSound(s, s', id, s'.requests[id]); }
    }
  }

  lemma RestoredOk(r: Request)
    requires RecordOk(r.id, r)
    ensures RecordOk(r.id, Restored(r))
  {
  }

  lemma RestoreSound(s: Ledger, op: Op)
    requires Structured(s) && SoundOp(op) && op.OpRestore?
    ensures StepSound(s, Step(s, op))
  {
    var r := op.record;
    if RestoreRecord(s, r).result.Success? {
      RestoredOk(r);
      var put := s.(requests := s.requests[r.id := Restored(r)],
                    terminalOrder := if r.IsTerminal() then s.terminalOrder + [r.id]
                                     else s.terminalOrder,
                    account := RestoredAccount(s.account, r.lifecycle));
      assert StepSound(s, put);
      EvictFramed(put);
    }
  }

  /** Every operation keeps every record sound and lets none go backwards. */
  lemma StepKeepsRecords(s: Ledger, op: Op)
    requires Structured(s) && SoundOp(op)
    ensures StepSound(s, Step(s, op))
  {
    match op
    case OpRegister(_, _) =>
    case OpAttempt(_, _, _, _, _, _) => BindingSound(s, op);
    case OpRevalidate(_, _, _) => BindingSound(s, op);
    case OpSupersede(_, _, _, _) => BindingSound(s, op);
    case OpAdvance(_, _, _, _) => RewritingSound(s, op);
    case OpSetModel(_, _, _, _) => RewritingSound(s, op);
    case OpDecision(_, _, _) => RewritingSound(s, op);
    case OpFail(_, _, _, _) => FailSound(s, op);
    case OpPublish(_, _) => PublishSound(s, op);
    case OpCancel(_, _, _, _) => CancelSound(s, op);
    case OpInterrupt(_, _) => InterruptSound(s, op);
    case OpOpen(_, _, _, _, _, _) => FlowStepSound(s, op);
    case OpRelease(_) => FlowStepSound(s, op);
    case OpBytes(_, _, _) => FlowStepSound(s, op);
    case OpRestore(_) => RestoreSound(s, op);
  }

  // ---------------------------------------------------------------------------------------------
  // Runs
  // ---------------------------------------------------------------------------------------------

  ghost predicate SoundOps(ops: seq<Op>) { forall i | 0 <= i < |ops| :: SoundOp(ops[i]) }

  /** The record is in the ledger before and after every operation of the run. */
  ghost predicate Retained(s: Ledger, ops: seq<Op>, id: Id)
    decreases |ops|
  {
    id in s.requests && (ops != [] ==> Retained(Step(s, ops[0]), ops[1..], id))
  }

  /**
   * Over any run that retains a record, its attempts keep their places, each stage only moves
   * forward, ended stays ended and cancelled stays cancelled.
   */
  lemma {:induction false} RecordsOnlyMoveForward(s: Ledger, ops: seq<Op>, id: Id)
    requires Structured(s) && SoundOps(ops) && Retained(s, ops, id)
    ensures Structured(Run(s, ops)) && id in Run(s, ops).requests
    ensures Evolves(s.requests[id], Run(s, ops).requests[id])
    decreases |ops|
  {
    assert At(id);
    if ops == [] {
    } else {
      var s' := Step(s, ops[0]);
      StepKeepsRecords(s, ops[0]);
      RecordsOnlyMoveForward(s', ops[1..], id);
      EvolvesTransitive(s.requests[id], s'.requests[id], Run(s', ops[1..]).requests[id]);
    }
  }

  // ---------------------------------------------------------------------------------------------
  // Commits
  // ---------------------------------------------------------------------------------------------

  predicate Commits(s: Ledger, op: Op, id: Id) {
    && op.OpPublish? && op.publication.request == id
    && PublishCompletion(s, op.publication, op.now).result.Success?
    && PublishCompletion(s, op.publication, op.now).result.value.disposition.Committed?
  }

  function CommitCount(s: Ledger, ops: seq<Op>, id: Id): nat
    decreases |ops|
  {
    if ops == [] then 0
    else (if Commits(s, ops[0], id) then 1 else 0) + CommitCount(Step(s, ops[0]), ops[1..], id)
  }

  /** A commit finds the request open and leaves it ended. */
  lemma CommitEnds(s: Ledger, op: Op, id: Id)
    requires Commits(s, op, id)
    ensures id in s.requests && !s.requests[id].IsTerminal()
    ensures id in Step(s, op).requests ==> Step(s, op).requests[id].IsTerminal()
  {
    var p := op.publication;
    var r := s.requests[id];
    EndRecords(s, id, CommittedRecord(r, Judge(r, p).attempt, p, op.now),
               CommitAccount(s.account, p.success));
  }

  /** At most one publication about a retained record is ever committed, and none once it has ended. */
  lemma {:induction false} CommitsAreUnique(s: Ledger, ops: seq<Op>, id: Id)
    requires Structured(s) && SoundOps(ops) && Retained(s, ops, id)
    ensures CommitCount(s, ops, id) <= if s.requests[id].IsTerminal() then 0 else 1
    decreases |ops|
  {
    assert At(id);
    if ops == [] {
    } else {
      StepKeepsRecords(s, ops[0]);
      if Commits(s, ops[0], id) { CommitEnds(s, ops[0], id); }
      CommitsAreUnique(Step(s, ops[0]), ops[1..], id);
    }
  }

  // ---------------------------------------------------------------------------------------------
  // The queue of endings
  // ---------------------------------------------------------------------------------------------

  predicate QueueWithin(s: Ledger) { |s.terminalOrder| <= s.limits.maxRetained }

  lemma {:induction false} EvictBounds(s: Ledger)
    ensures QueueWithin(Evict(s))
    decreases |s.terminalOrder|
  {
    if QueueWithin(s) {
    } else {
      var victim := s.terminalOrder[0];
      var popped := s.(terminalOrder := s.terminalOrder[1..]);
      if victim in s.requests && s.requests[victim].IsTerminal() {
        EvictBounds(popped.(requests := s.requests - {victim},
                            account := s.account.(evicted := s.account.evicted + 1)));
      } else {
        EvictBounds(popped);
      }
    }
  }

  lemma EndBounds(s: Ledger, id: Id, r: Request, account: Account)
    ensures QueueWithin(End(s, id, r, account))
  {
    var released := ReleaseRequestFlows(s, id, r);
    EvictBounds(released.(terminalOrder := released.terminalOrder + [id],
                          account := account.(activeTotal := released.account.activeTotal,
                                              activeByClass := released.account.activeByClass)));
  }

  lemma EndingBounds(s: Ledger, op: Op)
    requires QueueWithin(s) && (op.OpFail? || op.OpCancel? || op.OpPublish?)
    ensures QueueWithin(Step(s, op))
  {
    match op
    case OpFail(id, a, reason, now) =>
      if id in s.requests {
        var r' := FailedRecord(s.requests[id], a, reason, now);
        if r'.Success? {
          EndBounds(s, id, r'.value, s.account.(attemptsFailed := s.account.attemptsFailed + 1,
                                                failed := s.account.failed + 1));
        }
      }
    case OpCancel(id, reason, sequence, now) =>
      if id in s.requests {
        EndBounds(s, id, CancelledRecord(s.requests[id], reason, sequence, now),
                  s.account.(cancelled := s.account.cancelled + 1));
      }
    case OpPublish(p, now) =>
      if p.request in s.requests && Judge(s.requests[p.request], p).Commit? {
        EndBounds(s, p.request, CommittedRecord(s.requests[p.request], Judge(s.requests[p.request], p).attempt, p, now),
                  CommitAccount(s.account, p.success));
      }
  }

  /** The queue of endings never outgrows the ceiling on retained records. */
  lemma StepBounds(s: Ledger, op: Op)
    requires QueueWithin(s)
    ensures QueueWithin(Step(s, op))
  {
    match op
    case OpFail(_, _, _, _) => EndingBounds(s, op);
    case OpCancel(_, _, _, _) => EndingBounds(s, op);
    case OpPublish(_, _) => EndingBounds(s, op);
    case OpRestore(r) =>
      EvictBounds(s.(requests := s.requests[r.id := Restored(r)],
                     terminalOrder := if r.IsTerminal() then s.terminalOrder + [r.id] else s.terminalOrder,
                     account := RestoredAccount(s.account, r.lifecycle)));
    case _ =>
  }

  /** Every ended record is queued; the converse needs the discipline of `LedgerHistory`. */
  ghost predicate EndedQueued(requests: Requests, order: seq<Id>) {
    forall id {:trigger At(id)} :: At(id) && id in requests && requests[id].IsTerminal() ==> id in order
  }

  lemma {:induction false} EvictQueues(s: Ledger)
    requires EndedQueued(s.requests, s.terminalOrder)
    ensures EndedQueued(Evict(s).requests, Evict(s).terminalOrder)
    decreases |s.terminalOrder|
  {
    if QueueWithin(s) {
    } else {
      var victim := s.terminalOrder[0];
      var popped := s.(terminalOrder := s.terminalOrder[1..]);
      if victim in s.requests && s.requests[victim].IsTerminal() {
        EvictQueues(popped.(requests := s.requests - {victim},
                            account := s.account.(evicted := s.account.evicted + 1)));
      } else {
        EvictQueues(popped);
      }
    }
  }

  lemma EndQueues(s: Ledger, id: Id, r: Request, account: Account)
    requires EndedQueued(s.requests, s.terminalOrder)
    ensures var s' := End(s, id, r, account); EndedQueued(s'.requests, s'.terminalOrder)
  {
    var released := ReleaseRequestFlows(s, id, r);
    EvictQueues(released.(terminalOrder := released.terminalOrder + [id],
                          account := account.(activeTotal := released.account.activeTotal,
                                              activeByClass := released.account.activeByClass)));
  }

  lemma EndingQueues(s: Ledger, op: Op)
    requires EndedQueued(s.requests, s.terminalOrder) && (op.OpFail? || op.OpCancel? || op.OpPublish?)
    ensures EndedQueued(Step(s, op).requests, Step(s, op).terminalOrder)
  {
    match op
    case OpFail(id, a, reason, now) =>
      if id in s.requests {
        var r' := FailedRecord(s.requests[id], a, reason, now);
        if r'.Success? {
          EndQueues(s, id, r'.value, s.account.(attemptsFailed := s.account.attemptsFailed + 1,
                                                failed := s.account.failed + 1));
        }
      }
    case OpCancel(id, reason, sequence, now) =>
      if id in s.requests {
        EndQueues(s, id, CancelledRecord(s.requests[id], reason, sequence, now),
                  s.account.(cancelled := s.account.cancelled + 1));
      }
    case OpPublish(p, now) =>
      if p.request in s.requests && Judge(s.requests[p.request], p).Commit? {
        EndQueues(s, p.request, CommittedRecord(s.requests[p.request], Judge(s.requests[p.request], p).attempt, p, now),
                  CommitAccount(s.account, p.success));
      }
  }

  lemma RestoreKeepsQueued(s: Ledger, r: Request)
    requires EndedQueued(s.requests, s.terminalOrder)
    ensures EndedQueued(RestoreRecord(s, r).ledger.requests, RestoreRecord(s, r).ledger.terminalOrder)
  {
    EvictQueues(s.(requests := s.requests[r.id := Restored(r)],
                   terminalOrder := if r.IsTerminal() then s.terminalOrder + [r.id] else s.terminalOrder,
                   account := RestoredAccount(s.account, r.lifecycle)));
  }

  /** No operation leaves an ended record outside the queue. */
  lemma StepQueues(s: Ledger, op: Op)
    requires EndedQueued(s.requests, s.terminalOrder)
    ensures EndedQueued(Step(s, op).requests, Step(s, op).terminalOrder)
  {
    match op
    case OpFail(_, _, _, _) => EndingQueues(s, op);
    case OpCancel(_, _, _, _) => EndingQueues(s, op);
    case OpPublish(_, _) => EndingQueues(s, op);
    case OpRestore(r) => RestoreKeepsQueued(s, r);
    case OpRegister(_, _) =>
    case OpAttempt(_, _, _, _, _, _) => BindingEndsNothing(s, op);
    case OpRevalidate(_, _, _) => BindingEndsNothing(s, op);
    case OpSupersede(_, _, _, _) => BindingEndsNothing(s, op);
    case OpAdvance(_, _, _, _) => RewritingEndsNothing(s, op);
    case OpSetModel(_, _, _, _) => RewritingEndsNothing(s, op);
    case OpDecision(_, _, _) => RewritingEndsNothing(s, op);
    case OpInterrupt(_, _) => FlowsEndNothing(s, op);
    case OpOpen(_, _, _, _, _, _) => FlowsEndNothing(s, op);
    case OpRelease(_) => FlowsEndNothing(s, op);
    case OpBytes(_, _, _) => FlowsEndNothing(s, op);
  }

  /** The queue stands, and no record ends. */
  ghost predicate NoneEnds(s: Ledger, s': Ledger) {
    && s'.terminalOrder == s.terminalOrder
    && forall id {:trigger At(id)} :: At(id) && id in s'.requests && s'.requests[id].IsTerminal() ==>
         id in s.requests && s.requests[id].IsTerminal()
  }

  lemma BindingEndsNothing(s: Ledger, op: Op)
    requires op.OpAttempt? || op.OpRevalidate? || op.OpSupersede?
    ensures NoneEnds(s, Step(s, op))
  {
  }

  lemma RewritingEndsNothing(s: Ledger, op: Op)
    requires op.OpAdvance? || op.OpSetModel? || op.OpDecision?
    ensures NoneEnds(s, Step(s, op))
  {
  }

  lemma FlowsEndNothing(s: Ledger, op: Op)
    requires op.OpInterrupt? || op.OpOpen? || op.OpRelease? || op.OpBytes?
    ensures NoneEnds(s, Step(s, op))
  {
  }
}
