/** Runs on which the ledger leaves its own invariants, each by a call its interface allows. */
module LedgerFindings {
  import opened Ids
  import opened Reasons
  import opened LedgerModel

  /** Register, bind a, bind b while a is live, complete a, fail b. */
  function TwoLiveAttempts(id: Id, a: Id, b: Id): seq<Op> {
    [OpRegister(id, 0), OpAttempt(id, a, 0, 0, 0, 0), OpAttempt(id, b, 0, 0, 0, 0),
     OpPublish(Publication(id, a, 0, true, UNKNOWN, 0, 0), 0), OpFail(id, b, ATTEMPT_FAILED, 0)]
  }

  lemma {:induction false} RunAppend(s: Ledger, ops: seq<Op>, op: Op)
    ensures Run(s, ops + [op]) == Step(Run(s, ops), op)
    decreases |ops|
  {
    if ops == [] {
    } else {
      assert (ops + [op])[1..] == ops[1..] + [op];
      RunAppend(Step(s, ops[0]), ops[1..], op);
    }
  }

  /** The ledger holds these records and this queue, and no flow is open. */
  predicate Rests(s: Ledger, l: Limits, requests: map<Id, Request>, order: seq<Id>) {
    s.limits == l && s.requests == requests && s.terminalOrder == order && s.index == {} && s.flows == map[]
  }

  predicate Holds(s: Ledger, l: Limits, id: Id, r: Request, order: seq<Id>) { Rests(s, l, map[id := r], order) }

  lemma RegisterRests(s: Ledger, id: Id)
    requires Rests(s, s.limits, s.requests, s.terminalOrder) && id !in s.requests && !id.IsNil()
    requires |s.terminalOrder| <= |s.requests| < |s.terminalOrder| + s.limits.maxLive && |s.requests| < TWO_64
    ensures Rests(Step(s, OpRegister(id, 0)), s.limits, s.requests[id := NewRequest(id, 0)], s.terminalOrder)
  {
  }

  lemma BindRests(s: Ledger, id: Id, a: Id)
    requires Rests(s, s.limits, s.requests, s.terminalOrder) && id in s.requests && !a.IsNil()
    requires var r := s.requests[id];
      && !r.IsTerminal() && !r.requiresRevalidation && !r.lifecycle.Interrupted?
      && Find(r.attempts, a) < 0 && |r.attempts| < s.limits.maxAttempts
    ensures var r := s.requests[id];
      Rests(Step(s, OpAttempt(id, a, 0, 0, 0, 0)), s.limits,
            s.requests[id := Bind(r, NewAttempt(a, |r.attempts| + 1, 0, 0, 0, 0))], s.terminalOrder)
  {
  }

  /** An ending that the queue has room for. */
  lemma EndRests(s: Ledger, id: Id, r: Request, account: Account)
    requires Rests(s, s.limits, s.requests, s.terminalOrder) && id in s.requests
    requires |s.terminalOrder| < s.limits.maxRetained
    ensures Rests(End(s, id, r, account), s.limits, s.requests[id := Closed(r)], s.terminalOrder + [id])
  {
    assert EntriesOf(s.index, id) == {} && FlowIds({}) == {};
  }

  /** An ending that makes the queue drop its oldest entry, and the record with it. */
  lemma EndEvicts(s: Ledger, id: Id, r: Request, account: Account)
    requires Rests(s, s.limits, s.requests, s.terminalOrder) && id in s.requests
    requires |s.terminalOrder| == s.limits.maxRetained > 0
    requires var oldest := s.terminalOrder[0];
      oldest in s.requests && oldest != id && s.requests[oldest].IsTerminal()
    ensures Rests(End(s, id, r, account), s.limits, s.requests[id := Closed(r)] - {s.terminalOrder[0]},
                  s.terminalOrder[1..] + [id])
  {
    assert EntriesOf(s.index, id) == {} && FlowIds({}) == {};
    var released := ReleaseRequestFlows(s, id, r);
    OneEvicted(released.(terminalOrder := released.terminalOrder + [id],
                         account := account.(activeTotal := released.account.activeTotal,
                                             activeByClass := released.account.activeByClass)));
    assert (s.terminalOrder + [id])[1..] == s.terminalOrder[1..] + [id];
  }

  lemma OneEvicted(s: Ledger)
    requires |s.terminalOrder| == s.limits.maxRetained + 1
    requires s.terminalOrder[0] in s.requests && s.requests[s.terminalOrder[0]].IsTerminal()
    ensures Evict(s) == Refresh(s.(terminalOrder := s.terminalOrder[1..], requests := s.requests - {s.terminalOrder[0]},
                                   account := s.account.(evicted := s.account.evicted + 1)))
  {
  }

  lemma AfterRegister(s: Ledger, id: Id)
    requires s.requests == map[] && s.terminalOrder == [] && s.index == {} && s.flows == map[]
    requires !id.IsNil() && s.limits.maxLive >= 1
    ensures Holds(Step(s, OpRegister(id, 0)), s.limits, id, NewRequest(id, 0), [])
  {
    RegisterRests(s, id);
  }

  lemma AfterBind(s: Ledger, id: Id, r: Request, a: Id)
    requires Holds(s, s.limits, id, r, []) && !a.IsNil() && !r.IsTerminal() && !r.requiresRevalidation
    requires Find(r.attempts, a) < 0 && |r.attempts| < s.limits.maxAttempts && !r.lifecycle.Interrupted?
    ensures Holds(Step(s, OpAttempt(id, a, 0, 0, 0, 0)), s.limits, id,
                  Bind(r, NewAttempt(a, |r.attempts| + 1, 0, 0, 0, 0)), [])
  {
    BindRests(s, id, a);
  }

  lemma AfterEnd(s: Ledger, id: Id, r: Request, account: Account)
    requires s.requests.Keys == {id} && s.index == {} && s.flows == map[]
    requires |s.terminalOrder| < s.limits.maxRetained
    ensures Holds(End(s, id, r, account), s.limits, id, Closed(r), s.terminalOrder + [id])
  {
    EndRests(s, id, r, account);
    assert s.requests[id := Closed(r)] == map[id := Closed(r)];
  }

  /**
   * A completed request turns failed, is queued twice, and the live count wraps to its largest value:
   * admission then refuses every new request although none is live.
   */
  lemma UndisciplinedRun(limits: Limits, id: Id, a: Id, b: Id, other: Id)
    requires limits.maxRetained >= 2 && 2 <= limits.maxAttempts <= MAX_ATTEMPTS && 0 < limits.maxLive < TWO_64
    requires !id.IsNil() && !a.IsNil() && !b.IsNil() && a != b && !other.IsNil() && other != id
    ensures var ops := TwoLiveAttempts(id, a, b);
      var s4 := Run(EmptyLedger(limits), ops[..4]);
      var s5 := Run(EmptyLedger(limits), ops);
      && id in s4.requests && s4.requests[id].lifecycle.Completed?
      && id in s5.requests && s5.requests[id].lifecycle.Failed?
      && s5.terminalOrder == [id, id]
      && LiveCount(s5) == TWO_64 - 1
      && RegisterRequest(s5, other, 0).result == Failure(CapacityExhausted)
  {
    EndsTwice(EmptyLedger(limits), id, a, b);
    WrappedRefuses(Run(EmptyLedger(limits), TwoLiveAttempts(id, a, b)), id, other);
  }

  lemma WrappedRefuses(s: Ledger, id: Id, other: Id)
    requires s.requests.Keys == {id} && s.terminalOrder == [id, id] && 0 < s.limits.maxLive < TWO_64
    requires !other.IsNil() && other != id
    ensures LiveCount(s) == TWO_64 - 1 && RegisterRequest(s, other, 0).result == Failure(CapacityExhausted)
  {
    assert |s.requests| == |s.requests.Keys| == 1;
  }

  function TwiceBound(id: Id, a: Id, b: Id): Request {
    Bind(Bind(NewRequest(id, 0), NewAttempt(a, 1, 0, 0, 0, 0)), NewAttempt(b, 2, 0, 0, 0, 0))
  }

  lemma FiveSteps(s: Ledger, ops: seq<Op>)
    requires |ops| == 5
    ensures Run(s, ops[..4]) == Step(Step(Step(Step(s, ops[0]), ops[1]), ops[2]), ops[3])
    ensures Run(s, ops) == Step(Run(s, ops[..4]), ops[4])
  {
    assert ops[..1] == [] + [ops[0]] && ops[..2] == ops[..1] + [ops[1]];
    assert ops[..3] == ops[..2] + [ops[2]] && ops[..4] == ops[..3] + [ops[3]] && ops == ops[..4] + [ops[4]];
    RunAppend(s, [], ops[0]);
    RunAppend(s, ops[..1], ops[1]);
    RunAppend(s, ops[..2], ops[2]);
    RunAppend(s, ops[..3], ops[3]);
    RunAppend(s, ops[..4], ops[4]);
  }

  /** Two live attempts, and nothing has ended. */
  predicate BothLive(r: Request, a: Id, b: Id) {
    && r.lifecycle.Registered? && r.currentAttempt == b && |r.attempts| == 2
    && r.attempts[0] == NewAttempt(a, 1, 0, 0, 0, 0) && r.attempts[1] == NewAttempt(b, 2, 0, 0, 0, 0)
  }

  lemma CompleteFirst(s: Ledger, id: Id, a: Id, b: Id)
    requires Rests(s, s.limits, s.requests, s.terminalOrder) && |s.terminalOrder| < s.limits.maxRetained
    requires id in s.requests && BothLive(s.requests[id], a, b) && !id.IsNil() && !a.IsNil()
    ensures var p := Publication(id, a, 0, true, UNKNOWN, 0, 0);
      Rests(Step(s, OpPublish(p, 0)), s.limits, s.requests[id := Closed(CommittedRecord(s.requests[id], 0, p, 0))],
            s.terminalOrder + [id])
  {
    var p := Publication(id, a, 0, true, UNKNOWN, 0, 0);
    assert Find(s.requests[id].attempts, a) == 0;
    EndRests(s, id, CommittedRecord(s.requests[id], 0, p, 0), CommitAccount(s.account, true));
  }

  lemma FailSecond(s: Ledger, id: Id, b: Id)
    requires Rests(s, s.limits, s.requests, s.terminalOrder) && |s.terminalOrder| < s.limits.maxRetained
    requires id in s.requests
    requires var r := s.requests[id];
      && |r.attempts| == 2 && r.attempts[0].id != b && r.attempts[1].id == b && r.IsCurrent(b)
      && r.attempts[1].lifecycle.AttemptRegistered?
    ensures var r' := FailedRecord(s.requests[id], b, ATTEMPT_FAILED, 0);
      && r'.Success? && r'.value.lifecycle.Failed?
      && Rests(Step(s, OpFail(id, b, ATTEMPT_FAILED, 0)), s.limits, s.requests[id := Closed(r'.value)],
               s.terminalOrder + [id])
  {
    assert Find(s.requests[id].attempts, b) == 1;
    EndRests(s, id, FailedRecord(s.requests[id], b, ATTEMPT_FAILED, 0).value,
             s.account.(attemptsFailed := s.account.attemptsFailed + 1,
                        failed := s.account.failed + 1));
  }

  /** Completing the first attempt and failing the second ends the request twice. */
  lemma BothBound(s: Ledger, id: Id, a: Id, b: Id)
    requires Rests(s, s.limits, s.requests, []) && s.limits.maxRetained >= 2
    requires !id.IsNil() && !a.IsNil() && !b.IsNil() && a != b
    requires id in s.requests && BothLive(s.requests[id], a, b)
    ensures var s4 := Step(s, OpPublish(Publication(id, a, 0, true, UNKNOWN, 0, 0), 0));
      var s5 := Step(s4, OpFail(id, b, ATTEMPT_FAILED, 0));
      && id in s4.requests && s4.requests[id].lifecycle.Completed?
      && id in s5.requests && s5.requests[id].lifecycle.Failed?
      && Rests(s5, s.limits, s.requests[id := s5.requests[id]], [id, id])
  {
    CompleteFirst(s, id, a, b);
    FailSecond(Step(s, OpPublish(Publication(id, a, 0, true, UNKNOWN, 0, 0), 0)), id, b);
  }

  lemma BindsTwice(s: Ledger, id: Id, a: Id, b: Id)
    requires Rests(s, s.limits, s.requests, []) && id !in s.requests
    requires |s.requests| < s.limits.maxLive && |s.requests| < TWO_64 && s.limits.maxAttempts >= 2
    requires !id.IsNil() && !a.IsNil() && !b.IsNil() && a != b
    ensures var s3 := Step(Step(Step(s, OpRegister(id, 0)), OpAttempt(id, a, 0, 0, 0, 0)),
                           OpAttempt(id, b, 0, 0, 0, 0));
      Rests(s3, s.limits, s.requests[id := TwiceBound(id, a, b)], [])
  {
    RegisterRests(s, id);
    var s1 := Step(s, OpRegister(id, 0));
    BindRests(s1, id, a);
    BindRests(Step(s1, OpAttempt(id, a, 0, 0, 0, 0)), id, b);
  }

  /** Two ledgers of such a run: after the completion, and after the failure. */
  predicate TwiceEnded(s: Ledger, s4: Ledger, s5: Ledger, id: Id) {
    && id in s4.requests && s4.requests[id].lifecycle.Completed?
    && id in s5.requests && s5.requests[id].lifecycle.Failed?
    && Rests(s5, s.limits, s.requests[id := s5.requests[id]], [id, id])
  }

  lemma EndsInSteps(s: Ledger, id: Id, a: Id, b: Id)
    requires Rests(s, s.limits, s.requests, []) && id !in s.requests && s.limits.maxRetained >= 2
    requires |s.requests| < s.limits.maxLive && |s.requests| < TWO_64 && s.limits.maxAttempts >= 2
    requires !id.IsNil() && !a.IsNil() && !b.IsNil() && a != b
    ensures var s3 := Step(Step(Step(s, OpRegister(id, 0)), OpAttempt(id, a, 0, 0, 0, 0)),
                           OpAttempt(id, b, 0, 0, 0, 0));
      var s4 := Step(s3, OpPublish(Publication(id, a, 0, true, UNKNOWN, 0, 0), 0));
      TwiceEnded(s, s4, Step(s4, OpFail(id, b, ATTEMPT_FAILED, 0)), id)
  {
    BindsTwice(s, id, a, b);
    var s3 := Step(Step(Step(s, OpRegister(id, 0)), OpAttempt(id, a, 0, 0, 0, 0)), OpAttempt(id, b, 0, 0, 0, 0));
    BothBound(s3, id, a, b);
  }

  /** The five calls of `TwoLiveAttempts`, next to whatever else the ledger holds. */
  lemma EndsTwice(s: Ledger, id: Id, a: Id, b: Id)
    requires Rests(s, s.limits, s.requests, []) && id !in s.requests && s.limits.maxRetained >= 2
    requires |s.requests| < s.limits.maxLive && |s.requests| < TWO_64 && s.limits.maxAttempts >= 2
    requires !id.IsNil() && !a.IsNil() && !b.IsNil() && a != b
    ensures var ops := TwoLiveAttempts(id, a, b); TwiceEnded(s, Run(s, ops[..4]), Run(s, ops), id)
  {
    FiveSteps(s, TwoLiveAttempts(id, a, b));
    EndsInSteps(s, id, a, b);
  }

  // ---------------------------------------------------------------------------------------------
  // A retired attempt returns
  // ---------------------------------------------------------------------------------------------

  /** Register, bind a, replace a by b, interrupt, revalidate naming a. */
  function ReturningAttempt(id: Id, a: Id, b: Id): seq<Op> {
    [OpRegister(id, 0), OpAttempt(id, a, 0, 0, 0, 0), OpSupersede(id, a, b, 0), OpInterrupt(id, 0),
     OpRevalidate(id, a, 0)]
  }

  lemma AfterSupersede(s: Ledger, id: Id, r: Request, a: Id, b: Id)
    requires Holds(s, s.limits, id, r, []) && !b.IsNil() && SupersededRecord(s.limits, r, a, b, 0).Success?
    ensures Holds(Step(s, OpSupersede(id, a, b, 0)), s.limits, id, SupersededRecord(s.limits, r, a, b, 0).value, [])
  {
  }

  function Resting(r: Request): Request { InterruptedRecord(r, 0).(activeFlows := 0, accountingClosed := false) }

  lemma AfterInterrupt(s: Ledger, id: Id, r: Request)
    requires Holds(s, s.limits, id, r, []) && !r.IsTerminal()
    ensures Holds(Step(s, OpInterrupt(id, 0)), s.limits, id, Resting(r), [])
  {
    assert EntriesOf(s.index, id) == {} && FlowIds({}) == {};
  }

  lemma AfterRevalidate(s: Ledger, id: Id, r: Request, a: Id)
    requires Holds(s, s.limits, id, r, []) && RevalidatedRecord(s.limits, r, a, 0).Success?
    ensures Holds(Step(s, OpRevalidate(id, a, 0)), s.limits, id, RevalidatedRecord(s.limits, r, a, 0).value, [])
  {
  }

  /** The request after its first attempt was replaced. */
  function Replaced(l: Limits, id: Id, a: Id, b: Id): Result<Request> {
    SupersededRecord(l, Bind(NewRequest(id, 0), NewAttempt(a, 1, 0, 0, 0, 0)), a, b, 0)
  }

  lemma ReplacedIs(l: Limits, id: Id, a: Id, b: Id)
    requires l.maxAttempts >= 3 && !a.IsNil() && a != b
    ensures Replaced(l, id, a, b).Success?
    ensures var r := Replaced(l, id, a, b).value;
      && !r.IsTerminal() && |r.attempts| == 2 && r.attempts[0].id == a && r.currentAttempt == b
      && r.attempts[0].lifecycle.AttemptSuperseded?
  {
    assert Find(Bind(NewRequest(id, 0), NewAttempt(a, 1, 0, 0, 0, 0)).attempts, a) == 0;
  }

  /** The attempt that was replaced is current again, under the same identity as the retired one. */
  lemma RetiredAttemptReturns(limits: Limits, id: Id, a: Id, b: Id)
    requires 3 <= limits.maxAttempts <= MAX_ATTEMPTS && !id.IsNil() && !a.IsNil() && !b.IsNil() && a != b
    ensures var ops := ReturningAttempt(id, a, b);
      var s4 := Run(EmptyLedger(limits), ops[..4]);
      var s5 := Run(EmptyLedger(limits), ops);
      && id in s4.requests && !s4.requests[id].IsCurrent(a) && Find(s4.requests[id].attempts, a) == 0
      && id in s5.requests && s5.requests[id].IsCurrent(a) && !s5.requests[id].IsTerminal()
  {
    var ops := ReturningAttempt(id, a, b);
    var s0 := EmptyLedger(limits);
    var s1 := Step(s0, ops[0]);
    AfterRegister(s0, id);
    AfterBind(s1, id, NewRequest(id, 0), a);
    FiveSteps(s0, ops);
    ReplacedIs(s0.limits, id, a, b);
    ReturnsAfterBinding(Step(s1, ops[1]), id, a, b);
  }

  lemma ReturnsAfterBinding(s: Ledger, id: Id, a: Id, b: Id)
    requires Holds(s, s.limits, id, Bind(NewRequest(id, 0), NewAttempt(a, 1, 0, 0, 0, 0)), [])
    requires s.limits.maxAttempts >= 3 && !a.IsNil() && !b.IsNil() && a != b
    ensures var s4 := Step(Step(s, OpSupersede(id, a, b, 0)), OpInterrupt(id, 0));
      var s5 := Step(s4, OpRevalidate(id, a, 0));
      && id in s4.requests && !s4.requests[id].IsCurrent(a) && Find(s4.requests[id].attempts, a) == 0
      && id in s5.requests && s5.requests[id].IsCurrent(a) && !s5.requests[id].IsTerminal()
  {
    ReplacedIs(s.limits, id, a, b);
    var r := Replaced(s.limits, id, a, b).value;
    AfterSupersede(s, id, Bind(NewRequest(id, 0), NewAttempt(a, 1, 0, 0, 0, 0)), a, b);
    var s3 := Step(s, OpSupersede(id, a, b, 0));
    AfterInterrupt(s3, id, r);
    AfterRevalidate(Step(s3, OpInterrupt(id, 0)), id, Resting(r), a);
    assert Find(Resting(r).attempts, a) == 0;
  }

  // ---------------------------------------------------------------------------------------------
  // A live request is queued as ended
  // ---------------------------------------------------------------------------------------------

  /** Three requests; the first ends twice, cancelling the second drops it, and its name is taken again. */
  function ReusedName(id: Id, other: Id, third: Id, a: Id, b: Id, reason: Reason, sequence: Generation): seq<Op> {
    [OpRegister(other, 0), OpRegister(third, 0)] + TwoLiveAttempts(id, a, b)
    + [OpCancel(other, reason, sequence, 0), OpRegister(id, 0)]
  }

  lemma {:induction false} RunTwice(s: Ledger, first: seq<Op>, second: seq<Op>)
    ensures Run(s, first + second) == Run(Run(s, first), second)
    decreases |first|
  {
    if first == [] {
      assert first + second == second;
    } else {
      assert (first + second)[1..] == first[1..] + second;
      RunTwice(Step(s, first[0]), first[1..], second);
    }
  }

  function TwoWaiting(other: Id, third: Id): map<Id, Request> {
    map[other := NewRequest(other, 0), third := NewRequest(third, 0)]
  }

  lemma TwoWait(s: Ledger, other: Id, third: Id)
    requires Rests(s, s.limits, map[], []) && s.limits.maxLive >= 2
    requires !other.IsNil() && !third.IsNil() && other != third
    ensures Rests(Step(Step(s, OpRegister(other, 0)), OpRegister(third, 0)), s.limits, TwoWaiting(other, third), [])
  {
    RegisterRests(s, other);
    var s1 := Step(s, OpRegister(other, 0));
    assert |s1.requests| == |s1.requests.Keys| == 1 by { assert s1.requests.Keys == {other}; }
    RegisterRests(s1, third);
  }

  lemma NameTaken(s: Ledger, id: Id, other: Id, third: Id, reason: Reason, sequence: Generation)
    requires id != other && id != third && other != third && !id.IsNil()
    requires id in s.requests && s.requests[id].IsTerminal() && s.limits.maxRetained == 2 && s.limits.maxLive >= 1
    requires Rests(s, s.limits, TwoWaiting(other, third)[id := s.requests[id]], [id, id])
    ensures var s' := Step(Step(s, OpCancel(other, reason, sequence, 0)), OpRegister(id, 0));
      && s'.terminalOrder == [id, other] && id in s'.requests && !s'.requests[id].IsTerminal()
  {
    EndEvicts(s, other, CancelledRecord(s.requests[other], reason, sequence, 0),
              s.account.(cancelled := s.account.cancelled + 1));
    var s1 := Step(s, OpCancel(other, reason, sequence, 0));
    assert |s1.requests| == |s1.requests.Keys| == 2 by { assert s1.requests.Keys == {other, third}; }
    RegisterRests(s1, id);
  }

  /** The name of an ended and forgotten request is queued still; registered again, it is queued while live. */
  lemma LiveRequestIsQueued(limits: Limits, id: Id, other: Id, third: Id, a: Id, b: Id, reason: Reason,
                            sequence: Generation)
    requires limits.maxRetained == 2 && limits.maxLive >= 3 && 2 <= limits.maxAttempts <= MAX_ATTEMPTS
    requires !id.IsNil() && !other.IsNil() && !third.IsNil() && id != other && id != third && other != third
    requires !a.IsNil() && !b.IsNil() && a != b
    ensures var s := Run(EmptyLedger(limits), ReusedName(id, other, third, a, b, reason, sequence));
      s.terminalOrder == [id, other] && id in s.requests && !s.requests[id].IsTerminal()
  {
    var s0 := EmptyLedger(limits);
    var first := [OpRegister(other, 0), OpRegister(third, 0)];
    var last := [OpCancel(other, reason, sequence, 0), OpRegister(id, 0)];
    RunTwice(s0, first + TwoLiveAttempts(id, a, b), last);
    RunTwice(s0, first, TwoLiveAttempts(id, a, b));
    TwoSteps(s0, first);
    TwoWait(s0, other, third);
    var s2 := Run(s0, first);
    assert |s2.requests| == |s2.requests.Keys| == 2 by { assert s2.requests.Keys == {other, third}; }
    EndsTwice(s2, id, a, b);
    var s7 := Run(s2, TwoLiveAttempts(id, a, b));
    TwoSteps(s7, last);
    NameTaken(s7, id, other, third, reason, sequence);
  }

  lemma TwoSteps(s: Ledger, ops: seq<Op>)
    requires |ops| == 2
    ensures Run(s, ops) == Step(Step(s, ops[0]), ops[1])
  {
    assert ops == [ops[0]] + [ops[1]] && [ops[0]] == [] + [ops[0]];
    RunAppend(s, [], ops[0]);
    RunAppend(s, [ops[0]], ops[1]);
  }
}
