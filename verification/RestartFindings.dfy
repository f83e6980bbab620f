/**
 * Runs of a freshly booted coordinator whose own export it refuses to boot from, and one whose order of
 * endings a restart turns around.
 */
module RestartFindings {
  import opened Ids
  import opened Reasons
  import opened Policies
  import opened LedgerModel
  import opened LedgerRecords
  import opened LedgerHistory
  import opened LedgerFindings
  import opened CoordinatorModel
  import C = CoordinatorModel
  import opened CoordinatorRuns
  import opened CoordinatorCoherence
  import opened CoordinatorInvariant
  import opened Restart
  import opened RestartProofs
  import opened Witnesses

  // ---------------------------------------------------------------------------------------------
  // With no flows and no transfers, a run of request calls is a run of the ledger
  // ---------------------------------------------------------------------------------------------

  ghost predicate Plain(s: Fabric) {
    && Coherent(s) && Configured(s) && Persistable(s)
    && s.book == EMPTY_BOOK && s.transfers == map[] && s.owned == {}
  }

  /** A coordinator booted for the first time with this configuration. */
  ghost predicate FirstBoot(s: Fabric, c: Config) {
    Plain(s) && s.config == c && s.ledger == EmptyLedger(c.ledger)
  }

  /** Every first boot with a valid policy and limits that fit is such a coordinator. */
  lemma BootsPlain(c: Config, incarnation: Id)
    requires Configured(Unbooted(c)) && PolicyValid(Numbered(c.policy)) && !incarnation.IsNil()
    ensures FirstBoot(BootFresh(Unbooted(c), incarnation), c)
  {
    FreshBootCoherent(Unbooted(c), incarnation);
  }

  /** The calls below: an attempt names no model. */
  predicate Simple(call: RequestCall) {
    || call.CallRegister? || (call.CallAttempt? && call.modelHash == 0)
    || call.CallFail? || call.CallPublish? || call.CallCancel?
  }

  function OpOf(call: RequestCall, sequence: Generation): Op
    requires Simple(call)
  {
    match call
    case CallRegister(id, now) => OpRegister(id, now)
    case CallAttempt(id, a, _, now) => OpAttempt(id, a, 0, 0, 0, now)
    case CallFail(id, a, reason, now) => OpFail(id, a, reason, now)
    case CallPublish(p, now) => OpPublish(p, now)
    case CallCancel(id, reason, now) => OpCancel(id, reason, sequence + 1, now)
  }

  function Next(call: RequestCall, sequence: Generation): Generation {
    if call.CallCancel? then sequence + 1 else sequence
  }

  predicate AllSimple(calls: seq<RequestCall>) { forall i | 0 <= i < |calls| :: Simple(calls[i]) }

  function OpsOf(calls: seq<RequestCall>, sequence: Generation): seq<Op>
    requires AllSimple(calls)
    decreases |calls|
  {
    if calls == [] then [] else [OpOf(calls[0], sequence)] + OpsOf(calls[1..], Next(calls[0], sequence))
  }

  function Asked(calls: seq<RequestCall>): seq<Call>
    decreases |calls|
  {
    if calls == [] then [] else [OnRequest(calls[0])] + Asked(calls[1..])
  }

  lemma NothingReleased(s: Fabric, id: Id)
    requires s.book == EMPTY_BOOK && s.transfers == map[]
    ensures ReleaseRequest(s, id) == s
  {
    IdleRelease(s, id);
    if !id.IsNil() { assert AbandonOwned(s, id) == map[]; }
  }

  /** What a simple call leaves of an idle coordinator. */
  function After(s: Fabric, call: RequestCall): Fabric
    requires Simple(call)
  {
    s.(ledger := Step(s.ledger, OpOf(call, s.sequence)), sequence := Next(call, s.sequence))
  }

  lemma PlainCancel(s: Fabric, id: Id, reason: Reason, now: int)
    requires s.book == EMPTY_BOOK && s.transfers == map[]
    ensures C.CancelRequest(s, id, reason, now).fabric == After(s, CallCancel(id, reason, now))
  {
    NothingReleased(After(s, CallCancel(id, reason, now)), id);
  }

  lemma PlainFail(s: Fabric, id: Id, a: Id, reason: Reason, now: int)
    requires s.book == EMPTY_BOOK && s.transfers == map[]
    ensures C.FailAttempt(s, id, a, reason, now).fabric == After(s, CallFail(id, a, reason, now))
  {
    NothingReleased(After(s, CallFail(id, a, reason, now)), id);
  }

  lemma PlainPublish(s: Fabric, p: Publication, now: int)
    requires s.book == EMPTY_BOOK && s.transfers == map[]
    ensures C.PublishCompletion(s, p, now).fabric == After(s, CallPublish(p, now))
  {
    NothingReleased(After(s, CallPublish(p, now)), p.request);
  }

  lemma PlainRequest(s: Fabric, call: RequestCall)
    requires s.book == EMPTY_BOOK && s.transfers == map[] && Simple(call)
    ensures ActRequest(s, call) == After(s, call)
  {
    match call
    case CallCancel(id, reason, now) => PlainCancel(s, id, reason, now);
    case CallFail(id, a, reason, now) => PlainFail(s, id, a, reason, now);
    case CallPublish(p, now) => PlainPublish(s, p, now);
    case _ =>
  }

  lemma PlainStep(s: Fabric, call: RequestCall)
    requires Plain(s) && Simple(call)
    ensures Plain(ActRequest(s, call))
  {
    PlainRequest(s, call);
    RequestCoheres(s, call);
    LedgerView(s);
    StepKeepsRecords(s.ledger, OpOf(call, s.sequence));
  }

  lemma {:induction false} PlainRun(s: Fabric, calls: seq<RequestCall>)
    requires Plain(s) && AllSimple(calls)
    ensures var s' := ActAll(s, Asked(calls));
      Plain(s') && s'.config == s.config && s'.ledger == Run(s.ledger, OpsOf(calls, s.sequence))
    decreases |calls|
  {
    if calls == [] {
    } else {
      PlainStep(s, calls[0]);
      PlainRequest(s, calls[0]);
      assert Act(s, OnRequest(calls[0])) == ActRequest(s, calls[0]);
      PlainRun(ActRequest(s, calls[0]), calls[1..]);
      assert Asked(calls)[1..] == Asked(calls[1..]);
      assert OpsOf(calls, s.sequence)[1..] == OpsOf(calls[1..], Next(calls[0], s.sequence));
    }
  }

  lemma OneMore(call: RequestCall, calls: seq<RequestCall>, sequence: Generation)
    requires Simple(call) && AllSimple(calls)
    ensures AllSimple([call] + calls)
    ensures OpsOf([call] + calls, sequence) == [OpOf(call, sequence)] + OpsOf(calls, Next(call, sequence))
  {
    assert ([call] + calls)[1..] == calls;
  }

  /** What boots depends on the ledger's run alone. */
  lemma RunBootsExactly(s: Fabric, calls: seq<RequestCall>, d: Document, t: Fabric, next: Id)
    requires Plain(s) && AllSimple(calls) && t.config == s.config && Exports(ActAll(s, Asked(calls)), d)
    ensures var l := Run(s.ledger, OpsOf(calls, s.sequence));
      BootFrom(t, d, next).result.Success? <==> Bootable(l.terminalOrder, l.requests)
  {
    PlainRun(s, calls);
    OwnExportBootsExactly(ActAll(s, Asked(calls)), d, t, next);
  }

  // ---------------------------------------------------------------------------------------------
  // Its own export refused
  // ---------------------------------------------------------------------------------------------

  function EndTwice(id: Id, a: Id, b: Id): seq<RequestCall> {
    [CallRegister(id, 0)] + ([CallAttempt(id, a, 0, 0)] + ([CallAttempt(id, b, 0, 0)] +
    ([CallPublish(Finished(id, a), 0)] + ([CallFail(id, b, ATTEMPT_FAILED, 0)] + []))))
  }

  lemma EndTwiceOps(id: Id, a: Id, b: Id, sequence: Generation)
    ensures AllSimple(EndTwice(id, a, b)) && OpsOf(EndTwice(id, a, b), sequence) == TwoLiveAttempts(id, a, b)
  {
    var l := [CallFail(id, b, ATTEMPT_FAILED, 0)] + [];
    OneMore(CallFail(id, b, ATTEMPT_FAILED, 0), [], sequence);
    var p := [CallPublish(Finished(id, a), 0)] + l;
    OneMore(CallPublish(Finished(id, a), 0), l, sequence);
    var m := [CallAttempt(id, b, 0, 0)] + p;
    OneMore(CallAttempt(id, b, 0, 0), p, sequence);
    var n := [CallAttempt(id, a, 0, 0)] + m;
    OneMore(CallAttempt(id, a, 0, 0), m, sequence);
    OneMore(CallRegister(id, 0), n, sequence);
  }

  /** A request ends twice: whatever the coordinator exports then, no coordinator so configured boots from it. */
  lemma TwiceEndedExportIsRefused(s: Fabric, c: Config, id: Id, a: Id, b: Id, d: Document, t: Fabric, next: Id)
    requires FirstBoot(s, c) && t.config == c
    requires c.ledger.maxRetained >= 2 && 2 <= c.ledger.maxAttempts <= MAX_ATTEMPTS && 0 < c.ledger.maxLive < TWO_64
    requires !id.IsNil() && !a.IsNil() && !b.IsNil() && a != b
    requires Exports(ActAll(s, Asked(EndTwice(id, a, b))), d)
    ensures BootFrom(t, d, next).result.Failure?
  {
    EndTwiceOps(id, a, b, s.sequence);
    RunBootsExactly(s, EndTwice(id, a, b), d, t, next);
    EndedTwice(c.ledger, id, a, b);
  }

  lemma EndedTwice(limits: Limits, id: Id, a: Id, b: Id)
    requires limits.maxRetained >= 2 && 2 <= limits.maxAttempts <= MAX_ATTEMPTS && 0 < limits.maxLive < TWO_64
    requires !id.IsNil() && !a.IsNil() && !b.IsNil() && a != b
    ensures var l := Run(EmptyLedger(limits), TwoLiveAttempts(id, a, b)); !Bootable(l.terminalOrder, l.requests)
  {
    UndisciplinedRun(limits, id, a, b, if id == Id(0, 1) then Id(0, 2) else Id(0, 1));
    var l := Run(EmptyLedger(limits), TwoLiveAttempts(id, a, b));
    assert l.terminalOrder[0] == l.terminalOrder[1];
  }

  lemma Regroup(op: Op, ops: seq<Op>, more: seq<Op>)
    ensures [op] + (ops + more) == ([op] + ops) + more
  {
  }

  lemma {:induction false} OpsAppend(calls: seq<RequestCall>, more: seq<RequestCall>, sequence: Generation)
    requires AllSimple(calls) && AllSimple(more) && forall i | 0 <= i < |calls| :: !calls[i].CallCancel?
    ensures AllSimple(calls + more)
    ensures OpsOf(calls + more, sequence) == OpsOf(calls, sequence) + OpsOf(more, sequence)
    decreases |calls|
  {
    if calls == [] {
      assert calls + more == more;
    } else {
      OpsAppend(calls[1..], more, sequence);
      assert (calls + more)[1..] == calls[1..] + more;
      Regroup(OpOf(calls[0], sequence), OpsOf(calls[1..], sequence), OpsOf(more, sequence));
    }
  }

  function RegisterTwo(id: Id, other: Id): seq<RequestCall> { [CallRegister(id, 0)] + ([CallRegister(other, 0)] + []) }

  function CancelThenRegister(other: Id, reason: Reason, id: Id): seq<RequestCall> {
    [CallCancel(other, reason, 0)] + ([CallRegister(id, 0)] + [])
  }

  /** Three requests; the first ends twice, cancelling the second drops it, and its name is taken again. */
  function ReuseName(id: Id, other: Id, third: Id, a: Id, b: Id, reason: Reason): seq<RequestCall> {
    RegisterTwo(other, third) + (EndTwice(id, a, b) + CancelThenRegister(other, reason, id))
  }

  lemma ReuseNameOps(id: Id, other: Id, third: Id, a: Id, b: Id, reason: Reason, sequence: Generation)
    ensures AllSimple(ReuseName(id, other, third, a, b, reason))
    ensures OpsOf(ReuseName(id, other, third, a, b, reason), sequence) ==
            ReusedName(id, other, third, a, b, reason, sequence + 1)
  {
    EndTwiceOps(id, a, b, sequence);
    RegisterTwoOps(other, third, sequence);
    CancelThenRegisterOps(other, reason, id, sequence);
    var tail := CancelThenRegister(other, reason, id);
    OpsAppend(EndTwice(id, a, b), tail, sequence);
    OpsAppend(RegisterTwo(other, third), EndTwice(id, a, b) + tail, sequence);
  }

  lemma RegisterTwoOps(id: Id, other: Id, sequence: Generation)
    ensures AllSimple(RegisterTwo(id, other))
    ensures OpsOf(RegisterTwo(id, other), sequence) == [OpRegister(id, 0), OpRegister(other, 0)]
  {
    OneMore(CallRegister(other, 0), [], sequence);
    OneMore(CallRegister(id, 0), [CallRegister(other, 0)] + [], sequence);
  }

  lemma CancelThenRegisterOps(other: Id, reason: Reason, id: Id, sequence: Generation)
    ensures AllSimple(CancelThenRegister(other, reason, id))
    ensures OpsOf(CancelThenRegister(other, reason, id), sequence) ==
            [OpCancel(other, reason, sequence + 1, 0), OpRegister(id, 0)]
  {
    OneMore(CallRegister(id, 0), [], sequence + 1);
    OneMore(CallCancel(other, reason, 0), [CallRegister(id, 0)] + [], sequence);
  }

  /** A live request is queued as ended under its old name: the export lists it twice and is refused. */
  lemma ReusedNameExportIsRefused(s: Fabric, c: Config, id: Id, other: Id, third: Id, a: Id, b: Id, reason: Reason,
                                  d: Document, t: Fabric, next: Id)
    requires FirstBoot(s, c) && t.config == c
    requires c.ledger.maxRetained == 2 && 2 <= c.ledger.maxAttempts <= MAX_ATTEMPTS && c.ledger.maxLive >= 3
    requires !id.IsNil() && !other.IsNil() && !third.IsNil() && id != other && id != third && other != third
    requires !a.IsNil() && !b.IsNil() && a != b
    requires Exports(ActAll(s, Asked(ReuseName(id, other, third, a, b, reason))), d)
    ensures BootFrom(t, d, next).result.Failure?
  {
    ReuseNameOps(id, other, third, a, b, reason, s.sequence);
    RunBootsExactly(s, ReuseName(id, other, third, a, b, reason), d, t, next);
    LiveIsQueued(c.ledger, id, other, third, a, b, reason, s.sequence + 1);
  }

  lemma LiveIsQueued(limits: Limits, id: Id, other: Id, third: Id, a: Id, b: Id, reason: Reason, sequence: Generation)
    requires limits.maxRetained == 2 && limits.maxLive >= 3 && 2 <= limits.maxAttempts <= MAX_ATTEMPTS
    requires !id.IsNil() && !other.IsNil() && !third.IsNil() && id != other && id != third && other != third
    requires !a.IsNil() && !b.IsNil() && a != b
    ensures var l := Run(EmptyLedger(limits), ReusedName(id, other, third, a, b, reason, sequence));
      && Distinct(l.terminalOrder) && !Bootable(l.terminalOrder, l.requests)
  {
    LiveRequestIsQueued(limits, id, other, third, a, b, reason, sequence);
    var l := Run(EmptyLedger(limits), ReusedName(id, other, third, a, b, reason, sequence));
    assert l.terminalOrder[0] == id;
  }

  // ---------------------------------------------------------------------------------------------
  // The order of endings turned around
  // ---------------------------------------------------------------------------------------------

  function CancelBoth(id: Id, other: Id, reason: Reason): seq<RequestCall> {
    RegisterTwo(id, other) + ([CallCancel(id, reason, 0)] + ([CallCancel(other, reason, 0)] + []))
  }

  lemma CancelBothOps(id: Id, other: Id, reason: Reason, sequence: Generation)
    ensures AllSimple(CancelBoth(id, other, reason))
    ensures OpsOf(CancelBoth(id, other, reason), sequence) ==
            [OpRegister(id, 0), OpRegister(other, 0)]
            + [OpCancel(id, reason, sequence + 1, 0), OpCancel(other, reason, sequence + 2, 0)]
  {
    RegisterTwoOps(id, other, sequence);
    OneMore(CallCancel(other, reason, 0), [], sequence + 1);
    OneMore(CallCancel(id, reason, 0), [CallCancel(other, reason, 0)] + [], sequence);
    OpsAppend(RegisterTwo(id, other), [CallCancel(id, reason, 0)] + ([CallCancel(other, reason, 0)] + []), sequence);
  }

  lemma CancelRests(s: Ledger, id: Id, reason: Reason, sequence: Generation)
    requires Rests(s, s.limits, s.requests, s.terminalOrder) && |s.terminalOrder| < s.limits.maxRetained
    requires id in s.requests && !s.requests[id].IsTerminal()
    ensures var s' := Step(s, OpCancel(id, reason, sequence, 0));
      && id in s'.requests && s'.requests[id].IsTerminal()
      && Rests(s', s.limits, s.requests[id := s'.requests[id]], s.terminalOrder + [id])
  {
    EndRests(s, id, CancelledRecord(s.requests[id], reason, sequence, 0),
             s.account.(cancelled := s.account.cancelled + 1));
  }

  lemma BothCancelled(s: Ledger, id: Id, other: Id, reason: Reason, m: Generation, n: Generation)
    requires Rests(s, s.limits, TwoWaiting(id, other), []) && id != other && s.limits.maxRetained >= 2
    ensures var s' := Step(Step(s, OpCancel(id, reason, m, 0)), OpCancel(other, reason, n, 0));
      && s'.terminalOrder == [id, other] && id in s'.requests && other in s'.requests
      && s'.requests[id].IsTerminal() && s'.requests[other].IsTerminal()
  {
    CancelRests(s, id, reason, m);
    CancelRests(Step(s, OpCancel(id, reason, m, 0)), other, reason, n);
  }

  /** Both have ended, in this order. */
  predicate PairEnded(l: Ledger, id: Id, other: Id) {
    && l.terminalOrder == [id, other] && id in l.requests && other in l.requests
    && l.requests[id].IsTerminal() && l.requests[other].IsTerminal()
  }

  lemma BothEnd(limits: Limits, id: Id, other: Id, reason: Reason, m: Generation, n: Generation)
    requires limits.maxRetained >= 2 && limits.maxLive >= 2
    requires !id.IsNil() && !other.IsNil() && id != other
    ensures PairEnded(Run(EmptyLedger(limits), [OpRegister(id, 0), OpRegister(other, 0)]
                                               + [OpCancel(id, reason, m, 0), OpCancel(other, reason, n, 0)]),
                      id, other)
  {
    var s0 := EmptyLedger(limits);
    var first := [OpRegister(id, 0), OpRegister(other, 0)];
    var last := [OpCancel(id, reason, m, 0), OpCancel(other, reason, n, 0)];
    RunTwice(s0, first, last);
    TwoSteps(s0, first);
    TwoWait(s0, id, other);
    TwoSteps(Run(s0, first), last);
    BothCancelled(Run(s0, first), id, other, reason, m, n);
  }

  lemma PairSurvives(l: Ledger, id: Id, other: Id)
    requires PairEnded(l, id, other) && id != other
    ensures Surviving(l.terminalOrder, l.requests) == l.terminalOrder && Bootable(l.terminalOrder, l.requests)
  {
    assert [id, other][..1] == [id] && [id][..0] == [];
    assert Surviving([], l.requests) == [];
    assert Surviving([id], l.requests) == [id];
  }

  lemma CancelBothEnds(l: Ledger, limits: Limits, id: Id, other: Id, reason: Reason, sequence: Generation)
    requires l == EmptyLedger(limits) && limits.maxRetained >= 2 && limits.maxLive >= 2
    requires !id.IsNil() && !other.IsNil() && id != other
    ensures AllSimple(CancelBoth(id, other, reason))
    ensures PairEnded(Run(l, OpsOf(CancelBoth(id, other, reason), sequence)), id, other)
  {
    CancelBothOps(id, other, reason, sequence);
    BothEnd(limits, id, other, reason, sequence + 1, sequence + 2);
  }

  /** Two requests end; after a restart the one that ended last is the one evicted first. */
  lemma RestartTurnsTwoAround(s: Fabric, c: Config, id: Id, other: Id, reason: Reason, d: Document, t: Fabric, next: Id)
    requires FirstBoot(s, c) && t.config == c && Configured(t)
    requires c.ledger.maxRetained >= 2 && c.ledger.maxLive >= 2 && !id.IsNil() && !other.IsNil() && id != other
    requires Exports(ActAll(s, Asked(CancelBoth(id, other, reason))), d)
    ensures var out := BootFrom(t, d, next);
      && ActAll(s, Asked(CancelBoth(id, other, reason))).ledger.terminalOrder == [id, other]
      && out.result.Success? && out.fabric.ledger.terminalOrder == [other, id]
  {
    CancelBothEnds(s.ledger, c.ledger, id, other, reason, s.sequence);
    PairTurnsAround(s, CancelBoth(id, other, reason), id, other, d, t, next);
  }

  lemma PairTurnsAround(s: Fabric, calls: seq<RequestCall>, id: Id, other: Id, d: Document, t: Fabric, next: Id)
    requires Plain(s) && AllSimple(calls) && t.config == s.config && Configured(t) && id != other
    requires Exports(ActAll(s, Asked(calls)), d)
    requires PairEnded(Run(s.ledger, OpsOf(calls, s.sequence)), id, other)
    ensures ActAll(s, Asked(calls)).ledger.terminalOrder == [id, other]
    ensures BootFrom(t, d, next).result.Success?
    ensures BootFrom(t, d, next).fabric.ledger.terminalOrder == [other, id]
  {
    PlainRun(s, calls);
    PairReversed(ActAll(s, Asked(calls)), id, other, d, t, next);
  }

  lemma PairReversed(s: Fabric, id: Id, other: Id, d: Document, t: Fabric, next: Id)
    requires Plain(s) && t.config == s.config && Configured(t) && id != other
    requires Exports(s, d) && PairEnded(s.ledger, id, other)
    ensures BootFrom(t, d, next).result.Success?
    ensures BootFrom(t, d, next).fabric.ledger.terminalOrder == [other, id]
  {
    PairSurvives(s.ledger, id, other);
    OwnExportBootsExactly(s, d, t, next);
    RestartReversesHistory(s, d, t, next);
    assert Reversed([id, other]) == [other, id];
  }
}
