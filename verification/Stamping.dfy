/**
 * The stamps of one incarnation: no two decisions carry the same one, and a cancellation fences every
 * decision made before it by their order alone (src/coordinator.cpp).
 */
module Stamping {
  import opened Ids
  import opened Reasons
  import opened LedgerOperations
  import opened CoordinatorModel
  import C = CoordinatorModel
  import opened Evaluation
  import opened CoordinatorRuns
  import opened CoordinatorCoherence
  import opened CoordinatorInvariant
  import opened CoordinatorEvolution
  import opened TransferOperations
  import opened PolicyFencing

  /** A decision takes the next number, and the coordinator is left at it or beyond. */
  lemma IssueCounts(s: Fabric, call: Call)
    requires Coherent(s) && MintsDistinct(s, call) && Issues(call)
    ensures s.sequence < Evaluation.Minted(s).sequence <= Act(s, call).sequence
  {
    if call.OnTransfer? {
      var q := call.transfer.query;
      var e := Evaluate(s, q, call.transfer.now, call.transfer.choice);
      EvaluateCoheres(s, q, call.transfer.now, call.transfer.choice);
      if q.subject.value.transfer in e.0.transfers {
        ConclusionExactly(e.0, e.1, q.subject.value.transfer, call.transfer.now, call.transfer.tag);
      }
    }
  }

  ghost predicate Between(stamps: seq<Stamp>, low: nat, high: nat) {
    && (forall i | 0 <= i < |stamps| :: low < stamps[i].sequence <= high)
    && (forall i, j | 0 <= i < j < |stamps| :: stamps[i].sequence < stamps[j].sequence)
  }

  lemma BetweenAfter(first: Stamp, rest: seq<Stamp>, low: nat, middle: nat, high: nat)
    requires low < first.sequence <= middle <= high && Between(rest, middle, high)
    ensures Between([first] + rest, low, high)
  {
    var all := [first] + rest;
    assert forall i | 0 < i < |all| :: all[i] == rest[i - 1];
  }

  /** Over any run the numbers of the stamps issued rise strictly, above all issued before. */
  lemma {:induction false} StampsRise(s: Fabric, calls: seq<Call>)
    requires Coherent(s) && MintsDistinctly(s, calls)
    ensures s.sequence <= ActAll(s, calls).sequence
    ensures Between(Issued(s, calls), s.sequence, ActAll(s, calls).sequence)
    decreases |calls|
  {
    if calls == [] {
    } else {
      var s1 := Act(s, calls[0]);
      ActOnward(s, calls[0]);
      ActCoheres(s, calls[0]);
      StampsRise(s1, calls[1..]);
      if Issues(calls[0]) {
        IssueCounts(s, calls[0]);
        BetweenAfter(Evaluation.Minted(s), Issued(s1, calls[1..]), s.sequence, s1.sequence,
                     ActAll(s1, calls[1..]).sequence);
      } else {
        assert Issued(s, calls) == Issued(s1, calls[1..]);
      }
    }
  }

  /** A cancellation sets its floor above every stamp issued before it and below every one issued after. */
  lemma CancellationSplitsStamps(s: Fabric, before: seq<Call>, id: Id, reason: Reason, now: int, after: seq<Call>)
    requires Coherent(s) && MintsDistinctly(s, before)
    requires var s1 := ActAll(s, before);
      && C.CancelRequest(s1, id, reason, now).result.Success? && !s1.ledger.requests[id].lifecycle.Cancelled?
      && MintsDistinctly(C.CancelRequest(s1, id, reason, now).fabric, after)
      && id in C.CancelRequest(s1, id, reason, now).fabric.ledger.requests
    ensures var s2 := C.CancelRequest(ActAll(s, before), id, reason, now).fabric;
      && id in s2.ledger.requests
      && var floor := s2.ledger.requests[id].authorityFloor;
         && (forall i | 0 <= i < |Issued(s, before)| :: Issued(s, before)[i].sequence < floor)
         && (forall i | 0 <= i < |Issued(s2, after)| :: floor < Issued(s2, after)[i].sequence)
  {
    var s1 := ActAll(s, before);
    RunsCohere(s, before);
    StampsRise(s, before);
    LedgerView(s1);
    assert At(id);
    CancelCoheres(s1, id, reason, now);
    CancelFloor(s1, id, reason, now);
    StampsRise(C.CancelRequest(s1, id, reason, now).fabric, after);
  }

  lemma CancelFloor(s: Fabric, id: Id, reason: Reason, now: int)
    requires Coherent(s) && id in s.ledger.requests && C.CancelRequest(s, id, reason, now).result.Success?
    requires s.ledger.requests[id].authorityFloor <= s.sequence
    ensures var s' := C.CancelRequest(s, id, reason, now).fabric;
      id in s'.ledger.requests ==> s'.ledger.requests[id].authorityFloor == s.sequence + 1 == s'.sequence
  {
    CancelTakes(s, id, reason, now);
    CancelExactly(s.ledger, id, reason, s.sequence + 1, now);
    assert At(id);
  }
}
