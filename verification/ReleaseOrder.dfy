/** Flows are released in whatever order the source's hash tables yield; the outcome is the same. */
module ReleaseOrder {
  import opened Ids
  import opened Traffic
  import opened LedgerModel
  import L = LedgerModel
  import opened LedgerAccounting
  import opened CoordinatorModel

  lemma DropCommutes(b: Book, f: FlowId, g: FlowId)
    requires f in b.flows && g in b.flows && f != g
    ensures DropFlow(DropFlow(b, f), g) == DropFlow(DropFlow(b, g), f)
  {
    var x, y := DropFlow(DropFlow(b, f), g), DropFlow(DropFlow(b, g), f);
    assert x.flows == y.flows;
    assert x.byRequest == y.byRequest;
    assert x.byTransfer == y.byTransfer;
  }

  lemma UnlinkCommutes(transfers: map<Id, Transfer>, t: Id, f: FlowId, u: Id, g: FlowId)
    requires f != g
    ensures Unlinked(Unlinked(transfers, t, f), u, g) == Unlinked(Unlinked(transfers, u, g), t, f)
  {
    assert Unlinked(Unlinked(transfers, t, f), u, g) == Unlinked(Unlinked(transfers, u, g), t, f);
  }

  // ---------------------------------------------------------------------------------------------
  // The ledger
  // ---------------------------------------------------------------------------------------------

  function Lighter(requests: map<Id, Request>, id: Id): map<Id, Request> {
    if id in requests
    then requests[id := requests[id].(activeFlows := Monus(requests[id].activeFlows, 1))] else requests
  }

  lemma LighterCommutes(requests: map<Id, Request>, a: Id, b: Id)
    ensures Lighter(Lighter(requests, a), b) == Lighter(Lighter(requests, b), a)
  {
    assert Lighter(Lighter(requests, a), b) == Lighter(Lighter(requests, b), a);
  }

  function LessClass(counts: map<TrafficClass, nat>, c: TrafficClass): map<TrafficClass, nat> {
    if c in counts then counts[c := Monus(counts[c], 1)] else counts
  }

  lemma OneClosed(a: Account, flows: map<FlowId, LedgerFlow>, f: FlowId)
    requires f in flows
    ensures ClosedAccount(a, flows, {f}) ==
            a.(activeTotal := Monus(a.activeTotal, 1), activeByClass := LessClass(a.activeByClass, flows[f].traffic))
  {
    assert Among(flows, {f}) == {f};
    forall c | c in a.activeByClass
      ensures |AmongOfClass(flows, {f}, c)| == if c == flows[f].traffic then 1 else 0
    {
      assert AmongOfClass(flows, {f}, c) == if c == flows[f].traffic then {f} else {};
    }
    assert ClosedAccount(a, flows, {f}).activeByClass == LessClass(a.activeByClass, flows[f].traffic);
  }

  /** Releasing one flow, field by field. */
  lemma ReleasedFields(l: Ledger, f: FlowId)
    requires f in l.flows
    ensures var flow := l.flows[f];
      L.ReleaseFlow(l, f).ledger ==
      l.(flows := l.flows - {f}, index := l.index - {(flow.request, f)},
         requests := Lighter(l.requests, flow.request),
         account := l.account.(activeTotal := Monus(l.account.activeTotal, 1),
                               activeByClass := LessClass(l.account.activeByClass, flow.traffic)))
  {
    OneEntry(l.flows[f].request, f);
    OneClosed(l.account, l.flows, f);
  }

  lemma LessCommutes(counts: map<TrafficClass, nat>, c: TrafficClass, d: TrafficClass)
    ensures LessClass(LessClass(counts, c), d) == LessClass(LessClass(counts, d), c)
  {
    assert LessClass(LessClass(counts, c), d) == LessClass(LessClass(counts, d), c);
  }

  lemma LedgerCommutes(l: Ledger, f: FlowId, g: FlowId)
    requires f != g
    ensures L.ReleaseFlow(L.ReleaseFlow(l, f).ledger, g).ledger == L.ReleaseFlow(L.ReleaseFlow(l, g).ledger, f).ledger
  {
    if f in l.flows && g in l.flows {
      var a, b := l.flows[f], l.flows[g];
      ReleasedFields(l, f);
      ReleasedFields(l, g);
      ReleasedFields(L.ReleaseFlow(l, f).ledger, g);
      ReleasedFields(L.ReleaseFlow(l, g).ledger, f);
      LighterCommutes(l.requests, a.request, b.request);
      LessCommutes(l.account.activeByClass, a.traffic, b.traffic);
      assert l.flows - {f} - {g} == l.flows - {g} - {f};
      assert l.index - {(a.request, f)} - {(b.request, g)} == l.index - {(b.request, g)} - {(a.request, f)};
    } else if f in l.flows {
      ReleasedFields(l, f);
    } else if g in l.flows {
      ReleasedFields(l, g);
    }
  }

  // ---------------------------------------------------------------------------------------------
  // The coordinator
  // ---------------------------------------------------------------------------------------------

  /** What releasing the flow does to the ledger, and what it does to the transfers. */
  function LedgerAfter(l: Ledger, owner: Owner, f: FlowId): Ledger {
    if owner.OfRequest? then L.ReleaseFlow(l, f).ledger else l
  }

  function TransfersAfter(transfers: map<Id, Transfer>, owner: Owner, f: FlowId): map<Id, Transfer> {
    if owner.OfTransfer? then Unlinked(transfers, owner.transfer, f) else transfers
  }

  lemma ReleasedParts(s: Fabric, f: FlowId)
    requires f in s.book.flows
    ensures var owner := s.book.flows[f].owner;
      ReleaseOne(s, f) == s.(book := DropFlow(s.book, f), ledger := LedgerAfter(s.ledger, owner, f),
                             transfers := TransfersAfter(s.transfers, owner, f))
  {
  }

  lemma ReleaseCommutes(s: Fabric, f: FlowId, g: FlowId)
    requires f != g
    ensures ReleaseOne(ReleaseOne(s, f), g) == ReleaseOne(ReleaseOne(s, g), f)
  {
    if f in s.book.flows && g in s.book.flows {
      var a, b := s.book.flows[f].owner, s.book.flows[g].owner;
      ReleasedParts(s, f);
      ReleasedParts(s, g);
      ReleasedParts(ReleaseOne(s, f), g);
      ReleasedParts(ReleaseOne(s, g), f);
      DropCommutes(s.book, f, g);
      PartsCommute(s.ledger, s.transfers, a, f, b, g);
    }
  }

  lemma PartsCommute(l: Ledger, transfers: map<Id, Transfer>, a: Owner, f: FlowId, b: Owner, g: FlowId)
    requires f != g
    ensures LedgerAfter(LedgerAfter(l, a, f), b, g) == LedgerAfter(LedgerAfter(l, b, g), a, f)
    ensures TransfersAfter(TransfersAfter(transfers, a, f), b, g)
            == TransfersAfter(TransfersAfter(transfers, b, g), a, f)
  {
    LedgerCommutes(l, f, g);
    if a.OfTransfer? && b.OfTransfer? { UnlinkCommutes(transfers, a.transfer, f, b.transfer, g); }
  }

  /** Any flow of the set may be released first. */
  lemma {:induction false} ReleaseOrderFree(s: Fabric, victims: set<FlowId>, f: FlowId)
    requires f in victims
    ensures ReleaseAll(s, victims) == ReleaseAll(ReleaseOne(s, f), victims - {f})
    decreases victims
  {
    var g :| g in victims && ReleaseAll(s, victims) == ReleaseAll(ReleaseOne(s, g), victims - {g});
    if g != f {
      ReleaseOrderFree(ReleaseOne(s, g), victims - {g}, f);
      ReleaseOrderFree(ReleaseOne(s, f), victims - {f}, g);
      ReleaseCommutes(s, f, g);
      assert victims - {g} - {f} == victims - {f} - {g};
    }
  }
}
