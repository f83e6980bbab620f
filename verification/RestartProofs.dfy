/**
 * What a restart means: old authority is refused for good, surviving registrations and live requests are
 * unusable until confirmed, and the terminal history comes back in reverse.
 */
module RestartProofs {
  import opened Ids
  import opened Policies
  import opened LedgerModel
  import opened LedgerAccounting
  import opened LedgerRecords
  import opened LedgerHistory
  import opened CoordinatorModel
  import C = CoordinatorModel
  import opened EvaluationProofs
  import opened CoordinatorRuns
  import opened CoordinatorCoherence
  import opened CoordinatorInvariant
  import opened CoordinatorEvolution
  import opened CoordinatorSafety
  import opened CoordinatorTransfers
  import opened Restart

  // ---------------------------------------------------------------------------------------------
  // Old authority
  // ---------------------------------------------------------------------------------------------

  lemma {:induction false} BootStands(s: Fabric, calls: seq<Call>)
    ensures SameBoot(s, ActAll(s, calls))
    decreases |calls|
  {
    if calls == [] {
    } else {
      ActQuiet(s, calls[0]);
      BootStands(Act(s, calls[0]), calls[1..]);
    }
  }

  /** One incarnation: the process it starts in, what it boots from, what it is asked, where it ends. */
  datatype Life = Life(process: Fabric, document: Document, incarnation: Id, calls: seq<Call>, end: Fabric)

  /** The second life boots, in any process, from what the first exported at its end. */
  ghost predicate Continues(a: Life, b: Life) {
    var out := BootFrom(b.process, b.document, b.incarnation);
    Exports(a.end, b.document) && out.result.Success? && b.end == ActAll(out.fabric, b.calls)
  }

  /** Marks a life whose beginning a proof looks into. */
  predicate Seen(l: Life) { true }

  ghost predicate Follows(a: Life, b: Life) {
    forall l {:trigger Seen(l)} :: Seen(l) && l == b ==> Continues(a, l)
  }

  ghost predicate FollowsAt(lives: seq<Life>, i: nat)
    requires 0 < i < |lives|
  {
    Follows(lives[i - 1], lives[i])
  }

  /** A chain of restarts; nothing is asked of the first life. */
  ghost predicate Lineage(lives: seq<Life>) { forall i | 0 < i < |lives| :: FollowsAt(lives, i) }

  lemma NextEpoch(a: Life, b: Life)
    requires Follows(a, b)
    ensures b.end.epoch == a.end.epoch + 1
  {
    assert Seen(b);
    RestoredShape(b.process, b.document, b.incarnation);
    BootStands(BootFrom(b.process, b.document, b.incarnation).fabric, b.calls);
  }

  /** Along any chain of restarts the epochs strictly increase. */
  lemma {:induction false} EpochsIncrease(lives: seq<Life>, i: nat, j: nat)
    requires Lineage(lives) && i < j < |lives|
    ensures lives[i].end.epoch < lives[j].end.epoch
    decreases j
  {
    assert FollowsAt(lives, j);
    NextEpoch(lives[j - 1], lives[j]);
    if i == j - 1 {
    } else {
      EpochsIncrease(lives, i, j - 1);
    }
  }

  lemma StaleEpochIsRefused(s: Fabric, d: Decision)
    requires d.authority.epoch < s.epoch
    ensures !ValidateDecision(s, d).Ok?
    ensures forall declared, now, tag :: C.OpenFlow(s, d, declared, now, tag).fabric == s
  {
  }

  /** A decision stamped by an earlier life is refused at the end of every later one, wherever that is. */
  lemma EarlierDecisionsAreRefused(lives: seq<Life>, i: nat, j: nat, d: Decision)
    requires Lineage(lives) && i < j < |lives| && d.authority.epoch <= lives[i].end.epoch
    ensures var end := lives[j].end;
      && !ValidateDecision(end, d).Ok?
      && forall declared, now, tag :: C.OpenFlow(end, d, declared, now, tag).fabric == end
  {
    EpochsIncrease(lives, i, j);
    StaleEpochIsRefused(lives[j].end, d);
  }

  // ---------------------------------------------------------------------------------------------
  // Registrations
  // ---------------------------------------------------------------------------------------------

  lemma {:induction false} RestoredRegistry(entries: Entries)
    ensures forall h | h in RestoreRegistry(entries) :: RestoreRegistry(entries)[h].requiresRevalidation
    ensures forall i {:trigger entries[i]} | 0 <= i < |entries| :: entries[i].0 in RestoreRegistry(entries)
    ensures forall h | h in RestoreRegistry(entries) ::
              exists i :: 0 <= i < |entries| && entries[i].0 == h
                          && entries[i].1.generation == RestoreRegistry(entries)[h].generation
    decreases |entries|
  {
    if entries == [] {
    } else {
      var rest := entries[..|entries| - 1];
      RestoredRegistry(rest);
      forall h | h in RestoreRegistry(entries)
        ensures exists i :: 0 <= i < |entries| && entries[i].0 == h
                            && entries[i].1.generation == RestoreRegistry(entries)[h].generation
      {
        if h in RestoreRegistry(rest) {
          var i :| 0 <= i < |rest| && rest[i].0 == h
                   && rest[i].1.generation == RestoreRegistry(rest)[h].generation;
          assert entries[i] == rest[i];
        } else {
          assert entries[|entries| - 1].0 == h;
        }
      }
      forall i {:trigger entries[i]} | 0 <= i < |entries|
        ensures entries[i].0 in RestoreRegistry(entries)
      {
        if i < |rest| { assert rest[i] == entries[i]; }
      }
    }
  }

  /** Of the entries with one hash, the first counts, whatever the document. */
  lemma {:induction false} FirstEntryCounts(entries: Entries, i: nat)
    requires i < |entries| && forall j | 0 <= j < i :: entries[j].0 != entries[i].0
    ensures entries[i].0 in RestoreRegistry(entries)
    ensures RestoreRegistry(entries)[entries[i].0] == Registration(entries[i].1.generation, true)
    decreases |entries|
  {
    var rest := entries[..|entries| - 1];
    if i < |rest| {
      FirstEntryCounts(rest, i);
    } else {
      RestoredRegistry(rest);
    }
  }

  /** An exported registry comes back with the same numbers, all of them to be confirmed. */
  lemma RegistryComesBack(m: map<Word64, Registration>, entries: Entries)
    requires Lists(m, entries)
    ensures RestoreRegistry(entries) == map h | h in m :: Registration(m[h].generation, true)
  {
    RestoredRegistry(entries);
    forall h | h in m
      ensures h in RestoreRegistry(entries)
    {
      var i :| 0 <= i < |entries| && entries[i] == (h, m[h]);
    }
  }

  predicate Unconfirmed(m: map<Word64, Registration>, h: Word64, g: Generation) {
    h in m && m[h] == Registration(g, true)
  }

  predicate Confirms(call: Call, h: Word64) {
    call.OnEvidence? && (call.evidence == CallModelConfirm(h) || call.evidence == CallStateConfirm(h))
  }

  lemma UnconfirmedEvidence(s: Fabric, call: EvidenceCall, h: Word64, g: Generation)
    requires call != CallModelConfirm(h) && call != CallStateConfirm(h)
    ensures Unconfirmed(s.models, h, g) ==> Unconfirmed(ActEvidence(s, call).models, h, g)
    ensures Unconfirmed(s.states, h, g) ==> Unconfirmed(ActEvidence(s, call).states, h, g)
  {
  }

  /** A registration that survived keeps its number and stays unusable until it is confirmed. */
  lemma {:induction false} UnconfirmedStays(s: Fabric, calls: seq<Call>, h: Word64, g: Generation)
    requires forall i | 0 <= i < |calls| :: !Confirms(calls[i], h)
    ensures Unconfirmed(s.models, h, g) ==>
              Unconfirmed(ActAll(s, calls).models, h, g)
              && RequireGeneration(ActAll(s, calls).models, h) == Failure(RevalidationRequired)
    ensures Unconfirmed(s.states, h, g) ==>
              Unconfirmed(ActAll(s, calls).states, h, g)
              && RequireGeneration(ActAll(s, calls).states, h) == Failure(RevalidationRequired)
    decreases |calls|
  {
    if calls == [] {
    } else {
      ActQuiet(s, calls[0]);
      if calls[0].OnEvidence? {
        assert !Confirms(calls[0], h);
        UnconfirmedEvidence(s, calls[0].evidence, h, g);
      }
      assert forall i | 0 <= i < |calls[1..]| :: calls[1..][i] == calls[i + 1];
      UnconfirmedStays(Act(s, calls[0]), calls[1..], h, g);
    }
  }

  // ---------------------------------------------------------------------------------------------
  // Live requests
  // ---------------------------------------------------------------------------------------------

  /** A request that has come through a restart and waits, or has ended since. */
  predicate Waiting(s: Fabric, id: Id) {
    id in s.ledger.requests
    && (s.ledger.requests[id].requiresRevalidation || s.ledger.requests[id].IsTerminal())
  }

  lemma RestoreKeepsLive(l: Ledger, r: Request, id: Id)
    requires id in l.requests && !l.requests[id].IsTerminal()
    ensures id in RestoreRecord(l, r).ledger.requests
    ensures RestoreRecord(l, r).ledger.requests[id] == l.requests[id]
  {
    EvictFramed(l.(requests := l.requests[r.id := Restored(r)],
                   terminalOrder := if r.IsTerminal() then l.terminalOrder + [r.id] else l.terminalOrder,
                   account := RestoredAccount(l.account, r.lifecycle)));
  }

  lemma {:induction false} RestoreAllKeepsLive(l: Ledger, records: seq<Request>, id: Id)
    requires id in l.requests && !l.requests[id].IsTerminal()
    ensures id in RestoreAll(l, records).ledger.requests
    ensures RestoreAll(l, records).ledger.requests[id] == l.requests[id]
    decreases |records|
  {
    if records == [] {
    } else {
      RestoreKeepsLive(l, records[0], id);
      if RestoreRecord(l, records[0]).result.Success? {
        RestoreAllKeepsLive(RestoreRecord(l, records[0]).ledger, records[1..], id);
      }
    }
  }

  lemma RestorePutsLive(l: Ledger, r: Request)
    requires RestoreRecord(l, r).result.Success? && !r.IsTerminal()
    ensures var l' := RestoreRecord(l, r).ledger; r.id in l'.requests && l'.requests[r.id] == Restored(r)
  {
    EvictFramed(l.(requests := l.requests[r.id := Restored(r)], account := RestoredAccount(l.account, r.lifecycle)));
  }

  lemma {:induction false} RestoreAllPutsLive(l: Ledger, records: seq<Request>, i: nat)
    requires RestoreAll(l, records).result.Success? && i < |records| && !records[i].IsTerminal()
    ensures var l' := RestoreAll(l, records).ledger;
      records[i].id in l'.requests && l'.requests[records[i].id] == Restored(records[i])
    decreases |records|
  {
    var l1 := RestoreRecord(l, records[0]).ledger;
    if i == 0 {
      RestorePutsLive(l, records[0]);
      RestoreAllKeepsLive(l1, records[1..], records[0].id);
    } else {
      RestoreAllPutsLive(l1, records[1..], i - 1);
    }
  }

  /** Every live request of the document waits for revalidation after the boot. */
  lemma LiveRequestsWait(s: Fabric, d: Document, incarnation: Id, i: nat)
    requires BootFrom(s, d, incarnation).result.Success? && i < |d.live| && !d.live[i].IsTerminal()
    ensures var s' := BootFrom(s, d, incarnation).fabric;
      && d.live[i].id in s'.ledger.requests
      && s'.ledger.requests[d.live[i].id] == d.live[i].(lifecycle := Interrupted, requiresRevalidation := true,
                                                        activeFlows := 0, accountingClosed := false)
      && Waiting(s', d.live[i].id)
  {
    RestoredShape(s, d, incarnation);
    RestoreAllPutsLive(RestoreAll(Cleared(s).ledger, d.terminal).ledger, d.live, i);
  }

  lemma WaitingStep(s: Fabric, s': Fabric, named: set<Id>, id: Id)
    requires Onward(s, s', named) && id !in named && Waiting(s, id) && id in s'.ledger.requests
    ensures Waiting(s', id)
  {
    assert At(id);
  }

  /**
   * Until `revalidate_request` names it, a waiting request gets no permission, no flow and no serving
   * record of one, in any run that retains it.
   */
  lemma {:induction false} WaitingStays(s: Fabric, calls: seq<Call>, id: Id)
    requires Coherent(s) && MintsDistinctly(s, calls) && Kept(s, calls, id) && Waiting(s, id)
    requires forall i | 0 <= i < |calls| :: id !in Revalidates(calls[i])
    ensures Coherent(ActAll(s, calls)) && Waiting(ActAll(s, calls), id)
    decreases |calls|
  {
    if calls == [] {
    } else {
      ActCoheres(s, calls[0]);
      ActOnward(s, calls[0]);
      WaitingStep(s, Act(s, calls[0]), Revalidates(calls[0]), id);
      assert forall i | 0 <= i < |calls[1..]| :: calls[1..][i] == calls[i + 1];
      WaitingStays(Act(s, calls[0]), calls[1..], id);
    }
  }

  lemma WaitingHoldsNoFlow(s: Fabric, id: Id)
    requires Coherent(s) && Waiting(s, id)
    ensures forall f | f in s.book.flows && s.book.flows[f].owner.OfRequest? ::
              s.book.flows[f].owner.request != id
  {
    IdleIsServingFlowless(s, id);
    forall f | f in s.book.flows && s.book.flows[f].owner.OfRequest?
      ensures s.book.flows[f].owner.request != id
    {
      assert At(f);
    }
  }

  // ---------------------------------------------------------------------------------------------
  // History
  // ---------------------------------------------------------------------------------------------

  function Reversed(order: seq<Id>): (r: seq<Id>)
    ensures |r| == |order| && forall i | 0 <= i < |r| :: r[i] == order[|order| - 1 - i]
  {
    seq(|order|, i requires 0 <= i < |order| => order[|order| - 1 - i])
  }

  /** The entries of the queue whose records are still retained, oldest first. */
  function Surviving(order: seq<Id>, requests: Requests): (kept: seq<Id>)
    ensures |kept| <= |order|
    decreases |order|
  {
    if order == [] then []
    else
      var last := order[|order| - 1];
      Surviving(order[..|order| - 1], requests) + if last in requests then [last] else []
  }

  function IdSeq(records: seq<Request>): seq<Id> { seq(|records|, i requires 0 <= i < |records| => records[i].id) }

  ghost predicate Recorded(records: seq<Request>, requests: Requests) {
    forall i | 0 <= i < |records| :: records[i].id in requests && requests[records[i].id] == records[i]
  }

  ghost predicate Ended(records: seq<Request>) { forall i | 0 <= i < |records| :: records[i].IsTerminal() }

  ghost predicate EndedIds(ids: seq<Id>, requests: Requests) {
    forall i | 0 <= i < |ids| :: ids[i] in requests && requests[ids[i]].IsTerminal()
  }

  lemma IdSeqFirst(r: Request, records: seq<Request>)
    ensures IdSeq([r] + records) == [r.id] + IdSeq(records)
  {
  }

  lemma ReversedLast(order: seq<Id>, last: Id)
    ensures Reversed(order + [last]) == [last] + Reversed(order)
  {
  }

  /** The exported endings are the retained records, newest ending first. */
  lemma {:induction false} ExportNewestFirst(l: Ledger, order: seq<Id>, max: nat)
    requires RecordsOk(l.requests) && |order| <= max
    ensures var out := ExportTerminal(l, order, max);
      IdSeq(out) == Reversed(Surviving(order, l.requests)) && Recorded(out, l.requests)
    decreases |order|
  {
    if order == [] {
    } else {
      var last, rest := order[|order| - 1], order[..|order| - 1];
      if last in l.requests {
        ExportNewestFirst(l, rest, max - 1);
        assert At(last) && RecordOk(last, l.requests[last]);
        IdSeqFirst(l.requests[last], ExportTerminal(l, rest, max - 1));
        ReversedLast(Surviving(rest, l.requests), last);
      } else {
        ExportNewestFirst(l, rest, max);
      }
    }
  }

  lemma {:induction false} EvictsNothing(s: Ledger)
    requires |s.terminalOrder| <= s.limits.maxRetained
    ensures Evict(s).terminalOrder == s.terminalOrder && Evict(s).requests == s.requests
  {
  }

  /** Restored endings are queued in the order of the document. */
  lemma {:induction false} RestoreQueues(l: Ledger, records: seq<Request>)
    requires RestoreAll(l, records).result.Success?
    requires Ended(records)
    requires |l.terminalOrder| + |records| <= l.limits.maxRetained
    ensures var l' := RestoreAll(l, records).ledger;
      l'.terminalOrder == l.terminalOrder + IdSeq(records) && l'.limits == l.limits
    decreases |records|
  {
    if records == [] {
      assert IdSeq(records) == [];
    } else {
      var r := records[0];
      EvictsNothing(l.(requests := l.requests[r.id := Restored(r)], terminalOrder := l.terminalOrder + [r.id],
                       account := RestoredAccount(l.account, r.lifecycle)));
      RestoreQueues(RestoreRecord(l, r).ledger, records[1..]);
      assert records == [r] + records[1..];
      IdSeqFirst(r, records[1..]);
    }
  }

  lemma {:induction false} RestoreLiveQueuesNothing(l: Ledger, records: seq<Request>)
    requires RestoreAll(l, records).result.Success?
    requires forall i | 0 <= i < |records| :: !records[i].IsTerminal()
    requires |l.terminalOrder| <= l.limits.maxRetained
    ensures RestoreAll(l, records).ledger.terminalOrder == l.terminalOrder
    decreases |records|
  {
    if records == [] {
    } else {
      var r := records[0];
      EvictsNothing(l.(requests := l.requests[r.id := Restored(r)],
                       account := RestoredAccount(l.account, r.lifecycle)));
      RestoreLiveQueuesNothing(RestoreRecord(l, r).ledger, records[1..]);
    }
  }

  // ---------------------------------------------------------------------------------------------
  // When a coordinator can boot from its own export
  // ---------------------------------------------------------------------------------------------

  ghost predicate RegistrySound(m: map<Word64, Registration>, limit: nat) {
    |m| <= limit && forall h | h in m :: h != 0 && m[h].generation != 0
  }

  /** What a snapshot needs of everything but the requests. */
  ghost predicate Persistable(s: Fabric) {
    && PolicyValid(s.policy) && s.policy.generation != 0
    && RegistrySound(s.models, s.config.maxModels) && RegistrySound(s.states, s.config.maxStates)
    && (s.topology.Some? ==> TopologyAuthoritative(s.topology.value))
  }

  lemma RegistryStaysSound(m: map<Word64, Registration>, limit: nat, h: Word64, expected: Option<Generation>)
    requires RegistrySound(m, limit)
    ensures RegistrySound(Revalidated(m, h), limit)
    ensures var g := AdvanceGeneration(m, limit, h, expected);
      g.Success? ==> RegistrySound(m[h := Registration(g.value, false)], limit)
  {
    if h in m {
      assert Revalidated(m, h).Keys == m.Keys;
      assert |Revalidated(m, h)| == |m|;
      var g := AdvanceGeneration(m, limit, h, expected);
      if g.Success? {
        assert m[h := Registration(g.value, false)].Keys == m.Keys;
        assert |m[h := Registration(g.value, false)]| == |m|;
      }
    }
  }

  lemma EvidencePersistable(s: Fabric, call: EvidenceCall)
    requires Persistable(s)
    ensures Persistable(ActEvidence(s, call))
  {
    match call
    case CallModel(h, expected) => RegistryStaysSound(s.models, s.config.maxModels, h, expected);
    case CallState(h, expected) => RegistryStaysSound(s.states, s.config.maxStates, h, expected);
    case CallModelConfirm(h) => RegistryStaysSound(s.models, s.config.maxModels, h, None);
    case CallStateConfirm(h) => RegistryStaysSound(s.states, s.config.maxStates, h, None);
    case CallPolicy(p) => PolicyPersistable(s, p);
    case CallTopology(t, now) => TopologyPersistable(s, t, now);
    case _ =>
  }

  lemma PolicyPersistable(s: Fabric, p: Policy)
    requires Persistable(s)
    ensures Persistable(ApplyPolicy(s, p).fabric)
  {
  }

  lemma TopologyPersistable(s: Fabric, t: Topology, now: int)
    requires Persistable(s)
    ensures Persistable(PublishTopology(s, t, now).fabric)
  {
  }

  /** No run leaves a coordinator whose evidence could not be persisted. */
  lemma {:induction false} PersistableStays(s: Fabric, calls: seq<Call>)
    requires Persistable(s)
    ensures Persistable(ActAll(s, calls))
    decreases |calls|
  {
    if calls == [] {
    } else {
      ActQuiet(s, calls[0]);
      if calls[0].OnEvidence? { EvidencePersistable(s, calls[0].evidence); }
      PersistableStays(Act(s, calls[0]), calls[1..]);
    }
  }

  lemma {:induction false} ListedCount(m: map<Word64, Registration>, entries: Entries)
    requires Lists(m, entries)
    ensures |entries| == |m|
    decreases |entries|
  {
    if entries == [] {
      assert m.Keys == {};
      assert |m| == |m.Keys|;
    } else {
      var last := entries[|entries| - 1];
      var rest, m' := entries[..|entries| - 1], m - {last.0};
      forall h | h in m'
        ensures (h, m'[h]) in rest
      {
        var i :| 0 <= i < |entries| && entries[i] == (h, m[h]);
        assert rest[i] == entries[i];
      }
      ListedCount(m', rest);
      assert m'.Keys == m.Keys - {last.0};
      assert |m| == |m.Keys| && |m'| == |m'.Keys|;
    }
  }

  /** No retained identity is queued twice, and every queued one that is retained has ended. */
  ghost predicate Bootable(order: seq<Id>, requests: Requests) {
    && (forall i, j | 0 <= i < j < |order| && order[i] in requests :: order[i] != order[j])
    && (forall i | 0 <= i < |order| && order[i] in requests :: requests[order[i]].IsTerminal())
  }

  lemma {:induction false} SurvivingHas(order: seq<Id>, requests: Requests, id: Id)
    ensures id in Surviving(order, requests) <==> id in order && id in requests
    decreases |order|
  {
    if order == [] {
    } else {
      SurvivingHas(order[..|order| - 1], requests, id);
      assert order == order[..|order| - 1] + [order[|order| - 1]];
    }
  }

  lemma {:induction false} BootableMeaning(order: seq<Id>, requests: Requests)
    ensures var kept := Surviving(order, requests);
      Bootable(order, requests) <==> Distinct(kept) && EndedIds(kept, requests)
    decreases |order|
  {
    if order == [] {
    } else {
      var last, rest := order[|order| - 1], order[..|order| - 1];
      BootableMeaning(rest, requests);
      SurvivingHas(rest, requests, last);
      BootableLast(rest, last, requests);
      assert order == rest + [last];
      if last in requests {
        DistinctLast(Surviving(rest, requests), last, requests);
      } else {
        assert Surviving(order, requests) == Surviving(rest, requests);
      }
    }
  }

  lemma BootableLast(rest: seq<Id>, last: Id, requests: Requests)
    ensures Bootable(rest + [last], requests) <==>
      Bootable(rest, requests) && (last in requests ==> last !in rest && requests[last].IsTerminal())
  {
    var order := rest + [last];
    assert forall i | 0 <= i < |rest| :: order[i] == rest[i];
    assert order[|rest|] == last;
  }

  lemma DistinctLast(rest: seq<Id>, last: Id, requests: Requests)
    ensures Distinct(rest + [last]) <==> Distinct(rest) && last !in rest
    ensures EndedIds(rest + [last], requests) <==>
            EndedIds(rest, requests) && last in requests && requests[last].IsTerminal()
  {
    var order := rest + [last];
    assert forall i | 0 <= i < |rest| :: order[i] == rest[i];
    assert order[|rest|] == last;
  }

  /** A coordinator boots from its own export exactly when its queue of endings is `Bootable`. */
  lemma OwnExportBootsExactly(s: Fabric, d: Document, t: Fabric, incarnation: Id)
    requires Coherent(s) && Persistable(s) && Exports(s, d) && t.config == s.config
    ensures BootFrom(t, d, incarnation).result.Success? <==> Bootable(s.ledger.terminalOrder, s.ledger.requests)
  {
    RecoveryIsAllOrNothing(t, d, incarnation);
    ListedCount(s.models, d.models);
    ListedCount(s.states, d.states);
    RequestsListedExactly(s, d);
  }

  lemma LimitsView(s: Fabric)
    requires Coherent(s)
    ensures s.ledger.limits == Normalised(s.config.ledger)
  {
    View(s);
  }

  lemma RequestsListedExactly(s: Fabric, d: Document)
    requires Coherent(s) && Exports(s, d)
    ensures (Inspect(d.terminal, {}).Success? && Inspect(d.live, Inspect(d.terminal, {}).value).Success?)
            <==> Bootable(s.ledger.terminalOrder, s.ledger.requests)
  {
    LedgerView(s);
    LimitsView(s);
    var l := s.ledger;
    InspectMeaning(d.terminal, {});
    InspectMeaning(d.live, IdsOf(d.terminal));
    assert {} + IdsOf(d.terminal) == IdsOf(d.terminal);
    BootableMeaning(l.terminalOrder, l.requests);
    ExportNewestFirst(l, l.terminalOrder, s.config.ledger.maxRetained);
    TerminalListed(l, Surviving(l.terminalOrder, l.requests), d.terminal);
    LiveListed(l, d.terminal, d.live);
  }

  lemma TerminalListed(l: Ledger, kept: seq<Id>, records: seq<Request>)
    requires RecordsOk(l.requests) && IdSeq(records) == Reversed(kept) && Recorded(records, l.requests)
    ensures Listed(records, {}) <==> Distinct(kept)
    ensures EndedIds(kept, l.requests) <==> Ended(records)
  {
    var n := |kept|;
    assert |records| == |IdSeq(records)| == n;
    forall i | 0 <= i < n
      ensures records[i].id == kept[n - 1 - i] && RecordOk(records[i].id, records[i])
    {
      assert IdSeq(records)[i] == Reversed(kept)[i];
      assert At(records[i].id);
    }
    assert forall i | 0 <= i < n :: kept[i] == records[n - 1 - i].id;
    SameDistinct(records, kept);
  }

  lemma SameDistinct(records: seq<Request>, kept: seq<Id>)
    requires |records| == |kept| && forall i | 0 <= i < |kept| :: records[i].id == kept[|kept| - 1 - i]
    ensures Distinct(kept) <==> forall i, j | 0 <= i < j < |records| :: records[i].id != records[j].id
  {
    var n := |kept|;
    forall i, j | 0 <= i < j < n
      ensures kept[i] == records[n - 1 - i].id && kept[j] == records[n - 1 - j].id && n - 1 - j < n - 1 - i
    {
    }
  }

  /** The live records come after the ended ones exactly when no ended one is live. */
  lemma LiveListed(l: Ledger, terminal: seq<Request>, live: seq<Request>)
    requires RecordsOk(l.requests) && ListsLive(l.requests, live) && Recorded(terminal, l.requests)
    ensures Listed(live, IdsOf(terminal)) <==> Ended(terminal)
  {
    forall i | 0 <= i < |live|
      ensures !live[i].id.IsNil() && |live[i].attempts| <= MAX_ATTEMPTS
    {
      assert At(live[i].id) && RecordOk(live[i].id, live[i]);
    }
    forall i | 0 <= i < |terminal| && !terminal[i].IsTerminal()
      ensures exists j :: 0 <= j < |live| && live[j].id in IdsOf(terminal)
    {
      assert terminal[i].id in IdsOf(terminal);
      var j :| 0 <= j < |live| && live[j] == terminal[i];
    }
  }

  // ---------------------------------------------------------------------------------------------
  // The order of endings after a restart
  // ---------------------------------------------------------------------------------------------

  lemma {:induction false} SurvivingWhole(order: seq<Id>, requests: Requests)
    ensures |Surviving(order, requests)| == |order| ==> Surviving(order, requests) == order
    decreases |order|
  {
    if order == [] {
    } else {
      SurvivingWhole(order[..|order| - 1], requests);
    }
  }

  lemma TurnedAround(order: seq<Id>)
    requires Distinct(order)
    ensures Reversed(order) == order <==> |order| <= 1
  {
    if |order| > 1 { assert Reversed(order)[0] == order[|order| - 1] != order[0]; }
  }

  lemma SelfReversed(order: seq<Id>, requests: Requests)
    requires Distinct(Surviving(order, requests))
    ensures Reversed(Surviving(order, requests)) == order <==>
            order == [] || (|order| == 1 && order[0] in requests)
  {
    SurvivingWhole(order, requests);
    if |order| == 1 { assert Surviving(order[..0], requests) == []; }
    TurnedAround(Surviving(order, requests));
  }

  /**
   * A restart turns the retained order of endings around, so what ended last is evicted first; the order
   * is kept exactly when it has at most one entry, and that one is retained.
   */
  lemma RestartReversesHistory(s: Fabric, d: Document, t: Fabric, incarnation: Id)
    requires Coherent(s) && Persistable(s) && Exports(s, d)
    requires t.config == s.config && Configured(t) && BootFrom(t, d, incarnation).result.Success?
    ensures var order := s.ledger.terminalOrder;
      var order' := BootFrom(t, d, incarnation).fabric.ledger.terminalOrder;
      && order' == Reversed(Surviving(order, s.ledger.requests))
      && (order' == order <==> order == [] || (|order| == 1 && order[0] in s.ledger.requests))
  {
    LedgerView(s);
    LimitsView(s);
    var l := s.ledger;
    OwnExportBootsExactly(s, d, t, incarnation);
    BootableMeaning(l.terminalOrder, l.requests);
    ExportNewestFirst(l, l.terminalOrder, s.config.ledger.maxRetained);
    TerminalListed(l, Surviving(l.terminalOrder, l.requests), d.terminal);
    RestoredShape(t, d, incarnation);
    RestoresOrder(Cleared(t).ledger, d.terminal, d.live, s.ledger.requests);
    SelfReversed(l.terminalOrder, l.requests);
  }

  lemma RestoresOrder(l: Ledger, terminal: seq<Request>, live: seq<Request>, requests: Requests)
    requires RestoreAll(l, terminal).result.Success? && RestoreAll(RestoreAll(l, terminal).ledger, live).result.Success?
    requires Ended(terminal) && ListsLive(requests, live) && l.terminalOrder == []
    requires |IdSeq(terminal)| <= l.limits.maxRetained
    ensures RestoreAll(RestoreAll(l, terminal).ledger, live).ledger.terminalOrder == IdSeq(terminal)
  {
    RestoreQueues(l, terminal);
    RestoreLiveQueuesNothing(RestoreAll(l, terminal).ledger, live);
  }

  // ---------------------------------------------------------------------------------------------
  // Ended records after a restart
  // ---------------------------------------------------------------------------------------------

  lemma RestoreStays(l: Ledger, r: Request, id: Id)
    requires id != r.id
    ensures var l' := RestoreRecord(l, r).ledger;
      id in l'.requests ==> id in l.requests && l'.requests[id] == l.requests[id]
  {
    EvictFramed(l.(requests := l.requests[r.id := Restored(r)],
                   terminalOrder := if r.IsTerminal() then l.terminalOrder + [r.id] else l.terminalOrder,
                   account := RestoredAccount(l.account, r.lifecycle)));
  }

  lemma {:induction false} RestoreAllStays(l: Ledger, records: seq<Request>, id: Id)
    requires id !in IdSeq(records)
    ensures var l' := RestoreAll(l, records).ledger;
      id in l'.requests ==> id in l.requests && l'.requests[id] == l.requests[id]
    decreases |records|
  {
    if records == [] {
    } else {
      assert records == [records[0]] + records[1..];
      IdSeqFirst(records[0], records[1..]);
      RestoreStays(l, records[0], id);
      if RestoreRecord(l, records[0]).result.Success? {
        RestoreAllStays(RestoreRecord(l, records[0]).ledger, records[1..], id);
      }
    }
  }

  lemma RestorePutsEnded(l: Ledger, r: Request)
    requires RestoreRecord(l, r).result.Success? && r.IsTerminal()
    ensures var l' := RestoreRecord(l, r).ledger; r.id in l'.requests ==> l'.requests[r.id] == Closed(r)
  {
    EvictFramed(l.(requests := l.requests[r.id := Restored(r)], terminalOrder := l.terminalOrder + [r.id],
                   account := RestoredAccount(l.account, r.lifecycle)));
  }

  lemma {:induction false} RestoreAllPutsEnded(l: Ledger, records: seq<Request>, i: nat)
    requires RestoreAll(l, records).result.Success? && i < |records| && records[i].IsTerminal()
    requires forall j, k | 0 <= j < k < |records| :: records[j].id != records[k].id
    ensures var l' := RestoreAll(l, records).ledger;
      records[i].id in l'.requests ==> l'.requests[records[i].id] == Closed(records[i])
    decreases |records|
  {
    var rest := records[1..];
    var l1 := RestoreRecord(l, records[0]).ledger;
    assert forall j | 0 <= j < |rest| :: rest[j] == records[j + 1];
    if i == 0 {
      RestorePutsEnded(l, records[0]);
      assert records[0].id !in IdSeq(rest);
      RestoreAllStays(l1, rest, records[0].id);
    } else {
      RestoreAllPutsEnded(l1, rest, i - 1);
    }
  }

  /** Whatever the document, an ended record of it that the boot retains is unchanged. */
  lemma EndedRecordsComeBack(t: Fabric, d: Document, incarnation: Id, i: nat)
    requires BootFrom(t, d, incarnation).result.Success? && i < |d.terminal| && d.terminal[i].IsTerminal()
    ensures var requests := BootFrom(t, d, incarnation).fabric.ledger.requests;
      d.terminal[i].id in requests ==> requests[d.terminal[i].id] == Closed(d.terminal[i])
  {
    RecoveryIsAllOrNothing(t, d, incarnation);
    InspectMeaning(d.terminal, {});
    InspectMeaning(d.live, IdsOf(d.terminal));
    assert {} + IdsOf(d.terminal) == IdsOf(d.terminal);
    RestoredShape(t, d, incarnation);
    var l := Cleared(t).ledger;
    RestoreAllPutsEnded(l, d.terminal, i);
    assert d.terminal[i].id in IdsOf(d.terminal);
    assert d.terminal[i].id !in IdSeq(d.live);
    RestoreAllStays(RestoreAll(l, d.terminal).ledger, d.live, d.terminal[i].id);
  }

  /** Endings that fit under the ceiling are all retained. */
  lemma {:induction false} RestoreRetains(l: Ledger, records: seq<Request>)
    requires RestoreAll(l, records).result.Success? && Ended(records)
    requires |l.terminalOrder| + |records| <= l.limits.maxRetained
    ensures var l' := RestoreAll(l, records).ledger;
      && l.requests.Keys <= l'.requests.Keys && (forall i | 0 <= i < |records| :: records[i].id in l'.requests)
    decreases |records|
  {
    if records == [] {
    } else {
      var r, rest := records[0], records[1..];
      EvictsNothing(l.(requests := l.requests[r.id := Restored(r)], terminalOrder := l.terminalOrder + [r.id],
                       account := RestoredAccount(l.account, r.lifecycle)));
      RestoreRetains(RestoreRecord(l, r).ledger, rest);
      assert forall i | 0 < i < |records| :: records[i] == rest[i - 1];
    }
  }

  lemma {:induction false} RestoreLiveRetains(l: Ledger, records: seq<Request>)
    requires RestoreAll(l, records).result.Success?
    requires forall i | 0 <= i < |records| :: !records[i].IsTerminal()
    requires |l.terminalOrder| <= l.limits.maxRetained
    ensures l.requests.Keys <= RestoreAll(l, records).ledger.requests.Keys
    decreases |records|
  {
    if records == [] {
    } else {
      var r := records[0];
      EvictsNothing(l.(requests := l.requests[r.id := Restored(r)],
                       account := RestoredAccount(l.account, r.lifecycle)));
      RestoreLiveRetains(RestoreRecord(l, r).ledger, records[1..]);
    }
  }

  /** A document that separates ended from live, and fits, loses no ending. */
  lemma EndedRecordsAreRetained(t: Fabric, d: Document, incarnation: Id)
    requires BootFrom(t, d, incarnation).result.Success? && Ended(d.terminal)
    requires forall i | 0 <= i < |d.live| :: !d.live[i].IsTerminal()
    requires |d.terminal| <= t.ledger.limits.maxRetained
    ensures var requests := BootFrom(t, d, incarnation).fabric.ledger.requests;
      forall i | 0 <= i < |d.terminal| :: d.terminal[i].id in requests
  {
    RestoredShape(t, d, incarnation);
    var l := Cleared(t).ledger;
    RestoreRetains(l, d.terminal);
    RestoreQueues(l, d.terminal);
    RestoreLiveRetains(RestoreAll(l, d.terminal).ledger, d.live);
  }

  // ---------------------------------------------------------------------------------------------
  // What does not survive
  // ---------------------------------------------------------------------------------------------

  /** No transfer, flow, contract, route or deferral, and nothing counted. */
  predicate HoldsNothingOpen(s: Fabric) {
    && s.transfers == map[] && s.owned == {} && s.slo == map[] && s.routes == map[]
    && s.book.flows == map[] && s.book.byRequest == {} && s.book.byTransfer == {}
    && s.book.bulk == 0 && s.book.nextFlow == 0
    && s.defers.records == map[] && s.defers.streaming == 0
    && s.started == 0 && s.finished == 0 && s.refused == 0
  }

  /**
   * A boot from a document starts the next epoch under the next policy number with nothing open, and the
   * evidence it carries over counts for nothing in an incarnation that did not observe it.
   */
  lemma RestartForgets(t: Fabric, d: Document, incarnation: Id)
    requires BootFrom(t, d, incarnation).result.Success?
    ensures var s := BootFrom(t, d, incarnation).fabric;
      && HoldsNothingOpen(s) && s.config == t.config
      && s.epoch == d.epoch + 1 && BootFrom(t, d, incarnation).result.value == s.epoch
      && s.incarnation == incarnation && s.sequence == 1
      && s.bootCount > d.bootCount && s.bootCount > t.bootCount
      && (s.bootCount == d.bootCount + 1 || s.bootCount == t.bootCount + 1)
      && s.policy.generation == d.policy.generation + 1 && s.policy.(generation := d.policy.generation) == d.policy
      && s.topology == d.topology
      && (s.topology.Some? && s.topology.value.boot != incarnation ==> forall now :: !Fresh(s, now))
  {
    RestoredShape(t, d, incarnation);
  }

  lemma FirstBootIsEmpty(t: Fabric, incarnation: Id)
    ensures var s := BootFresh(t, incarnation);
      && HoldsNothingOpen(s) && s.config == t.config && s.epoch == 1 && s.incarnation == incarnation && s.sequence == 1
      && s.models == map[] && s.states == map[] && s.topology.None? && s.ledger.requests == map[]
      && s.ledger.terminalOrder == [] && s.ledger.flows == map[] && s.ledger.limits == t.ledger.limits
      && s.bootCount == t.bootCount + 1 && s.policy.(generation := t.config.policy.generation) == t.config.policy
      && s.policy.generation != 0
  {
  }
}
