/**
 * A coordinator can write a snapshot that it will not read back: a request cancelled before any attempt is
 * bound is persisted, and the decoder refuses the record and with it the whole file.
 */
module SnapshotFindings {
  import opened Ids
  import opened Reasons
  import opened Policies
  import opened LedgerModel
  import opened LedgerFindings
  import opened CoordinatorModel
  import C = CoordinatorModel
  import opened CoordinatorFindings
  import opened Restart
  import RP = RestartProofs
  import opened Witnesses
  import opened Codec
  import opened Serialize
  import opened Snapshot

  /** Marks a document whose ranges a proof looks at. */
  predicate Looked(x: Stored) { true }

  ghost predicate Fitting(x: Stored) {
    forall y {:trigger Looked(y)} :: Looked(y) && y == x ==> Ranged(SnapshotLayout(), InRange(), y)
  }

  /** Any document in range with an ended record that has no attempts is refused, however it was made. */
  lemma UnboundEndingIsRefused(x: Stored, max: nat, i: nat)
    requires Fitting(x) && |PutDocument(SnapshotLayout(), x)| <= max < TWO_64
    requires i < |x.document.terminal| && x.document.terminal[i].attempts == []
    ensures var file := Save(SnapshotLayout(), x, max);
      file.Success? && Load(SnapshotLayout(), file.value, max) == Failure(MalformedInput)
  {
    assert Looked(x);
    SnapshotLoadsExactly(x, max);
    UnboundIsNotAccepted(x.document, i);
  }

  lemma UnboundIsNotAccepted(d: Document, i: nat)
    requires i < |d.terminal| && d.terminal[i].attempts == []
    ensures !RecordsAccepted(SnapshotLayout(), d)
  {
    TerminalAccepts(d.terminal[i]);
  }

  lemma TerminalAccepts(r: Request)
    ensures SnapshotLayout().terminal.fits(r) <==>
            RequestFits(RequestLayout(), r) && Acceptable(r) && EndedRecord(r)
  {
  }

  // ---------------------------------------------------------------------------------------------
  // Register, cancel, export, save
  // ---------------------------------------------------------------------------------------------

  /** The record of a request registered and cancelled at once. */
  function Unbound(r: Id, reason: Reason, sequence: Generation): Request {
    CancelledRecord(NewRequest(r, 0), reason, sequence, 0).(activeFlows := 0, accountingClosed := true)
  }

  lemma UnboundInRange(r: Id, reason: Reason, sequence: Generation)
    requires sequence < TWO_64
    ensures RequestFits(RequestLayout(), Unbound(r, reason, sequence))
    ensures Unbound(r, reason, sequence).attempts == [] && Unbound(r, reason, sequence).IsTerminal()
  {
    HeadInRange(Unbound(r, reason, sequence));
    TailInRange(Unbound(r, reason, sequence));
  }

  lemma HeadInRange(q: Request)
    requires q.generation < TWO_64 && q.currentAttemptGeneration < TWO_64
    ensures AllFit(HEAD, HeadValues(q))
  {
  }

  lemma TailInRange(q: Request)
    requires -TWO_63 <= q.registeredAt < TWO_63 && -TWO_63 <= q.terminalAt < TWO_63
    requires q.bytesIn < TWO_64 && q.bytesOut < TWO_64 && q.decisions < 0x1_0000_0000 && q.defers < 0x1_0000_0000
    requires q.rejections < 0x1_0000_0000 && q.activeFlows < 0x1_0000_0000 && q.authorityFloor < TWO_64
    ensures AllFit(TAIL, TailValues(q))
  {
  }

  lemma SmallPolicyInRange()
    ensures PolicyFits(PolicyLayout(), SmallPolicy()) && PolicyValid(SmallPolicy())
  {
    SmallPolicyIsValid();
    assert AllFit(POLICY, PolicyValues(SmallPolicy()));
    RuleInRange(NO_RULE);
    RuleInRange(KV_RULE);
  }

  lemma FitsTogether(a: seq<Kind>, b: seq<Kind>, v: seq<int>, w: seq<int>)
    requires AllFit(a, v) && AllFit(b, w)
    ensures AllFit(a + b, v + w)
  {
  }

  const CLASSES: seq<Kind> := [Flag, Enum(6), Enum(5), Enum(4), Enum(6)]
  const AMOUNTS: seq<Kind> := [U32, U64, U64, U64]
  const DEMANDS: seq<Kind> := [Flag, Flag, Flag, Flag, Flag, Flag, Flag]
  const DEFERRAL: seq<Kind> := [U32, U64, Flag]

  lemma RuleTable()
    ensures RULE == CLASSES + AMOUNTS + DEMANDS + DEFERRAL
  {
  }

  function ClassValues(r: Rule): seq<int> {
    [Bit(r.enabled), PriorityIndex(r.priority), PacingIndex(r.pacing), IntegrityIndex(r.integrity),
     IsolationIndex(r.isolation)]
  }

  function DemandValues(r: Rule): seq<int> {
    [Bit(r.requiresTopology), Bit(r.requiresSlo), Bit(r.requiresRoute), Bit(r.requiresModel), Bit(r.requiresState),
     Bit(r.requiresDeadline), Bit(r.starvationProtected)]
  }

  lemma RuleParts(r: Rule)
    requires r.reservedWeight == r.maxBurst == r.rateLimit == r.maxInFlight == r.maxDeferCount == r.maxDeferHorizon == 0
    ensures RuleValues(r) == ClassValues(r) + [0, 0, 0, 0] + DemandValues(r) + [0, 0, Bit(r.yieldsToLatency)]
  {
  }

  lemma ClassesInRange(r: Rule)
    ensures AllFit(CLASSES, ClassValues(r))
  {
  }

  lemma DemandsInRange(r: Rule)
    ensures AllFit(DEMANDS, DemandValues(r))
  {
    assert forall i | 0 <= i < 7 :: DEMANDS[i] == Flag && 0 <= DemandValues(r)[i] <= 1;
  }

  lemma AmountsInRange(bulk: bool)
    ensures AllFit(AMOUNTS, [0, 0, 0, 0]) && AllFit(DEFERRAL, [0, 0, Bit(bulk)])
  {
  }

  /** A rule without amounts fits its table. */
  lemma RuleInRange(r: Rule)
    requires r.reservedWeight == r.maxBurst == r.rateLimit == r.maxInFlight == r.maxDeferCount == r.maxDeferHorizon == 0
    ensures FitsIn(RuleSchema(), r)
  {
    var a, d, z := ClassValues(r), DemandValues(r), [0, 0, Bit(r.yieldsToLatency)];
    RuleTable();
    RuleParts(r);
    ClassesInRange(r);
    DemandsInRange(r);
    AmountsInRange(r.yieldsToLatency);
    FitsTogether(CLASSES, AMOUNTS, a, [0, 0, 0, 0]);
    FitsTogether(CLASSES + AMOUNTS, DEMANDS, a + [0, 0, 0, 0], d);
    FitsTogether(CLASSES + AMOUNTS + DEMANDS, DEFERRAL, a + [0, 0, 0, 0] + d, z);
  }

  lemma EntriesInRange(m: map<Word64, Registration>, entries: Entries)
    requires m == map[1 := Registration(1, false)] && Restart.Lists(m, entries)
    ensures AllOf(RecordCoder(EntrySchema()), entries) && |entries| == 1
  {
    RP.ListedCount(m, entries);
    assert |m| == |m.Keys| == 1;
    assert entries[0].0 == 1;
  }

  /** What the run leaves: the standard setting of a first boot, and the one cancelled record. */
  ghost predicate AfterRun(s: Fabric, r: Id, reason: Reason) {
    && s.epoch == 1 && s.incarnation == Id(0, 7) && s.bootCount == 1 && s.policy == SmallPolicy() && s.topology.None?
    && s.models == map[1 := Registration(1, false)] && s.states == map[1 := Registration(1, false)]
    && s.config.ledger.maxRetained == 4
    && Holds(s.ledger, s.ledger.limits, r, Unbound(r, reason, 2), [r])
  }

  lemma RunLeaves(r: Id, reason: Reason)
    requires !r.IsNil()
    ensures var s1 := C.RegisterRequest(Stocked(4), r, 0).fabric;
      AfterRun(C.CancelRequest(s1, r, reason, 0).fabric, r, reason)
  {
    StockedOpens(4);
    StockedIs(4);
    RequestOpens(Stocked(4), r);
    var s1 := C.RegisterRequest(Stocked(4), r, 0).fabric;
    CancelQuiet(s1, r, reason, 0);
    CancelAlone(s1.ledger, r, reason);
  }

  lemma CancelAlone(l: Ledger, r: Id, reason: Reason)
    requires Holds(l, l.limits, r, NewRequest(r, 0), []) && l.limits.maxRetained > 0
    ensures Holds(LedgerModel.CancelRequest(l, r, reason, 2, 0).ledger, l.limits, r, Unbound(r, reason, 2), [r])
  {
    AfterEnd(l, r, CancelledRecord(l.requests[r], reason, 2, 0),
             l.account.(cancelled := l.account.cancelled + 1));
    assert [] + [r] == [r];
  }

  /** A document in range with one ended record, which has no attempts. */
  ghost predicate EndsUnbound(d: Document) {
    Fitting(Stored(d, NO_TOPOLOGY)) && |d.terminal| == 1 && d.terminal[0].attempts == []
  }

  lemma ExportIsInRange(s: Fabric, r: Id, reason: Reason, d: Document)
    requires AfterRun(s, r, reason) && Exports(s, d)
    ensures EndsUnbound(d)
  {
    EntriesInRange(s.models, d.models);
    EntriesInRange(s.states, d.states);
    SmallPolicyInRange();
    UnboundInRange(r, reason, 2);
    HistoryExported(s.ledger, r, d.terminal);
    NothingLive(s.ledger.requests, r, d.live);
    PlaceholderInRange();
    assert AllFit([Counter, U64, U64, U64], DocumentHead(d));
  }

  lemma HistoryExported(l: Ledger, r: Id, records: seq<Request>)
    requires l.terminalOrder == [r] && r in l.requests && records == ExportTerminal(l, [r], 4)
    ensures records == [l.requests[r]]
  {
    assert ExportTerminal(l, [], 3) == [];
    assert [r][..0] == [];
  }

  lemma EmptyOrHeaded(records: seq<Request>)
    ensures records == [] || exists q :: q in records
  {
    if records != [] { assert records[0] in records; }
  }

  lemma NothingLive(requests: map<Id, Request>, r: Id, records: seq<Request>)
    requires requests.Keys == {r} && requests[r].IsTerminal() && ListsLive(requests, records)
    ensures records == []
  {
    assert forall q: Request :: q in records ==> q.id in requests.Keys && !q.IsTerminal();
    assert forall q: Request :: q !in records;
    EmptyOrHeaded(records);
  }

  lemma PlaceholderInRange()
    ensures RecordCoder(TopologySchema(false)).fits(NO_TOPOLOGY)
  {
    assert AllFit(TOPOLOGY, TopologyValues(NO_TOPOLOGY));
  }

  /** Register a request, cancel it before any attempt, export and save: the coordinator refuses its own file. */
  lemma EarlyCancellationLosesSnapshot(r: Id, reason: Reason, d: Document, max: nat)
    requires !r.IsNil()
    requires var s1 := C.RegisterRequest(Stocked(4), r, 0).fabric;
      Exports(C.CancelRequest(s1, r, reason, 0).fabric, d)
    requires |PutDocument(SnapshotLayout(), Stored(d, NO_TOPOLOGY))| <= max < TWO_64
    ensures var file := Save(SnapshotLayout(), Stored(d, NO_TOPOLOGY), max);
      file.Success? && Load(SnapshotLayout(), file.value, max) == Failure(MalformedInput)
  {
    ExportEndsUnbound(r, reason, d);
    UnboundEndingIsRefused(Stored(d, NO_TOPOLOGY), max, 0);
  }

  lemma ExportEndsUnbound(r: Id, reason: Reason, d: Document)
    requires !r.IsNil()
    requires var s1 := C.RegisterRequest(Stocked(4), r, 0).fabric;
      Exports(C.CancelRequest(s1, r, reason, 0).fabric, d)
    ensures EndsUnbound(d)
  {
    RunLeaves(r, reason);
    var s1 := C.RegisterRequest(Stocked(4), r, 0).fabric;
    ExportIsInRange(C.CancelRequest(s1, r, reason, 0).fabric, r, reason, d);
  }
}
