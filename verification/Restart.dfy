/**
 * Boot, export and restore (src/coordinator.cpp, src/ledger.cpp): recovery is all or nothing, and what
 * survives a restart carries no authority until it is confirmed again.
 */
module Restart {
  import opened Ids
  import opened Policies
  import opened LedgerModel
  import opened LedgerAccounting
  import opened LedgerRecords
  import opened Deferral
  import opened CoordinatorModel
  import opened EvaluationProofs
  import opened CoordinatorCoherence
  import opened CoordinatorInvariant

  const FORMAT_VERSION: nat := 1

  type Entries = seq<(Word64, Registration)>

  /** The persisted document. */
  datatype Document = Document(
    version: nat, epoch: Generation, previous: Id, bootCount: nat, policy: Policy,
    topology: Option<Topology>, models: Entries, states: Entries, terminal: seq<Request>,
    live: seq<Request>)

  // ---------------------------------------------------------------------------------------------
  // Boot
  // ---------------------------------------------------------------------------------------------

  const EMPTY_BOOK: Book := Book(map[], {}, {}, 0, 0)

  /** `clear_state_locked`. */
  function Cleared(s: Fabric): Fabric {
    s.(topology := None, models := map[], states := map[], slo := map[], routes := map[],
       transfers := map[], owned := {}, book := EMPTY_BOOK,
       defers := Table(s.config.hash, s.config.maxDefers, map[], 0),
       ledger := Ledger(s.ledger.limits, map[], [], map[], {}, 0, NO_ACCOUNT),
       started := 0, finished := 0, refused := 0)
  }

  function Numbered(p: Policy): Policy { p.(generation := if p.generation == 0 then 1 else p.generation) }

  /** A coordinator that has been constructed and not yet booted. */
  function Unbooted(c: Config): Fabric {
    Fabric(c, 0, NIL, 0, 0, Numbered(c.policy), None, map[], map[], map[], map[], map[], {}, EMPTY_BOOK,
           Table(c.hash, c.maxDefers, map[], 0), EmptyLedger(c.ledger), 0, 0, 0)
  }

  function BootFresh(s: Fabric, incarnation: Id): Fabric {
    Cleared(s).(epoch := 1, bootCount := s.bootCount + 1, incarnation := incarnation, sequence := 1,
                policy := Numbered(s.config.policy))
  }

  predicate EntriesValid(entries: Entries) {
    forall i | 0 <= i < |entries| :: entries[i].0 != 0 && entries[i].1.generation != 0
  }

  /** Walks the records, remembering the identities seen. */
  function Inspect(records: seq<Request>, seen: set<Id>): (r: Result<set<Id>>)
    ensures r.Failure? ==> !r.code.Ok?
    decreases |records|
  {
    if records == [] then Success(seen)
    else
      var r := records[0];
      if r.id.IsNil() then Failure(MalformedInput)
      else if |r.attempts| > MAX_ATTEMPTS then Failure(MalformedInput)
      else if r.id in seen then Failure(AlreadyExists)
      else Inspect(records[1..], seen + {r.id})
  }

  function ValidateDocument(c: Config, d: Document): Status {
    if d.version != FORMAT_VERSION then UnsupportedVersion
    else if !PolicyValid(d.policy) then PolicyInvalid
    else if d.policy.generation == 0 then MalformedInput
    else if |d.models| > c.maxModels then BoundsExceeded
    else if !EntriesValid(d.models) then MalformedInput
    else if |d.states| > c.maxStates then BoundsExceeded
    else if !EntriesValid(d.states) then MalformedInput
    else if d.topology.Some? && !TopologyAuthoritative(d.topology.value) then MalformedInput
    else
      var first := Inspect(d.terminal, {});
      if first.Failure? then first.code
      else
        var second := Inspect(d.live, first.value);
        if second.Failure? then second.code else Ok
  }

  /** Every surviving registration must be confirmed again; the first entry of a hash wins. */
  function RestoreRegistry(entries: Entries): map<Word64, Registration>
    decreases |entries|
  {
    if entries == [] then map[]
    else
      var m := RestoreRegistry(entries[..|entries| - 1]);
      var (h, r) := entries[|entries| - 1];
      if h in m then m else m[h := Registration(r.generation, true)]
  }

  function RestoreAll(l: Ledger, records: seq<Request>): Outcome<()>
    decreases |records|
  {
    if records == [] then Outcome(l, Success(()))
    else
      var out := RestoreRecord(l, records[0]);
      if out.result.Failure? then out else RestoreAll(out.ledger, records[1..])
  }

  function WithEvidence(s: Fabric, d: Document): Fabric {
    s.(policy := d.policy.(generation := d.policy.generation + 1),
       models := RestoreRegistry(d.models), states := RestoreRegistry(d.states),
       topology := if d.topology.Some? then d.topology else s.topology)
  }

  /** `restore_state`, on a cleared coordinator. */
  function RestoreState(s: Fabric, d: Document): Effect<()> {
    var code := ValidateDocument(s.config, d);
    if !code.Ok? then Effect(s, Failure(code))
    else
      var s1 := WithEvidence(s, d);
      var out := RestoreBoth(s1.ledger, d.terminal, d.live);
      Effect(s1.(ledger := out.ledger), out.result)
  }

  function RestoreBoth(l: Ledger, terminal: seq<Request>, live: seq<Request>): Outcome<()> {
    var first := RestoreAll(l, terminal);
    if first.result.Failure? then first else RestoreAll(first.ledger, live)
  }

  function BootFrom(s: Fabric, d: Document, incarnation: Id): Effect<Generation> {
    var out := RestoreState(Cleared(s), d);
    if out.result.Failure? then Effect(Cleared(out.fabric), Failure(out.result.code))
    else
      Effect(out.fabric.(bootCount := Max(d.bootCount, s.bootCount) + 1, epoch := d.epoch + 1,
                         incarnation := incarnation, sequence := 1),
             Success(d.epoch + 1))
  }

  // ---------------------------------------------------------------------------------------------
  // Export
  // ---------------------------------------------------------------------------------------------

  /** The registry's entries in ascending order of hash. */
  ghost predicate Lists(m: map<Word64, Registration>, entries: Entries) {
    && (forall i, j | 0 <= i < j < |entries| :: entries[i].0 < entries[j].0)
    && (forall i | 0 <= i < |entries| :: entries[i].0 in m && m[entries[i].0] == entries[i].1)
    && (forall h | h in m :: (h, m[h]) in entries)
  }

  /** `export_state`, up to the order of live records. */
  ghost predicate Exports(s: Fabric, d: Document) {
    && d.version == FORMAT_VERSION && d.epoch == s.epoch && d.previous == s.incarnation
    && d.bootCount == s.bootCount && d.policy == s.policy && d.topology == s.topology
    && Lists(s.models, d.models) && Lists(s.states, d.states)
    && d.terminal == ExportTerminal(s.ledger, s.ledger.terminalOrder, s.config.ledger.maxRetained)
    && ListsLive(s.ledger.requests, d.live)
  }

  // ---------------------------------------------------------------------------------------------
  // All or nothing
  // ---------------------------------------------------------------------------------------------

  function IdsOf(records: seq<Request>): set<Id> { set i | 0 <= i < |records| :: records[i].id }

  /** What `Inspect` accepts: usable records, no identity twice, none seen before. */
  ghost predicate Listed(records: seq<Request>, seen: set<Id>) {
    && (forall i | 0 <= i < |records| ::
          !records[i].id.IsNil() && |records[i].attempts| <= MAX_ATTEMPTS && records[i].id !in seen)
    && (forall i, j | 0 <= i < j < |records| :: records[i].id != records[j].id)
  }

  lemma {:induction false} InspectMeaning(records: seq<Request>, seen: set<Id>)
    ensures Inspect(records, seen).Success? <==> Listed(records, seen)
    ensures Inspect(records, seen).Success? ==> Inspect(records, seen).value == seen + IdsOf(records)
    decreases |records|
  {
    if records == [] {
    } else {
      var r, rest := records[0], records[1..];
      InspectMeaning(rest, seen + {r.id});
      assert IdsOf(records) == {r.id} + IdsOf(rest) by {
        forall id | id in IdsOf(records)
          ensures id in {r.id} + IdsOf(rest)
        {
          var i :| 0 <= i < |records| && records[i].id == id;
          if i > 0 { assert rest[i - 1].id == id; }
        }
        forall id | id in IdsOf(rest)
          ensures id in IdsOf(records)
        {
          var i :| 0 <= i < |rest| && rest[i].id == id;
          assert records[i + 1].id == id;
        }
      }
      if Listed(records, seen) {
        assert Listed(rest, seen + {r.id}) by {
          forall i | 0 <= i < |rest|
            ensures rest[i] == records[i + 1] && rest[i].id != r.id
          {
          }
          forall i, j | 0 <= i < j < |rest|
            ensures rest[i].id != rest[j].id
          {
            assert rest[i] == records[i + 1] && rest[j] == records[j + 1];
          }
        }
      }
      if Inspect(records, seen).Success? {
        assert forall i | 0 < i < |records| :: records[i] == rest[i - 1];
      }
    }
  }

  /** What a document must satisfy, in no order. */
  ghost predicate Wellformed(c: Config, d: Document) {
    && d.version == 1 && PolicyValid(d.policy) && d.policy.generation != 0
    && |d.models| <= c.maxModels && |d.states| <= c.maxStates
    && (forall e | e in d.models || e in d.states :: e.0 != 0 && e.1.generation != 0)
    && (d.topology.Some? ==> TopologyAuthoritative(d.topology.value))
    && Listed(d.terminal, {}) && Listed(d.live, IdsOf(d.terminal))
  }

  lemma DocumentExactly(c: Config, d: Document)
    ensures ValidateDocument(c, d).Ok? <==> Wellformed(c, d)
  {
    InspectMeaning(d.terminal, {});
    InspectMeaning(d.live, IdsOf(d.terminal));
    assert {} + IdsOf(d.terminal) == IdsOf(d.terminal);
  }

  /** A record that has not been met is always accepted. */
  lemma RestoreFreshRecord(l: Ledger, r: Request)
    requires !r.id.IsNil() && |r.attempts| <= MAX_ATTEMPTS && r.id !in l.requests
    ensures RestoreRecord(l, r).result.Success?
    ensures RestoreRecord(l, r).ledger.requests.Keys <= l.requests.Keys + {r.id}
    ensures SameFlows(l, RestoreRecord(l, r).ledger)
  {
    EvictFramed(l.(requests := l.requests[r.id := Restored(r)],
                   terminalOrder := if r.IsTerminal() then l.terminalOrder + [r.id] else l.terminalOrder,
                   account := RestoredAccount(l.account, r.lifecycle)));
  }

  lemma {:induction false} RestoreAllSucceeds(l: Ledger, records: seq<Request>, seen: set<Id>)
    requires Inspect(records, seen).Success? && l.requests.Keys <= seen
    ensures var out := RestoreAll(l, records);
      && out.result.Success? && out.ledger.requests.Keys <= Inspect(records, seen).value
      && SameFlows(l, out.ledger)
    decreases |records|
  {
    if records == [] {
    } else {
      RestoreFreshRecord(l, records[0]);
      RestoreAllSucceeds(RestoreRecord(l, records[0]).ledger, records[1..], seen + {records[0].id});
    }
  }

  /** A document that passes validation is applied whole; one that does not leaves a cleared coordinator. */
  lemma RecoveryIsAllOrNothing(s: Fabric, d: Document, incarnation: Id)
    ensures var out := BootFrom(s, d, incarnation);
      && (out.result.Success? <==> ValidateDocument(s.config, d).Ok?)
      && (out.result.Failure? ==> out == Effect(Cleared(s), Failure(ValidateDocument(s.config, d))))
  {
    if ValidateDocument(s.config, d).Ok? { RestoreBothSucceed(Cleared(s).ledger, d.terminal, d.live); }
  }

  lemma RestoreBothSucceed(l: Ledger, terminal: seq<Request>, live: seq<Request>)
    requires l.requests == map[]
    requires Inspect(terminal, {}).Success? && Inspect(live, Inspect(terminal, {}).value).Success?
    ensures RestoreAll(l, terminal).result.Success?
    ensures RestoreAll(RestoreAll(l, terminal).ledger, live).result.Success?
  {
    assert l.requests.Keys == {};
    RestoreAllSucceeds(l, terminal, {});
    RestoreAllSucceeds(RestoreAll(l, terminal).ledger, live, Inspect(terminal, {}).value);
  }

  // ---------------------------------------------------------------------------------------------
  // A restored coordinator is coherent
  // ---------------------------------------------------------------------------------------------

  ghost predicate AllOk(records: seq<Request>) {
    forall i | 0 <= i < |records| :: RecordOk(records[i].id, records[i])
  }

  lemma {:induction false} RestoreAllOk(l: Ledger, records: seq<Request>)
    requires LedgerOk(l) && AllOk(records)
    ensures LedgerOk(RestoreAll(l, records).ledger) && RestoreAll(l, records).ledger.limits == l.limits
    ensures RestoreAll(l, records).ledger.flows == l.flows
    decreases |records|
  {
    if records == [] {
    } else {
      var op := OpRestore(records[0]);
      LedgerStep(l, op);
      StepKeepsRecords(l, op);
      RestoreFlows(l, records[0]);
      if RestoreRecord(l, records[0]).result.Success? {
        RestoreAllOk(RestoreRecord(l, records[0]).ledger, records[1..]);
      }
    }
  }

  lemma RestoreFlows(l: Ledger, r: Request)
    ensures RestoreRecord(l, r).ledger.flows == l.flows
  {
    EvictFramed(l.(requests := l.requests[r.id := Restored(r)],
                   terminalOrder := if r.IsTerminal() then l.terminalOrder + [r.id] else l.terminalOrder,
                   account := RestoredAccount(l.account, r.lifecycle)));
  }

  /** Limits that fit, and a hash that keeps one subject's classes apart. */
  ghost predicate Configured(s: Fabric) {
    && SeparatesClasses(s.config.hash)
    && s.ledger.limits == Normalised(s.config.ledger)
    && Roomy(s.ledger.limits, s.config)
  }

  /** The hash of the source qualifies, so a coordinator is configured as soon as its limits fit. */
  lemma SourceHashConfigures(c: Config)
    requires c.hash == DeferKey && Roomy(Normalised(c.ledger), c)
    ensures Configured(Unbooted(c))
  {
    DeferKeySeparatesClasses();
  }

  lemma EmptyLedgerOk(l: Limits)
    requires l.maxAttempts <= MAX_ATTEMPTS
    ensures LedgerOk(Ledger(l, map[], [], map[], {}, 0, NO_ACCOUNT))
  {
    var s := Ledger(l, map[], [], map[], {}, 0, NO_ACCOUNT);
    assert forall c :: FlowsOfClass(s.flows, c) == {};
    assert Books(s);
  }

  /** A coordinator with no transfers and no flows is coherent when its ledger and its table are. */
  lemma IdleCoherent(s: Fabric)
    requires s.book == EMPTY_BOOK && s.transfers == map[] && s.owned == {} && s.ledger.flows == map[]
    requires LedgerOk(s.ledger) && Configured(s) && TableOk(s.defers)
    ensures Coherent(s)
  {
    assert BulkSum(map[]) == 0;
    Close(s);
  }

  lemma ClearedCoherent(s: Fabric)
    requires Configured(s)
    ensures Coherent(Cleared(s)) && Configured(Cleared(s))
  {
    EmptyLedgerOk(s.ledger.limits);
    EmptyTableOk(s.config.hash, s.config.maxDefers);
    IdleCoherent(Cleared(s));
  }

  lemma FreshBootCoherent(s: Fabric, incarnation: Id)
    requires Configured(s) && !incarnation.IsNil()
    ensures Coherent(BootFresh(s, incarnation)) && Booted(BootFresh(s, incarnation))
  {
    ClearedCoherent(s);
    Unmoved(Cleared(s), BootFresh(s, incarnation));
  }

  /** Every boot, from any document of sound records, starts a coherent coordinator. */
  lemma RestoredCoherent(s: Fabric, d: Document, incarnation: Id)
    requires Configured(s) && AllOk(d.terminal) && AllOk(d.live) && !incarnation.IsNil()
    requires BootFrom(s, d, incarnation).result.Success?
    ensures Coherent(BootFrom(s, d, incarnation).fabric) && Booted(BootFrom(s, d, incarnation).fabric)
  {
    ClearedCoherent(s);
    LedgerView(Cleared(s));
    BothOk(Cleared(s).ledger, d.terminal, d.live);
    EmptyTableOk(s.config.hash, s.config.maxDefers);
    RestoredShape(s, d, incarnation);
    IdleCoherent(BootFrom(s, d, incarnation).fabric);
  }

  /** A successful boot is a cleared coordinator with a new authority and the document's contents. */
  lemma RestoredShape(s: Fabric, d: Document, incarnation: Id)
    requires BootFrom(s, d, incarnation).result.Success?
    ensures BootFrom(s, d, incarnation).fabric ==
      Cleared(s).(policy := d.policy.(generation := d.policy.generation + 1),
                  models := RestoreRegistry(d.models), states := RestoreRegistry(d.states),
                  topology := d.topology,
                  ledger := RestoreAll(RestoreAll(Cleared(s).ledger, d.terminal).ledger, d.live).ledger,
                  bootCount := Max(d.bootCount, s.bootCount) + 1, epoch := d.epoch + 1,
                  incarnation := incarnation, sequence := 1)
  {
  }

  lemma BothOk(l: Ledger, terminal: seq<Request>, live: seq<Request>)
    requires LedgerOk(l) && AllOk(terminal) && AllOk(live)
    ensures var l' := RestoreAll(RestoreAll(l, terminal).ledger, live).ledger;
      LedgerOk(l') && l'.limits == l.limits && l'.flows == l.flows
  {
    RestoreAllOk(l, terminal);
    RestoreAllOk(RestoreAll(l, terminal).ledger, live);
  }
}
