/**
 * The record codecs as the source runs them: methods that drive a `Writer` or a `Reader` field by field
 * and record by record, each proved against the layout functions whose round trips are in `Snapshot`.
 */
module Records {
  import opened Ids
  import opened Policies
  import opened LedgerModel
  import opened CoordinatorModel
  import opened Restart
  import opened Codec
  import opened Serialize
  import opened Snapshot

  // ---------------------------------------------------------------------------------------------
  // Contracts shared by the methods
  // ---------------------------------------------------------------------------------------------

  /** What a writer holds: its status and its bytes. */
  datatype Held = Held(fail: Status, bytes: Bytes)

  ghost function Now(w: Writer): Held
    reads w
  {
    Held(w.fail, w.buffer)
  }

  /** After `bytes` were written: they are held too, or the writer has failed because they do not fit. */
  ghost predicate Added(limit: nat, a: Held, bytes: Bytes, b: Held) {
    && (b.fail.Ok? <==> a.fail.Ok? && |a.bytes| + |bytes| <= limit)
    && (if b.fail.Ok? then b.bytes == a.bytes + bytes else b.fail == if a.fail.Ok? then BoundsExceeded else a.fail)
  }

  lemma AddedBoth(limit: nat, a: Held, x: Bytes, b: Held, y: Bytes, c: Held)
    requires Added(limit, a, x, b) && Added(limit, b, y, c)
    ensures Added(limit, a, x + y, c)
  {
    assert a.bytes + x + y == a.bytes + (x + y);
  }

  ghost predicate Appended(w: Writer, before: Held, bytes: Bytes)
    reads w
  {
    w.Valid() && Added(w.limit, before, bytes, Now(w))
  }

  /** The outcome is what was parsed, and a reader that succeeded stands where parsing stopped. */
  ghost predicate Took<T>(r: Reader, out: Result<T>, parsed: Parsed<T>)
    reads r
  {
    && r.Valid()
    && match parsed
       case Failure(code) => out == Failure(code)
       case Success(v) => out == Success(v.0) && r.Left() == Success(v.1)
  }

  // ---------------------------------------------------------------------------------------------
  // Fields, records and lists of records
  // ---------------------------------------------------------------------------------------------

  method WriteFields(w: Writer, ks: seq<Kind>, vs: seq<int>)
    requires w.Valid() && |vs| == |ks|
    modifies w
    ensures Appended(w, old(Now(w)), PutFields(ks, vs))
  {
    var i := 0;
    ghost var done: Bytes := [];
    while i < |ks|
      invariant 0 <= i <= |ks| && PutFields(ks, vs) == done + PutFields(ks[i..], vs[i..])
      invariant Appended(w, old(Now(w)), done)
    {
      assert ks[i..][1..] == ks[i + 1..] && vs[i..][1..] == vs[i + 1..];
      ghost var held, field := Now(w), PutField(ks[i], vs[i]);
      w.Field(ks[i], vs[i]);
      AddedBoth(w.limit, old(Now(w)), done, held, field, Now(w));
      assert done + (field + PutFields(ks[i + 1..], vs[i + 1..])) == done + field + PutFields(ks[i + 1..], vs[i + 1..]);
      i, done := i + 1, done + field;
    }
    assert done + [] == done;
  }

  function After(vs: seq<int>, p: (seq<int>, View)): (seq<int>, View) { (vs + p.0, p.1) }

  /** One more field read. */
  lemma FieldStep(ks: seq<Kind>, i: nat, view: View, vs: seq<int>)
    requires i < |ks|
    ensures var (v, rest) := TakeField(ks[i], view);
      After(vs, TakeFields(ks[i..], view)) == After(vs + [v], TakeFields(ks[i + 1..], rest))
  {
    var (v, rest) := TakeField(ks[i], view);
    assert ks[i..][1..] == ks[i + 1..];
    var others := TakeFields(ks[i + 1..], rest).0;
    assert vs + ([v] + others) == (vs + [v]) + others;
  }

  method ReadFields(r: Reader, ks: seq<Kind>) returns (vs: seq<int>)
    requires r.Valid()
    modifies r
    ensures r.Valid() && (vs, r.Left()) == TakeFields(ks, old(r.Left()))
  {
    vs := [];
    var i := 0;
    ghost var whole := TakeFields(ks, r.Left());
    assert ks[0..] == ks && [] + whole.0 == whole.0;
    while i < |ks|
      invariant 0 <= i <= |ks| && r.Valid() && whole == After(vs, TakeFields(ks[i..], r.Left()))
    {
      FieldStep(ks, i, r.Left(), vs);
      var v := r.Field(ks[i]);
      i, vs := i + 1, vs + [v];
    }
    assert ks[i..] == [] && vs + [] == vs;
  }

  method WriteRecords<T(!new)>(w: Writer, m: Schema<T>, xs: seq<T>)
    requires w.Valid() && Faithful(m)
    modifies w
    ensures Appended(w, old(Now(w)), PutList(RecordCoder(m), xs))
  {
    var i := 0;
    ghost var c, done: Bytes := RecordCoder(m), [];
    while i < |xs|
      invariant 0 <= i <= |xs| && PutList(c, xs) == done + PutList(c, xs[i..])
      invariant Appended(w, old(Now(w)), done)
    {
      ListPut(c, xs, i, done);
      ghost var held := Now(w);
      WriteFields(w, m.kinds, m.values(xs[i]));
      assert c.put(xs[i]) == PutFields(m.kinds, m.values(xs[i]));
      AddedBoth(w.limit, old(Now(w)), done, held, c.put(xs[i]), Now(w));
      i, done := i + 1, done + c.put(xs[i]);
    }
    assert done + [] == done;
  }

  /** One more element written. */
  lemma ListPut<T>(c: Coder<T>, xs: seq<T>, i: nat, done: Bytes)
    requires i < |xs|
    ensures done + PutList(c, xs[i..]) == done + c.put(xs[i]) + PutList(c, xs[i + 1..])
  {
    assert xs[i..][1..] == xs[i + 1..];
  }

  method ReadRecord<T>(r: Reader, m: Schema<T>) returns (out: Result<T>)
    requires r.Valid() && r.Left().Success?
    modifies r
    ensures Took(r, out, TakeRecord(m, old(r.Left()).value))
  {
    var vs := ReadFields(r, m.kinds);
    if !r.fail.Ok? { return Failure(r.fail); }
    if !m.accepts(m.make(vs)) { return Failure(MalformedInput); }
    return Success(m.make(vs));
  }

  function Before<T>(xs: seq<T>, p: Parsed<seq<T>>): Parsed<seq<T>> {
    if p.Failure? then p else Success((xs + p.value.0, p.value.1))
  }

  lemma ListEnds<T>(c: Coder<T>, s: Bytes, xs: seq<T>, p: Parsed<seq<T>>)
    ensures Before([], p) == p && Before(xs, TakeList(c, 0, s)) == Success((xs, s))
  {
    if p.Success? { assert [] + p.value.0 == p.value.0; }
    assert xs + [] == xs;
  }

  /** One more element read: the rest of the list follows it. */
  lemma ListStep<T>(c: Coder<T>, n: nat, s: Bytes, xs: seq<T>)
    requires n > 0 && c.take(s).Success?
    ensures Before(xs, TakeList(c, n, s)) == Before(xs + [c.take(s).value.0], TakeList(c, n - 1, c.take(s).value.1))
  {
    var others := TakeList(c, n - 1, c.take(s).value.1);
    if others.Success? {
      assert xs + ([c.take(s).value.0] + others.value.0) == (xs + [c.take(s).value.0]) + others.value.0;
    }
  }

  method ReadRecords<T(!new)>(r: Reader, m: Schema<T>, n: nat) returns (out: Result<seq<T>>)
    requires r.Valid() && r.Left().Success?
    modifies r
    ensures Took(r, out, TakeList(RecordCoder(m), n, old(r.Left()).value))
  {
    var xs: seq<T> := [];
    ghost var c, whole := RecordCoder(m), TakeList(RecordCoder(m), n, r.Left().value);
    ListEnds(c, [], xs, whole);
    while |xs| < n
      invariant |xs| <= n && r.Valid() && r.Left().Success?
      invariant whole == Before(xs, TakeList(c, n - |xs|, r.Left().value))
    {
      ghost var s := r.Left().value;
      var x := ReadRecord(r, m);
      assert c.take(s) == TakeRecord(m, s);
      if x.Failure? { return Failure(x.code); }
      ListStep(c, n - |xs|, s, xs);
      xs := xs + [x.value];
    }
    ListEnds(c, r.Left().value, xs, whole);
    return Success(xs);
  }

  method WriteCounted<T(!new)>(w: Writer, m: Schema<T>, xs: seq<T>)
    requires w.Valid() && Faithful(m)
    modifies w
    ensures Appended(w, old(Now(w)), PutCounted(RecordCoder(m), xs))
  {
    ghost var start := Now(w);
    w.Field(U32, |xs|);
    ghost var counted := Now(w);
    WriteRecords(w, m, xs);
    AddedBoth(w.limit, start, PutField(U32, |xs|), counted, PutList(RecordCoder(m), xs), Now(w));
  }

  method ReadCounted<T(!new)>(r: Reader, m: Schema<T>, max: nat) returns (out: Result<seq<T>>)
    requires r.Valid() && r.Left().Success?
    modifies r
    ensures Took(r, out, TakeCounted(RecordCoder(m), max, old(r.Left()).value))
  {
    var n := r.Count(max);
    if !r.fail.Ok? { return Failure(r.fail); }
    out := ReadRecords(r, m, n);
  }

  // ---------------------------------------------------------------------------------------------
  // Requests
  // ---------------------------------------------------------------------------------------------

  /** The tables of a request record. */
  datatype RequestTables = RequestTables(head: seq<Kind>, attempt: Schema<Attempt>, tail: seq<Kind>)

  ghost predicate TablesOk(f: RequestTables) { |f.head| == 8 && |f.tail| == 12 && Faithful(f.attempt) }

  function ShapeOf(f: RequestTables): RequestShape { RequestShape(f.head, RecordCoder(f.attempt), f.tail) }

  method WriteRequest(w: Writer, f: RequestTables, q: Request)
    requires w.Valid() && TablesOk(f)
    modifies w
    ensures Appended(w, old(Now(w)), PutRequest(ShapeOf(f), q))
  {
    ghost var start := Now(w);
    WriteFields(w, f.head, HeadValues(q));
    ghost var headed := Now(w);
    WriteCounted(w, f.attempt, q.attempts);
    ghost var listed := Now(w);
    WriteFields(w, f.tail, TailValues(q));
    ghost var attempts, tail := PutCounted(RecordCoder(f.attempt), q.attempts), PutFields(f.tail, TailValues(q));
    AddedBoth(w.limit, headed, attempts, listed, tail, Now(w));
    AddedBoth(w.limit, start, PutFields(f.head, HeadValues(q)), headed, attempts + tail, Now(w));
  }

  method ReadRequest(r: Reader, f: RequestTables) returns (out: Result<Request>)
    requires r.Valid() && r.Left().Success?
    modifies r
    ensures Took(r, out, TakeRequest(ShapeOf(f), old(r.Left()).value))
  {
    var h := ReadFields(r, f.head);
    if !r.fail.Ok? { return Failure(r.fail); }
    var attempts := ReadCounted(r, f.attempt, MAX_ATTEMPTS);
    if attempts.Failure? { return Failure(attempts.code); }
    var t := ReadFields(r, f.tail);
    if !r.fail.Ok? { return Failure(r.fail); }
    var q := RequestOf(h, attempts.value, t);
    if q.id.IsNil() { return Failure(MalformedInput); }
    if q.attempts != [] && q.currentAttempt.IsNil() { return Failure(MalformedInput); }
    if !q.lifecycle.RequestUnknown? && q.attempts == [] && !q.lifecycle.Registered? { return Failure(MalformedInput); }
    return Success(q);
  }

  /** The coder of a request list: terminal history also asks that the record has ended and holds no flow. */
  function ListCoder(f: RequestTables, ended: bool): Coder<Request> {
    if ended then Checked(RequestCoder(ShapeOf(f)), EndedRecord) else RequestCoder(ShapeOf(f))
  }

  ghost predicate Named(c: Coder<Request>) { true }

  /** `c` is the coder of such a list; loops over the list need not look inside it. */
  ghost predicate Lists(c: Coder<Request>, f: RequestTables, ended: bool) {
    forall k {:trigger Named(k)} :: Named(k) && k == c ==> k == ListCoder(f, ended)
  }

  method WriteListed(w: Writer, f: RequestTables, ended: bool, q: Request, ghost c: Coder<Request>)
    requires w.Valid() && TablesOk(f) && Lists(c, f, ended)
    modifies w
    ensures Appended(w, old(Now(w)), c.put(q))
  {
    assert Named(c);
    WriteRequest(w, f, q);
  }

  method WriteRequests(w: Writer, f: RequestTables, ended: bool, qs: seq<Request>, ghost c: Coder<Request>)
    requires w.Valid() && TablesOk(f) && Lists(c, f, ended)
    modifies w
    ensures Appended(w, old(Now(w)), PutCounted(c, qs))
  {
    ghost var start := Now(w);
    w.Field(U32, |qs|);
    ghost var counted := Now(w);
    var i := 0;
    ghost var done: Bytes := [];
    while i < |qs|
      invariant 0 <= i <= |qs| && PutList(c, qs) == done + PutList(c, qs[i..])
      invariant Appended(w, counted, done)
    {
      ListPut(c, qs, i, done);
      ghost var held := Now(w);
      WriteListed(w, f, ended, qs[i], c);
      AddedBoth(w.limit, counted, done, held, c.put(qs[i]), Now(w));
      i, done := i + 1, done + c.put(qs[i]);
    }
    assert done + [] == done;
    AddedBoth(w.limit, start, PutField(U32, |qs|), counted, done, Now(w));
  }

  method ReadListed(r: Reader, f: RequestTables, ended: bool, ghost c: Coder<Request>) returns (out: Result<Request>)
    requires r.Valid() && r.Left().Success? && Lists(c, f, ended)
    modifies r
    ensures Took(r, out, c.take(old(r.Left()).value))
  {
    assert Named(c);
    out := ReadRequest(r, f);
    if out.Failure? { return; }
    if ended && !out.value.IsTerminal() { return Failure(MalformedInput); }
    if ended && out.value.activeFlows != 0 { return Failure(MalformedInput); }
  }

  method ReadRequests(r: Reader, f: RequestTables, ended: bool, max: nat, ghost c: Coder<Request>)
    returns (out: Result<seq<Request>>)
    requires r.Valid() && r.Left().Success? && Lists(c, f, ended)
    modifies r
    ensures Took(r, out, TakeCounted(c, max, old(r.Left()).value))
  {
    var n := r.Count(max);
    if !r.fail.Ok? { return Failure(r.fail); }
    var qs: seq<Request> := [];
    ghost var whole := TakeList(c, n, r.Left().value);
    ListEnds(c, [], qs, whole);
    while |qs| < n
      invariant |qs| <= n && r.Valid() && r.Left().Success?
      invariant whole == Before(qs, TakeList(c, n - |qs|, r.Left().value))
    {
      ghost var s := r.Left().value;
      var q := ReadListed(r, f, ended, c);
      if q.Failure? { return Failure(q.code); }
      ListStep(c, n - |qs|, s, qs);
      qs := qs + [q.value];
    }
    ListEnds(c, r.Left().value, qs, whole);
    return Success(qs);
  }

  // ---------------------------------------------------------------------------------------------
  // Documents
  // ---------------------------------------------------------------------------------------------

  /** The tables of a document. */
  datatype Tables = Tables(
    head: seq<Kind>, policy: seq<Kind>, rule: Schema<Rule>, absent: Schema<Topology>, present: Schema<Topology>,
    entry: Schema<(Word64, Registration)>, request: RequestTables)

  ghost predicate DocumentTablesOk(f: Tables) {
    && |f.head| == 4 && |f.policy| == 10 && Faithful(f.rule) && Faithful(f.absent) && Faithful(f.present)
    && Faithful(f.entry) && TablesOk(f.request)
  }

  function LayoutOf(f: Tables): Layout {
    Layout(f.head, PolicyShape(f.policy, RecordCoder(f.rule)), RecordCoder(f.absent), RecordCoder(f.present),
           RecordCoder(f.entry), ListCoder(f.request, true), ListCoder(f.request, false))
  }

  method WritePolicy(w: Writer, head: seq<Kind>, rule: Schema<Rule>, p: Policy)
    requires w.Valid() && |head| == 10 && Faithful(rule)
    modifies w
    ensures Appended(w, old(Now(w)), PutPolicy(PolicyShape(head, RecordCoder(rule)), p))
  {
    ghost var start := Now(w);
    WriteFields(w, head, PolicyValues(p));
    ghost var headed := Now(w);
    WriteRecords(w, rule, p.rules);
    AddedBoth(w.limit, start, PutFields(head, PolicyValues(p)), headed, PutList(RecordCoder(rule), p.rules), Now(w));
  }

  method ReadPolicy(r: Reader, head: seq<Kind>, rule: Schema<Rule>) returns (out: Result<Policy>)
    requires r.Valid() && r.Left().Success? && |head| == 10
    modifies r
    ensures Took(r, out, TakePolicy(PolicyShape(head, RecordCoder(rule)), old(r.Left()).value))
  {
    var v := ReadFields(r, head);
    if !r.fail.Ok? { return Failure(r.fail); }
    if v[9] != CLASS_COUNT { return Failure(MalformedInput); }
    var rules := ReadRecords(r, rule, CLASS_COUNT);
    if rules.Failure? { return Failure(rules.code); }
    var p := PolicyFrom(v, rules.value);
    if p.maxExplanationSteps == 0 || p.maxExplanationSteps > MAX_EXPLANATION_STEPS {
      p := p.(maxExplanationSteps := MAX_EXPLANATION_STEPS);
    }
    if !PolicyValid(p) { return Failure(PolicyInvalid); }
    return Success(p);
  }

  method WriteFlagged(w: Writer, m: Schema<Topology>, flag: int, t: Topology)
    requires w.Valid() && Faithful(m)
    modifies w
    ensures Appended(w, old(Now(w)), PutField(Flag, flag) + PutRecord(m, t))
  {
    ghost var start := Now(w);
    w.Field(Flag, flag);
    ghost var flagged := Now(w);
    WriteFields(w, m.kinds, m.values(t));
    AddedBoth(w.limit, start, PutField(Flag, flag), flagged, PutRecord(m, t), Now(w));
  }

  method WriteEvidence(w: Writer, f: Tables, x: Stored)
    requires w.Valid() && DocumentTablesOk(f)
    modifies w
    ensures Appended(w, old(Now(w)), PutEvidence(LayoutOf(f), x))
  {
    if x.document.topology.Some? {
      WriteFlagged(w, f.present, 1, x.document.topology.value);
    } else {
      WriteFlagged(w, f.absent, 0, x.spare);
    }
  }

  method ReadEvidence(r: Reader, f: Tables) returns (out: Result<(bool, Topology)>)
    requires r.Valid() && r.Left().Success?
    modifies r
    ensures Took(r, out, TakeEvidence(LayoutOf(f), old(r.Left()).value))
  {
    var flag := r.Field(Flag);
    if !r.fail.Ok? { return Failure(r.fail); }
    var t := ReadRecord(r, if flag == 1 then f.present else f.absent);
    if t.Failure? { return Failure(t.code); }
    return Success((flag == 1, t.value));
  }

  ghost predicate ListsAll(z: Layout, f: Tables) {
    z.entry == RecordCoder(f.entry) && Lists(z.terminal, f.request, true) && Lists(z.live, f.request, false)
  }

  method WriteLists(w: Writer, f: Tables, d: Document, ghost z: Layout)
    requires w.Valid() && DocumentTablesOk(f) && ListsAll(z, f)
    modifies w
    ensures Appended(w, old(Now(w)), PutLists(z, d))
  {
    ghost var start := Now(w);
    WriteCounted(w, f.entry, d.models);
    ghost var one := Now(w);
    WriteCounted(w, f.entry, d.states);
    ghost var two := Now(w);
    WriteRequests(w, f.request, true, d.terminal, z.terminal);
    ghost var three := Now(w);
    WriteRequests(w, f.request, false, d.live, z.live);
    ghost var terminal, live := PutCounted(z.terminal, d.terminal), PutCounted(z.live, d.live);
    AddedBoth(w.limit, two, terminal, three, live, Now(w));
    AddedBoth(w.limit, one, PutCounted(z.entry, d.states), two, terminal + live, Now(w));
    AddedBoth(w.limit, start, PutCounted(z.entry, d.models), one,
              PutCounted(z.entry, d.states) + (terminal + live), Now(w));
  }

  method ReadLists(r: Reader, f: Tables, ghost z: Layout) returns (out: Result<Snapshot.Lists>)
    requires r.Valid() && r.Left().Success? && ListsAll(z, f)
    modifies r
    ensures Took(r, out, TakeLists(z, old(r.Left()).value))
  {
    var models := ReadCounted(r, f.entry, MAX_ENTRIES);
    if models.Failure? { return Failure(models.code); }
    var states := ReadCounted(r, f.entry, MAX_ENTRIES);
    if states.Failure? { return Failure(states.code); }
    var terminal := ReadRequests(r, f.request, true, MAX_ENTRIES, z.terminal);
    if terminal.Failure? { return Failure(terminal.code); }
    var live := ReadRequests(r, f.request, false, MAX_ENTRIES, z.live);
    if live.Failure? { return Failure(live.code); }
    return Success(Snapshot.Lists(models.value, states.value, terminal.value, live.value));
  }

  /** `encode_into`. */
  method WriteDocument(w: Writer, f: Tables, x: Stored)
    requires w.Valid() && DocumentTablesOk(f)
    modifies w
    ensures Appended(w, old(Now(w)), PutDocument(LayoutOf(f), x))
  {
    ghost var z, d := LayoutOf(f), x.document;
    ghost var start := Now(w);
    w.Field(U16, x.document.version);
    ghost var one := Now(w);
    WriteFields(w, f.head, DocumentHead(x.document));
    ghost var two := Now(w);
    WritePolicy(w, f.policy, f.rule, x.document.policy);
    ghost var three := Now(w);
    WriteEvidence(w, f, x);
    ghost var four := Now(w);
    WriteLists(w, f, x.document, z);
    ghost var evidence, lists := PutEvidence(z, x), PutLists(z, d);
    ghost var head, policy := PutFields(z.head, DocumentHead(d)), PutPolicy(z.policy, d.policy);
    AddedBoth(w.limit, three, evidence, four, lists, Now(w));
    AddedBoth(w.limit, two, policy, three, evidence + lists, Now(w));
    AddedBoth(w.limit, one, head, two, policy + (evidence + lists), Now(w));
    AddedBoth(w.limit, start, PutField(U16, d.version), one, head + (policy + (evidence + lists)), Now(w));
  }

  /** `decode_from`. */
  method ReadDocument(r: Reader, f: Tables) returns (out: Result<Stored>)
    requires r.Valid() && r.Left().Success? && |f.head| == 4 && |f.policy| == 10
    modifies r
    ensures Took(r, out, TakeDocument(LayoutOf(f), old(r.Left()).value))
  {
    ghost var z := LayoutOf(f);
    var version := r.Field(U16);
    if !r.fail.Ok? { return Failure(r.fail); }
    if version != FORMAT_VERSION { return Failure(UnsupportedVersion); }
    var h := ReadFields(r, f.head);
    if !r.fail.Ok? { return Failure(r.fail); }
    if h[1] == 0 && h[2] == 0 { return Failure(MalformedInput); }
    var policy := ReadPolicy(r, f.policy, f.rule);
    if policy.Failure? { return Failure(policy.code); }
    var evidence := ReadEvidence(r, f);
    if evidence.Failure? { return Failure(evidence.code); }
    var lists := ReadLists(r, f, z);
    if lists.Failure? { return Failure(lists.code); }
    return Success(Assembled(h, policy.value, evidence.value, lists.value));
  }

  // ---------------------------------------------------------------------------------------------
  // Files
  // ---------------------------------------------------------------------------------------------

  /** `save`: the bytes of the file, or the refusal of a document above the ceiling. */
  method SaveDocument(f: Tables, x: Stored, max: nat) returns (file: Result<Bytes>)
    requires DocumentTablesOk(f)
    ensures file == Save(LayoutOf(f), x, max)
  {
    var w := new Writer(max);
    WriteDocument(w, f, x);
    if !w.fail.Ok? { return Failure(w.fail); }
    assert [] + PutDocument(LayoutOf(f), x) == PutDocument(LayoutOf(f), x);
    return SaveRaw(w.buffer, max);
  }

  /** `load`. */
  method LoadDocument(f: Tables, file: Bytes, max: nat) returns (out: Result<Stored>)
    requires DocumentTablesOk(f)
    ensures out == Load(LayoutOf(f), file, max)
  {
    var payload := LoadRaw(file, max);
    if payload.Failure? { return Failure(payload.code); }
    var r := new Reader(payload.value, max);
    out := ReadDocument(r, f);
    if out.Failure? { return; }
    var finished := r.Finish();
    if !finished.Ok? { return Failure(finished); }
  }

  /** The tables of the source, and that the methods above therefore work in its layout. */
  function SnapshotTables(): Tables {
    Tables([Counter, U64, U64, U64], POLICY, RuleSchema(), TopologySchema(false), TopologySchema(true), EntrySchema(),
           RequestTables(HEAD, AttemptSchema(), TAIL))
  }

  lemma SnapshotTablesOk()
    ensures DocumentTablesOk(SnapshotTables()) && LayoutOf(SnapshotTables()) == SnapshotLayout()
  {
    RulesFaithful();
    TopologyFaithful(false);
    TopologyFaithful(true);
    EntriesFaithful();
    AttemptsFaithful();
  }
}
