/**
 * Snapshots (src/persistence.cpp): the document and the file that frames it. A well-formed document comes
 * back from its file, and no burst of up to four bytes in a file that loads leaves another that does.
 */
module Snapshot {
  import opened Ids
  import opened Policies
  import opened LedgerModel
  import opened CoordinatorModel
  import opened Restart
  import opened Codec
  import opened Serialize
  import opened Crc32c

  // ---------------------------------------------------------------------------------------------
  // The document
  // ---------------------------------------------------------------------------------------------

  const MAX_ENTRIES: nat := 65536

  /** A document, and the placeholder written where evidence is absent. */
  datatype Stored = Stored(document: Document, spare: Topology)

  function Checked<T>(c: Coder<T>, ok: T -> bool): Coder<T> {
    Coder(c.put,
          s => var r := c.take(s);
               if r.Failure? then r else if !ok(r.value.0) then Failure(MalformedInput) else r,
          x => c.fits(x) && ok(x))
  }

  lemma CheckedInverts<T(!new)>(c: Coder<T>, ok: T -> bool)
    requires Inverts(c)
    ensures Inverts(Checked(c, ok))
  {
    var k := Checked(c, ok);
    forall x, rest | k.fits(x)
      ensures k.take(k.put(x) + rest) == Success((x, rest))
    {
      assert c.take(c.put(x) + rest) == Success((x, rest));
    }
  }

  predicate EndedRecord(r: Request) { r.IsTerminal() && r.activeFlows == 0 }

  /** The coders of the parts of a document. */
  datatype Layout = Layout(
    head: seq<Kind>, policy: PolicyShape, absent: Coder<Topology>, present: Coder<Topology>,
    entry: Coder<(Word64, Registration)>, terminal: Coder<Request>, live: Coder<Request>)

  ghost predicate LayoutOk(z: Layout) {
    && |z.head| == 4 && PolicyShapeOk(z.policy) && Inverts(z.absent) && Inverts(z.present)
    && Inverts(z.entry) && Inverts(z.terminal) && Inverts(z.live)
  }

  function DocumentHead(d: Document): (v: seq<int>)
    ensures |v| == 4
  {
    [d.epoch, d.previous.high, d.previous.low, d.bootCount]
  }

  function PutLists(z: Layout, d: Document): Bytes {
    PutCounted(z.entry, d.models) + (PutCounted(z.entry, d.states)
      + (PutCounted(z.terminal, d.terminal) + PutCounted(z.live, d.live)))
  }

  function PutEvidence(z: Layout, x: Stored): Bytes {
    if x.document.topology.Some? then PutField(Flag, 1) + z.present.put(x.document.topology.value)
    else PutField(Flag, 0) + z.absent.put(x.spare)
  }

  function PutDocument(z: Layout, x: Stored): Bytes {
    if |z.head| != 4 then []
    else
      PutField(U16, x.document.version) + (PutFields(z.head, DocumentHead(x.document))
        + (PutPolicy(z.policy, x.document.policy) + (PutEvidence(z, x) + PutLists(z, x.document))))
  }

  function TakeEvidence(z: Layout, s: Bytes): Parsed<(bool, Topology)> {
    var (flag, v) := TakeField(Flag, Success(s));
    if v.Failure? then Failure(v.code)
    else
      var t := if flag == 1 then z.present.take(v.value) else z.absent.take(v.value);
      if t.Failure? then Failure(t.code) else Success(((flag == 1, t.value.0), t.value.1))
  }

  datatype Lists = Lists(models: Entries, states: Entries, terminal: seq<Request>, live: seq<Request>)

  function TakeLists(z: Layout, s: Bytes): Parsed<Lists> {
    var models := TakeCounted(z.entry, MAX_ENTRIES, s);
    if models.Failure? then Failure(models.code)
    else
      var states := TakeCounted(z.entry, MAX_ENTRIES, models.value.1);
      if states.Failure? then Failure(states.code)
      else
        var terminal := TakeCounted(z.terminal, MAX_ENTRIES, states.value.1);
        if terminal.Failure? then Failure(terminal.code)
        else
          var live := TakeCounted(z.live, MAX_ENTRIES, terminal.value.1);
          if live.Failure? then Failure(live.code)
          else Success((Lists(models.value.0, states.value.0, terminal.value.0, live.value.0), live.value.1))
  }

  /** `decode_from`. */
  function TakeDocument(z: Layout, s: Bytes): Parsed<Stored> {
    var (version, v1) := TakeField(U16, Success(s));
    if v1.Failure? then Failure(v1.code)
    else if version != FORMAT_VERSION then Failure(UnsupportedVersion)
    else
      var (h, v2) := TakeFields(z.head, v1);
      if v2.Failure? then Failure(v2.code)
      else if |h| != 4 || (h[1] == 0 && h[2] == 0) then Failure(MalformedInput)
      else
        var policy := TakePolicy(z.policy, v2.value);
        if policy.Failure? then Failure(policy.code)
        else
          var evidence := TakeEvidence(z, policy.value.1);
          if evidence.Failure? then Failure(evidence.code)
          else
            var lists := TakeLists(z, evidence.value.1);
            if lists.Failure? then Failure(lists.code)
            else Success((Assembled(h, policy.value.0, evidence.value.0, lists.value.0), lists.value.1))
  }

  function Assembled(h: seq<int>, p: Policy, e: (bool, Topology), l: Lists): Stored
    requires |h| == 4
  {
    Stored(Document(FORMAT_VERSION, NatOf(h[0]), Id(WordOf(h[1]), WordOf(h[2])), NatOf(h[3]), p,
                    if e.0 then Some(e.1) else None, l.models, l.states, l.terminal, l.live),
           if e.0 then NO_TOPOLOGY else e.1)
  }

  ghost predicate ListsFit(z: Layout, d: Document) {
    && AllOf(z.entry, d.models) && AllOf(z.entry, d.states)
    && AllOf(z.terminal, d.terminal) && AllOf(z.live, d.live)
    && |d.models| <= MAX_ENTRIES && |d.states| <= MAX_ENTRIES
    && |d.terminal| <= MAX_ENTRIES && |d.live| <= MAX_ENTRIES
  }

  /** The documents that survive: every field in range, records acceptable, the policy valid. */
  ghost predicate WellFormed(z: Layout, x: Stored) {
    var d := x.document;
    && d.version == FORMAT_VERSION && AllFit(z.head, DocumentHead(d)) && !d.previous.IsNil()
    && PolicyValid(d.policy) && PolicyFits(z.policy, d.policy) && d.policy.maxExplanationSteps != 0
    && (if d.topology.Some? then z.present.fits(d.topology.value) && x.spare == NO_TOPOLOGY
        else z.absent.fits(x.spare))
    && ListsFit(z, d)
  }

  lemma EvidenceRound(z: Layout, x: Stored, rest: Bytes)
    requires LayoutOk(z) && WellFormed(z, x)
    ensures TakeEvidence(z, PutEvidence(z, x) + rest) ==
            Success(((x.document.topology.Some?,
                      if x.document.topology.Some? then x.document.topology.value else x.spare), rest))
  {
    var present := x.document.topology.Some?;
    var body := if present then z.present.put(x.document.topology.value) else z.absent.put(x.spare);
    assert PutEvidence(z, x) + rest == PutField(Flag, if present then 1 else 0) + (body + rest);
    FieldRound(Flag, if present then 1 else 0, body + rest);
    if present { assert z.present.take(body + rest).Success?; } else { assert z.absent.take(body + rest).Success?; }
  }

  lemma HeadBack(d: Document)
    ensures var h := DocumentHead(d);
      NatOf(h[0]) == d.epoch && Id(WordOf(h[1]), WordOf(h[2])) == d.previous && NatOf(h[3]) == d.bootCount
  {
  }

  lemma Nested(a: Bytes, b: Bytes, c: Bytes, d: Bytes, e: Bytes, rest: Bytes)
    ensures a + (b + (c + (d + e))) + rest == a + (b + (c + (d + (e + rest))))
  {
  }

  // ---------------------------------------------------------------------------------------------
  // Which documents come back
  // ---------------------------------------------------------------------------------------------

  lemma CheckedDecides<T(!new)>(c: Coder<T>, ok: T -> bool, ranged: T -> bool)
    requires Decides(c, ranged)
    ensures Decides(Checked(c, ok), ranged)
  {
    var k := Checked(c, ok);
    forall x, rest | ranged(x)
      ensures k.take(k.put(x) + rest) == if k.fits(x) then Success((x, rest)) else Failure(MalformedInput)
    {
      assert c.take(c.put(x) + rest) == if c.fits(x) then Success((x, rest)) else Failure(MalformedInput);
    }
  }

  /** Everything but the request records is well formed, and their fields are in range. */
  ghost predicate Ranged(z: Layout, ranged: Request -> bool, x: Stored) {
    WellFormed(z, x.(document := x.document.(terminal := [], live := [])))
    && AllRanged(ranged, x.document.terminal) && AllRanged(ranged, x.document.live)
    && |x.document.terminal| <= MAX_ENTRIES && |x.document.live| <= MAX_ENTRIES
  }

  /** The records that the decoder asks for: acceptable, and in the terminal history ended and without a flow. */
  ghost predicate RecordsAccepted(z: Layout, d: Document) { AllOf(z.terminal, d.terminal) && AllOf(z.live, d.live) }

  lemma ListsDecide(z: Layout, ranged: Request -> bool, x: Stored, rest: Bytes)
    requires LayoutOk(z) && Decides(z.terminal, ranged) && Decides(z.live, ranged) && Ranged(z, ranged, x)
    ensures var d := x.document;
      TakeLists(z, PutLists(z, d) + rest) ==
      if RecordsAccepted(z, d) then Success((Lists(d.models, d.states, d.terminal, d.live), rest))
      else Failure(MalformedInput)
  {
    var d := x.document;
    var a, b := PutCounted(z.entry, d.models), PutCounted(z.entry, d.states);
    var c, e := PutCounted(z.terminal, d.terminal), PutCounted(z.live, d.live);
    assert PutLists(z, d) + rest == a + (b + (c + (e + rest)));
    CountedRound(z.entry, d.models, MAX_ENTRIES, b + (c + (e + rest)));
    CountedRound(z.entry, d.states, MAX_ENTRIES, c + (e + rest));
    CountedDecides(z.terminal, ranged, d.terminal, MAX_ENTRIES, e + rest);
    CountedDecides(z.live, ranged, d.live, MAX_ENTRIES, rest);
  }

  /** A document whose fields are in range comes back exactly when all of its records are accepted. */
  lemma DocumentDecides(z: Layout, ranged: Request -> bool, x: Stored, rest: Bytes)
    requires LayoutOk(z) && Decides(z.terminal, ranged) && Decides(z.live, ranged) && Ranged(z, ranged, x)
    ensures TakeDocument(z, PutDocument(z, x) + rest) ==
            if RecordsAccepted(z, x.document) then Success((x, rest)) else Failure(MalformedInput)
  {
    var d := x.document;
    var lists := PutLists(z, d) + rest;
    var evidence := PutEvidence(z, x) + lists;
    var policy := PutPolicy(z.policy, d.policy) + evidence;
    var head := PutFields(z.head, DocumentHead(d)) + policy;
    Nested(PutField(U16, d.version), PutFields(z.head, DocumentHead(d)), PutPolicy(z.policy, d.policy),
           PutEvidence(z, x), PutLists(z, d), rest);
    FieldRound(U16, d.version, head);
    FieldsRound(z.head, DocumentHead(d), policy);
    PolicyRound(z.policy, d.policy, evidence);
    EvidenceRound(z, x.(document := d.(terminal := [], live := [])), lists);
    ListsDecide(z, ranged, x, rest);
    HeadBack(d);
  }

  /** The layout of the source. */
  function SnapshotLayout(): Layout {
    var requests := RequestCoder(RequestLayout());
    Layout([Counter, U64, U64, U64], PolicyLayout(), RecordCoder(TopologySchema(false)),
           RecordCoder(TopologySchema(true)), RecordCoder(EntrySchema()), Checked(requests, EndedRecord), requests)
  }

  lemma SnapshotLayoutOk()
    ensures LayoutOk(SnapshotLayout())
  {
    PolicyLayoutOk();
    TopologyFaithful(false);
    TopologyFaithful(true);
    RecordsInvert(TopologySchema(false));
    RecordsInvert(TopologySchema(true));
    EntriesFaithful();
    RecordsInvert(EntrySchema());
    RequestLayoutOk();
    RequestsInvert(RequestLayout());
    CheckedInverts(RequestCoder(RequestLayout()), EndedRecord);
  }

  // ---------------------------------------------------------------------------------------------
  // The file
  // ---------------------------------------------------------------------------------------------

  const MAGIC: Bytes := [0x49, 0x54, 0x46, 0x53]

  /** Magic, version, flags, payload length, payload checksum; the header checksum seals it. */
  function Header(payload: Bytes): Bytes {
    Seal(MAGIC + (LE(FORMAT_VERSION, 2) + (LE(0, 2) + (LE(|payload|, 8) + StoreWord(Checksum(payload))))))
  }

  function SaveRaw(payload: Bytes, max: nat): Result<Bytes> {
    if |payload| > max then Failure(BoundsExceeded) else Success(Header(payload) + payload)
  }

  function LoadRaw(file: Bytes, max: nat): Result<Bytes> {
    if |file| < 24 then Failure(MalformedInput)
    else if file[..4] != MAGIC then Failure(MalformedInput)
    else if FromLE(file[4..6]) != FORMAT_VERSION then Failure(UnsupportedVersion)
    else if !Sealed(file[..24]) then Failure(IntegrityMismatch)
    else
      var length := FromLE(file[8..16]);
      if length > max then Failure(BoundsExceeded)
      else if |file| < 24 + length then Failure(MalformedInput)
      else if |file| > 24 + length then Failure(TrailingGarbage)
      else if Checksum(file[24..]) != LoadWord(file[16..20]) then Failure(IntegrityMismatch)
      else Success(file[24..])
  }

  /** The fields of a header are where their widths put them. */
  lemma FieldSlices(a: Bytes, b: Bytes, c: Bytes, d: Bytes, e: Bytes, rest: Bytes, file: Bytes)
    requires |a| == 4 && |b| == 2 && |c| == 2 && |d| == 8 && |e| == 4
    requires file == a + (b + (c + (d + e))) + rest
    ensures file[..4] == a && file[4..6] == b && file[8..16] == d && file[16..20] == e && file[20..] == rest
  {
    assert file == a + b + c + d + e + rest;
  }

  lemma Joined(a: Bytes, b: Bytes, c: Bytes)
    ensures a + b + c == a + (b + c) && (a + b + c)[..|a| + |b|] == a + b && (a + b + c)[|a| + |b|..] == c
  {
  }

  lemma HeaderSlices(payload: Bytes, file: Bytes)
    requires file == Header(payload) + payload
    ensures |Header(payload)| == 24 && file[..24] == Header(payload) && file[24..] == payload
    ensures file[..4] == MAGIC && file[4..6] == LE(FORMAT_VERSION, 2) && file[8..16] == LE(|payload|, 8)
    ensures file[16..20] == StoreWord(Checksum(payload))
  {
    var version, flags, length := LE(FORMAT_VERSION, 2), LE(0, 2), LE(|payload|, 8);
    var crc := StoreWord(Checksum(payload));
    var body := MAGIC + (version + (flags + (length + crc)));
    var seal := StoreWord(Checksum(body));
    Joined(body, seal, payload);
    FieldSlices(MAGIC, version, flags, length, crc, seal + payload, file);
  }

  /** What is saved is loaded. */
  lemma RawRound(payload: Bytes, max: nat)
    requires |payload| <= max && |payload| < TWO_64
    ensures SaveRaw(payload, max).Success? && LoadRaw(SaveRaw(payload, max).value, max) == Success(payload)
  {
    var file := SaveRaw(payload, max).value;
    HeaderSlices(payload, file);
    Pow256Values();
    NumberRound(FORMAT_VERSION, 2);
    NumberRound(|payload|, 8);
    LoadStored(Checksum(payload));
    SealSeals(MAGIC + (LE(FORMAT_VERSION, 2) + (LE(0, 2) + (LE(|payload|, 8) + StoreWord(Checksum(payload))))));
  }

  /** A file with any two bytes where the flags are, which the reader does not look at. */
  function Framed(flags: Bytes, payload: Bytes): Bytes {
    Seal(MAGIC + (LE(1, 2) + (flags + (LE(|payload|, 8) + StoreWord(Checksum(payload)))))) + payload
  }

  lemma TwentyBytes(b: Bytes)
    requires |b| == 20
    ensures b == b[..4] + (b[4..6] + (b[6..8] + (b[8..16] + b[16..20])))
  {
  }

  lemma HeadOfFile(file: Bytes)
    requires |file| >= 24
    ensures var b := file[..24][..20];
      && b[..4] == file[..4] && b[4..6] == file[4..6] && b[6..8] == file[6..8] && b[8..16] == file[8..16]
      && b[16..20] == file[16..20] && file == file[..24] + file[24..]
  {
    var b := file[..24][..20];
    assert b == file[..20];
    assert b[4..6] == file[4..6] && b[6..8] == file[6..8];
    assert b[8..16] == file[8..16] && b[16..20] == file[16..20];
  }

  /** Only a framed payload is accepted: the file is its frame, byte for byte, apart from the two flag bytes. */
  lemma RawIsCanonical(file: Bytes, max: nat)
    requires LoadRaw(file, max).Success?
    ensures |file| >= 24 && |LoadRaw(file, max).value| <= max
    ensures file == Framed(file[6..8], LoadRaw(file, max).value)
  {
    assert |file[24..]| == FromLE(file[8..16]);
    HeadOfFile(file);
    SealedIsSeal(file[..24]);
    TwentyBytes(file[..24][..20]);
    BytesRound(file[4..6]);
    BytesRound(file[8..16]);
    WordStored(file[16..20]);
  }

  lemma HeaderSurvives(file: Bytes, file': Bytes, p: nat)
    requires |file| >= 24 && DifferOnlyIn(file, file', p) && Sealed(file[..24]) && Sealed(file'[..24])
    ensures file[..24] == file'[..24]
  {
    SealedBurst(file[..24], file'[..24], p);
  }

  lemma PayloadSurvives(file: Bytes, file': Bytes, p: nat)
    requires |file| >= 24 && DifferOnlyIn(file, file', p) && Checksum(file[24..]) == Checksum(file'[24..])
    ensures file[24..] == file'[24..]
  {
    var q := if p < 24 then 0 else p - 24;
    assert DifferOnlyIn(file[24..], file'[24..], q);
    if file[24..] != file'[24..] { BurstDetected(file[24..], file'[24..], q); }
  }

  lemma BothLoad(file: Bytes, file': Bytes, max: nat, p: nat)
    requires LoadRaw(file, max).Success? && LoadRaw(file', max).Success? && DifferOnlyIn(file, file', p)
    ensures file == file'
  {
    HeaderSurvives(file, file', p);
    assert file[16..20] == file[..24][16..20] && file'[16..20] == file'[..24][16..20];
    PayloadSurvives(file, file', p);
    assert file == file[..24] + file[24..] && file' == file'[..24] + file'[24..];
  }

  /** Of the files of one length that differ within four consecutive bytes, at most one loads. */
  lemma BurstsAreRefused(file: Bytes, file': Bytes, max: nat, p: nat)
    requires LoadRaw(file, max).Success? && DifferOnlyIn(file, file', p) && file' != file
    ensures LoadRaw(file', max).Failure?
  {
    if LoadRaw(file', max).Success? { BothLoad(file, file', max, p); }
  }

  // ---------------------------------------------------------------------------------------------
  // Documents in files
  // ---------------------------------------------------------------------------------------------

  function Save(z: Layout, x: Stored, max: nat): Result<Bytes> { SaveRaw(PutDocument(z, x), max) }

  function Load(z: Layout, file: Bytes, max: nat): Result<Stored> {
    var payload := LoadRaw(file, max);
    if payload.Failure? then Failure(payload.code)
    else
      var x := TakeDocument(z, payload.value);
      if x.Failure? then Failure(x.code)
      else if x.value.1 != [] then Failure(TrailingGarbage)
      else Success(x.value.0)
  }

  /** Requests whose fields fit the layout of the source. */
  function InRange(): Request -> bool { r => RequestFits(RequestLayout(), r) }

  lemma SnapshotDecides()
    ensures LayoutOk(SnapshotLayout())
    ensures Decides(SnapshotLayout().terminal, InRange()) && Decides(SnapshotLayout().live, InRange())
  {
    SnapshotLayoutOk();
    RequestLayoutOk();
    RequestsDecide(RequestLayout());
    CheckedDecides(RequestCoder(RequestLayout()), EndedRecord, InRange());
  }

  /**
   * For every document in range, loading what was saved succeeds if and only if every record is accepted,
   * and then gives the document back; otherwise the file is refused as malformed.
   */
  lemma SnapshotLoadsExactly(x: Stored, max: nat)
    requires Ranged(SnapshotLayout(), InRange(), x) && |PutDocument(SnapshotLayout(), x)| <= max < TWO_64
    ensures var file := Save(SnapshotLayout(), x, max);
      && file.Success?
      && Load(SnapshotLayout(), file.value, max) ==
         if RecordsAccepted(SnapshotLayout(), x.document) then Success(x) else Failure(MalformedInput)
  {
    SnapshotDecides();
    DecidedThroughFile(SnapshotLayout(), InRange(), x, max);
  }

  lemma DecidedThroughFile(z: Layout, ranged: Request -> bool, x: Stored, max: nat)
    requires LayoutOk(z) && Decides(z.terminal, ranged) && Decides(z.live, ranged) && Ranged(z, ranged, x)
    requires |PutDocument(z, x)| <= max < TWO_64
    ensures var file := Save(z, x, max);
      && file.Success?
      && Load(z, file.value, max) ==
         if RecordsAccepted(z, x.document) then Success(x) else Failure(MalformedInput)
  {
    var payload := PutDocument(z, x);
    RawRound(payload, max);
    DocumentDecides(z, ranged, x, []);
    assert payload + [] == payload;
  }

  /** A well-formed document that fits the size ceiling is loaded from the file it was saved to. */
  lemma SnapshotRound(x: Stored, max: nat)
    requires WellFormed(SnapshotLayout(), x) && |PutDocument(SnapshotLayout(), x)| <= max < TWO_64
    ensures var file := Save(SnapshotLayout(), x, max);
      file.Success? && Load(SnapshotLayout(), file.value, max) == Success(x)
  {
    var d := x.document;
    forall i | 0 <= i < |d.terminal|
      ensures InRange()(d.terminal[i])
    {
      assert SnapshotLayout().terminal.fits(d.terminal[i]);
    }
    forall i | 0 <= i < |d.live|
      ensures InRange()(d.live[i])
    {
      assert SnapshotLayout().live.fits(d.live[i]);
    }
    SnapshotLoadsExactly(x, max);
  }
}
