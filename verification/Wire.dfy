/** Frame headers (src/wire.cpp): forty bytes, sealed by their own checksum. */
module Wire {
  import opened Ids
  import opened Codec
  import opened Crc32c

  const WIRE_MAGIC: Bytes := [0x49, 0x54, 0x46, 0x31]
  const WIRE_VERSION: nat := 1
  const TYPE_COUNT: nat := 94
  const ABSOLUTE_MAX: nat := 4 * 1024 * 1024

  datatype Frame = Frame(
    kind: nat, flags: nat, length: nat, sequence: nat, correlation: nat, payloadChecksum: bv32)

  predicate KnownKind(kind: nat) { 0 < kind < TYPE_COUNT }

  function HeaderBody(f: Frame): Bytes {
    WIRE_MAGIC + (LE(WIRE_VERSION, 2) + (LE(f.kind, 2) + (LE(f.flags, 4) + (LE(f.length, 4)
      + (LE(f.sequence, 8) + (LE(f.correlation, 8) + StoreWord(f.payloadChecksum)))))))
  }

  /** `encode_header`. */
  function EncodeHeader(f: Frame): Bytes { Seal(HeaderBody(f)) }

  function FieldsOf(h: Bytes): Frame
    requires |h| >= 40
  {
    Frame(FromLE(h[6..8]), FromLE(h[8..12]), FromLE(h[12..16]), FromLE(h[16..24]), FromLE(h[24..32]),
          LoadWord(h[32..36]))
  }

  /** `decode_header`, on at least forty bytes of which the first forty are the header. */
  function DecodeHeader(h: Bytes, max: nat): Result<Frame> {
    if |h| < 40 then Failure(MalformedInput)
    else if h[..4] != WIRE_MAGIC then Failure(MalformedInput)
    else if FromLE(h[4..6]) != WIRE_VERSION then Failure(UnsupportedVersion)
    else
      var f := FieldsOf(h);
      if !KnownKind(f.kind) then Failure(MalformedInput)
      else if !Sealed(h[..40]) then Failure(IntegrityMismatch)
      else if f.length > ABSOLUTE_MAX then Failure(BoundsExceeded)
      else if f.length > max then Failure(BoundsExceeded)
      else if f.flags != 0 then Failure(MalformedInput)
      else Success(f)
  }

  predicate FrameFits(f: Frame) {
    && f.kind < 0x1_0000 && f.flags < 0x1_0000_0000 && f.length < 0x1_0000_0000
    && f.sequence < TWO_64 && f.correlation < TWO_64
  }

  lemma HeaderSlices(f: Frame)
    ensures var h := EncodeHeader(f);
      && |h| == 40 && h[..4] == WIRE_MAGIC && h[4..6] == LE(WIRE_VERSION, 2) && h[6..8] == LE(f.kind, 2)
      && h[8..12] == LE(f.flags, 4) && h[12..16] == LE(f.length, 4) && h[16..24] == LE(f.sequence, 8)
      && h[24..32] == LE(f.correlation, 8) && h[32..36] == StoreWord(f.payloadChecksum)
  {
    var h := EncodeHeader(f);
    assert |HeaderBody(f)| == 36;
    assert h[..36] == HeaderBody(f);
    BodySlices(f);
    assert forall i, j | 0 <= i <= j <= 36 :: h[i..j] == h[..36][i..j];
  }

  lemma BodySlices(f: Frame)
    ensures var h := HeaderBody(f);
      && |h| == 36 && h[..4] == WIRE_MAGIC && h[4..6] == LE(WIRE_VERSION, 2) && h[6..8] == LE(f.kind, 2)
      && h[8..12] == LE(f.flags, 4) && h[12..16] == LE(f.length, 4) && h[16..24] == LE(f.sequence, 8)
      && h[24..32] == LE(f.correlation, 8) && h[32..36] == StoreWord(f.payloadChecksum)
  {
  }

  lemma FieldsBack(f: Frame)
    requires FrameFits(f)
    ensures |EncodeHeader(f)| == 40 && FieldsOf(EncodeHeader(f)) == f
  {
    HeaderSlices(f);
    Pow256Values();
    NumberRound(f.kind, 2);
    NumberRound(f.flags, 4);
    NumberRound(f.length, 4);
    NumberRound(f.sequence, 8);
    NumberRound(f.correlation, 8);
    LoadStored(f.payloadChecksum);
  }

  /** What the decoder asks of a header whose bytes are intact. */
  predicate Wanted(f: Frame, max: nat) {
    KnownKind(f.kind) && f.length <= ABSOLUTE_MAX && f.length <= max && f.flags == 0
  }

  /** An encoded header decodes to itself exactly when it is wanted. */
  lemma HeaderRound(f: Frame, max: nat)
    requires FrameFits(f)
    ensures DecodeHeader(EncodeHeader(f), max).Success? <==> Wanted(f, max)
    ensures Wanted(f, max) ==> DecodeHeader(EncodeHeader(f), max) == Success(f)
  {
    FieldsBack(f);
    HeaderSlices(f);
    Pow256Values();
    NumberRound(WIRE_VERSION, 2);
    SealSeals(HeaderBody(f));
    assert EncodeHeader(f)[..40] == EncodeHeader(f);
  }

  lemma SlicesJoin(h: Bytes)
    requires |h| == 36
    ensures h == h[..4] + (h[4..6] + (h[6..8] + (h[8..12] + (h[12..16] + (h[16..24] + (h[24..32] + h[32..36]))))))
  {
  }

  lemma BodyBack(body: Bytes, f: Frame)
    requires |body| == 36 && body[..4] == WIRE_MAGIC && FromLE(body[4..6]) == WIRE_VERSION
    requires f == Frame(FromLE(body[6..8]), FromLE(body[8..12]), FromLE(body[12..16]), FromLE(body[16..24]),
                        FromLE(body[24..32]), LoadWord(body[32..36]))
    ensures HeaderBody(f) == body
  {
    SlicesJoin(body);
    BytesRound(body[4..6]);
    BytesRound(body[6..8]);
    BytesRound(body[8..12]);
    BytesRound(body[12..16]);
    BytesRound(body[16..24]);
    BytesRound(body[24..32]);
    WordStored(body[32..36]);
  }

  lemma FieldsOfBody(h: Bytes)
    requires |h| >= 40
    ensures var b := h[..36];
      && h[..40][..36] == b && b[..4] == h[..4] && b[4..6] == h[4..6]
      && FieldsOf(h) == Frame(FromLE(b[6..8]), FromLE(b[8..12]), FromLE(b[12..16]), FromLE(b[16..24]),
                              FromLE(b[24..32]), LoadWord(b[32..36]))
  {
    var b := h[..36];
    assert b[6..8] == h[6..8] && b[8..12] == h[8..12] && b[12..16] == h[12..16] && b[16..24] == h[16..24];
    assert b[24..32] == h[24..32] && b[32..36] == h[32..36];
  }

  /** Only an encoding is accepted: the bytes of a header that decodes are the encoding of what it decodes to. */
  lemma HeaderIsCanonical(h: Bytes, max: nat)
    requires DecodeHeader(h, max).Success?
    ensures |h| >= 40 && Wanted(DecodeHeader(h, max).value, max)
    ensures EncodeHeader(DecodeHeader(h, max).value) == h[..40]
  {
    FieldsOfBody(h);
    SealedIsSeal(h[..40]);
    BodyBack(h[..36], FieldsOf(h));
  }

  /** Of the headers that differ within four consecutive bytes, at most one decodes. */
  lemma BurstsAreRefused(h: Bytes, h': Bytes, max: nat, p: nat)
    requires |h| == 40 && DecodeHeader(h, max).Success? && DifferOnlyIn(h, h', p) && h' != h
    ensures DecodeHeader(h', max).Failure?
  {
    assert h[..40] == h && h'[..40] == h';
    if Sealed(h') { SealedBurst(h, h', p); }
  }

  // ---------------------------------------------------------------------------------------------
  // In place
  // ---------------------------------------------------------------------------------------------

  /** Writes bytes at a place: what is before is kept, and what is after. */
  method Place(out: array<bv8>, at: nat, bytes: Bytes)
    requires at + |bytes| <= out.Length
    modifies out
    ensures out[..at + |bytes|] == old(out[..at]) + bytes
    ensures forall j | at + |bytes| <= j < out.Length :: out[j] == old(out[j])
  {
    var k := 0;
    while k < |bytes|
      invariant 0 <= k <= |bytes|
      invariant out[..at + k] == old(out[..at]) + bytes[..k]
      invariant forall j | at + k <= j < out.Length :: out[j] == old(out[j])
    {
      out[at + k] := bytes[k];
      assert out[..at + k + 1] == out[..at + k] + [bytes[k]];
      k := k + 1;
    }
  }

  /** `store_u16`, `store_u32` and `store_u64`: the low byte first. */
  method Store(out: array<bv8>, at: nat, value: nat, size: nat)
    requires at + size <= out.Length
    modifies out
    ensures out[..at + size] == old(out[..at]) + LE(value, size)
    ensures forall j | at + size <= j < out.Length :: out[j] == old(out[j])
  {
    var w := value;
    var k := 0;
    while k < size
      invariant 0 <= k <= size
      invariant out[..at + k] + LE(w, size - k) == old(out[..at]) + LE(value, size)
      invariant forall j | at + k <= j < out.Length :: out[j] == old(out[j])
    {
      ghost var before := out[..at + k];
      out[at + k] := ToByte(w);
      assert out[..at + k + 1] == before + [ToByte(w)];
      assert before + LE(w, size - k) == before + [ToByte(w)] + LE(w / 256, size - k - 1);
      w := w / 256;
      k := k + 1;
    }
  }

  /** `encode_header` into a buffer: nothing when it is too short, else the header and no byte more. */
  method EncodeInto(f: Frame, out: array<bv8>)
    modifies out
    ensures out.Length < 40 ==> out[..] == old(out[..])
    ensures out.Length >= 40 ==> out[..40] == EncodeHeader(f) && out[40..] == old(out[40..])
  {
    if out.Length < 40 { return; }
    StoreFields(f, out);
    Place(out, 36, StoreWord(Checksum(out[..36])));
  }

  /** The 36 bytes before the header checksum. */
  method StoreFields(f: Frame, out: array<bv8>)
    requires out.Length >= 40
    modifies out
    ensures out[..36] == HeaderBody(f) && forall j | 36 <= j < out.Length :: out[j] == old(out[j])
  {
    StoreFront(f, out);
    ghost var front := out[..16];
    Store(out, 16, f.sequence, 8);
    Store(out, 24, f.correlation, 8);
    Place(out, 32, StoreWord(f.payloadChecksum));
    assert out[..36] == front + LE(f.sequence, 8) + LE(f.correlation, 8) + StoreWord(f.payloadChecksum);
    Regroup(f, front);
  }

  method StoreFront(f: Frame, out: array<bv8>)
    requires out.Length >= 40
    modifies out
    ensures out[..16] == WIRE_MAGIC + LE(WIRE_VERSION, 2) + LE(f.kind, 2) + LE(f.flags, 4) + LE(f.length, 4)
    ensures forall j | 16 <= j < out.Length :: out[j] == old(out[j])
  {
    Place(out, 0, WIRE_MAGIC);
    Store(out, 4, WIRE_VERSION, 2);
    Store(out, 6, f.kind, 2);
    Store(out, 8, f.flags, 4);
    Store(out, 12, f.length, 4);
  }

  lemma Regroup(f: Frame, front: Bytes)
    requires front == WIRE_MAGIC + LE(WIRE_VERSION, 2) + LE(f.kind, 2) + LE(f.flags, 4) + LE(f.length, 4)
    ensures front + LE(f.sequence, 8) + LE(f.correlation, 8) + StoreWord(f.payloadChecksum) == HeaderBody(f)
  {
    Reassociate(WIRE_MAGIC, LE(WIRE_VERSION, 2), LE(f.kind, 2), LE(f.flags, 4), LE(f.length, 4), LE(f.sequence, 8),
                LE(f.correlation, 8), StoreWord(f.payloadChecksum));
  }

  lemma Reassociate(a: Bytes, b: Bytes, c: Bytes, d: Bytes, e: Bytes, f: Bytes, g: Bytes, h: Bytes)
    ensures a + b + c + d + e + f + g + h == a + (b + (c + (d + (e + (f + (g + h))))))
  {
  }
}
