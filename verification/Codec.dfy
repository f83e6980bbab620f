/**
 * The canonical codec (src/codec.cpp): little-endian fields, a reader that fails once and for all, and a
 * writer that never exceeds its limit.
 */
module Codec {
  import opened Ids

  type Bytes = seq<bv8>

  // ---------------------------------------------------------------------------------------------
  // Little-endian numbers
  // ---------------------------------------------------------------------------------------------

  function Pow256(n: nat): nat { if n == 0 then 1 else 256 * Pow256(n - 1) }

  function ToByte(v: nat): bv8 { (v % 256) as bv8 }

  function LE(v: nat, n: nat): (s: Bytes)
    ensures |s| == n
  {
    if n == 0 then [] else [ToByte(v)] + LE(v / 256, n - 1)
  }

  function FromLE(s: Bytes): nat
    decreases |s|
  {
    if s == [] then 0 else (s[0] as int) + 256 * FromLE(s[1..])
  }

  lemma ValueBack(b: bv8)
    ensures (b as int) as bv8 == b
  {
  }

  lemma NextValue(b: bv8)
    requires b != 255
    ensures (b + 1) as int == b as int + 1
  {
  }

  /** Every number below 256 is the value of its byte. */
  lemma {:induction false} SmallBack(x: nat)
    requires x < 256
    ensures (x as bv8) as int == x
    decreases x
  {
    if x == 0 {
    } else {
      SmallBack(x - 1);
      var b := (x - 1) as bv8;
      NextValue(b);
      ValueBack(b + 1);
    }
  }

  lemma ByteBack(v: nat)
    ensures ToByte(v) as int == v % 256
  {
    SmallBack(v % 256);
  }

  lemma Div256(v: nat, p: nat)
    requires v < 256 * p
    ensures v / 256 < p && v % 256 + 256 * (v / 256) == v
  {
  }

  /** A number that fits comes back from its bytes. */
  lemma {:induction false} NumberRound(v: nat, n: nat)
    requires v < Pow256(n)
    ensures FromLE(LE(v, n)) == v
    decreases n
  {
    if n > 0 {
      Div256(v, Pow256(n - 1));
      NumberRound(v / 256, n - 1);
      ByteBack(v);
      assert LE(v, n)[1..] == LE(v / 256, n - 1);
    }
  }

  lemma ByteFirst(b: bv8, m: nat)
    ensures ToByte((b as int) + 256 * m) == b && ((b as int) + 256 * m) / 256 == m
  {
    var v := (b as int) + 256 * m;
    assert v % 256 == b as int && v / 256 == m;
    ValueBack(b);
  }

  /** Bytes are the only encoding of the number they stand for. */
  lemma {:induction false} BytesRound(s: Bytes)
    ensures LE(FromLE(s), |s|) == s
    decreases |s|
  {
    if s == [] {
    } else {
      BytesRound(s[1..]);
      ByteFirst(s[0], FromLE(s[1..]));
    }
  }

  lemma {:induction false} NumberBound(s: Bytes)
    ensures FromLE(s) < Pow256(|s|)
    decreases |s|
  {
    if s == [] {
    } else {
      NumberBound(s[1..]);
    }
  }

  lemma {:induction false} AppendByte(s: Bytes, b: bv8)
    ensures FromLE(s + [b]) == FromLE(s) + (b as int) * Pow256(|s|)
    decreases |s|
  {
    if s == [] {
      assert (s + [b])[1..] == [];
    } else {
      AppendByte(s[1..], b);
      assert (s + [b])[1..] == s[1..] + [b];
      Scale(b as int, Pow256(|s| - 1));
    }
  }

  lemma Scale(b: int, p: nat)
    ensures 256 * (b * p) == b * (256 * p)
  {
  }

  lemma Pow256Values()
    ensures Pow256(1) == 0x100 && Pow256(2) == 0x1_0000 && Pow256(4) == 0x1_0000_0000
    ensures Pow256(8) == TWO_64
  {
    assert Pow256(2) == 256 * Pow256(1) && Pow256(3) == 256 * Pow256(2) && Pow256(4) == 256 * Pow256(3);
    assert Pow256(5) == 256 * Pow256(4) && Pow256(6) == 256 * Pow256(5);
    assert Pow256(7) == 256 * Pow256(6) && Pow256(8) == 256 * Pow256(7);
  }

  // ---------------------------------------------------------------------------------------------
  // Fields
  // ---------------------------------------------------------------------------------------------

  /** The field forms: a flag, an enumeration below a bound, unsigned words, a word that may not be zero. */
  datatype Kind = Flag | Enum(bound: nat) | U16 | U32 | U64 | Counter | I64

  function Size(k: Kind): nat {
    match k case Flag => 1 case Enum(_) => 2 case U16 => 2 case U32 => 4 case U64 => 8 case Counter => 8 case I64 => 8
  }

  predicate Fits(k: Kind, v: int) {
    match k
    case Flag => 0 <= v <= 1
    case Enum(bound) => 0 <= v < bound && v < 0x1_0000
    case U16 => 0 <= v < 0x1_0000
    case U32 => 0 <= v < 0x1_0000_0000
    case U64 => 0 <= v < TWO_64
    case Counter => 0 < v < TWO_64
    case I64 => -TWO_63 <= v < TWO_63
  }

  /** The unsigned word a value is written as: its two's complement. */
  function Unsigned(v: int): nat { Wrap(v) }

  function PutField(k: Kind, v: int): (s: Bytes)
    ensures |s| == Size(k)
  {
    LE(Unsigned(v), Size(k))
  }

  /** What is left to read, or the code of the first failure. */
  type View = Result<Bytes>

  predicate Refuses(k: Kind, w: nat) {
    (k.Flag? && w > 1) || (k.Enum? && w >= k.bound) || (k.Counter? && w == 0)
  }

  /** One read; after a failure every read yields zero and moves nothing. */
  function TakeField(k: Kind, view: View): (int, View) {
    if view.Failure? then (0, view)
    else if |view.value| < Size(k) then (0, Failure(MalformedInput))
    else
      var w := FromLE(view.value[..Size(k)]);
      if Refuses(k, w) then (0, Failure(MalformedInput))
      else (if k.I64? && w >= TWO_63 then w - TWO_64 else w, Success(view.value[Size(k)..]))
  }

  lemma TakenFits(k: Kind, view: View)
    requires TakeField(k, view).1.Success?
    ensures Fits(k, TakeField(k, view).0)
  {
    NumberBound(view.value[..Size(k)]);
    Pow256Values();
  }

  lemma FieldFits(k: Kind, v: int)
    requires Fits(k, v)
    ensures Unsigned(v) < Pow256(Size(k)) && Unsigned(v) == if v < 0 then v + TWO_64 else v
  {
    Pow256Values();
  }

  lemma FieldRound(k: Kind, v: int, rest: Bytes)
    requires Fits(k, v)
    ensures TakeField(k, Success(PutField(k, v) + rest)) == (v, Success(rest))
  {
    var s := PutField(k, v) + rest;
    FieldFits(k, v);
    NumberRound(Unsigned(v), Size(k));
    assert s[..Size(k)] == PutField(k, v) && s[Size(k)..] == rest;
  }

  // ---------------------------------------------------------------------------------------------
  // Records of fields
  // ---------------------------------------------------------------------------------------------

  predicate AllFit(ks: seq<Kind>, vs: seq<int>) {
    |vs| == |ks| && forall i | 0 <= i < |ks| :: Fits(ks[i], vs[i])
  }

  function PutFields(ks: seq<Kind>, vs: seq<int>): Bytes
    requires |vs| == |ks|
    decreases |ks|
  {
    if ks == [] then [] else PutField(ks[0], vs[0]) + PutFields(ks[1..], vs[1..])
  }

  function TakeFields(ks: seq<Kind>, view: View): (r: (seq<int>, View))
    ensures |r.0| == |ks|
    decreases |ks|
  {
    if ks == [] then ([], view)
    else
      var (v, rest) := TakeField(ks[0], view);
      var (vs, end) := TakeFields(ks[1..], rest);
      ([v] + vs, end)
  }

  lemma {:induction false} TakeAfterFailure(ks: seq<Kind>, view: View)
    requires view.Failure?
    ensures TakeFields(ks, view).1 == view
    decreases |ks|
  {
    if ks == [] {
    } else {
      TakeAfterFailure(ks[1..], view);
    }
  }

  lemma FieldBack(k: Kind, s: Bytes)
    requires TakeField(k, Success(s)).1.Success?
    ensures var (v, rest) := TakeField(k, Success(s)); s == PutField(k, v) + rest.value
  {
    var w := FromLE(s[..Size(k)]);
    NumberBound(s[..Size(k)]);
    Pow256Values();
    BytesRound(s[..Size(k)]);
    assert Unsigned(TakeField(k, Success(s)).0) == w;
    assert s == s[..Size(k)] + s[Size(k)..];
  }

  /** What is read without a failure is the one encoding of the values read, and what follows it. */
  lemma {:induction false} FieldsBack(ks: seq<Kind>, s: Bytes)
    requires TakeFields(ks, Success(s)).1.Success?
    ensures var (vs, rest) := TakeFields(ks, Success(s)); s == PutFields(ks, vs) + rest.value
    decreases |ks|
  {
    if ks == [] {
    } else {
      var (v, view) := TakeField(ks[0], Success(s));
      if view.Failure? { TakeAfterFailure(ks[1..], view); }
      FieldBack(ks[0], s);
      FieldsBack(ks[1..], view.value);
      var (vs, rest) := TakeFields(ks[1..], view);
      assert ([v] + vs)[1..] == vs;
      assert PutField(ks[0], v) + (PutFields(ks[1..], vs) + rest.value)
             == (PutField(ks[0], v) + PutFields(ks[1..], vs)) + rest.value;
    }
  }

  /** Whatever is read without a failure is in the range of its field. */
  lemma {:induction false} TakenAllFit(ks: seq<Kind>, view: View)
    requires TakeFields(ks, view).1.Success?
    ensures AllFit(ks, TakeFields(ks, view).0)
    decreases |ks|
  {
    if ks == [] {
    } else {
      var (v, rest) := TakeField(ks[0], view);
      if rest.Failure? { TakeAfterFailure(ks[1..], rest); }
      TakenFits(ks[0], view);
      TakenAllFit(ks[1..], rest);
    }
  }

  /** A record that fits comes back from its bytes, and what follows it is left. */
  lemma {:induction false} FieldsRound(ks: seq<Kind>, vs: seq<int>, rest: Bytes)
    requires AllFit(ks, vs)
    ensures TakeFields(ks, Success(PutFields(ks, vs) + rest)) == (vs, Success(rest))
    decreases |ks|
  {
    if ks == [] {
      assert PutFields(ks, vs) + rest == rest;
    } else {
      var first, others := PutField(ks[0], vs[0]), PutFields(ks[1..], vs[1..]);
      FieldRound(ks[0], vs[0], others + rest);
      FieldsRound(ks[1..], vs[1..], rest);
      assert PutFields(ks, vs) + rest == first + (others + rest);
      assert [vs[0]] + vs[1..] == vs;
    }
  }

  // ---------------------------------------------------------------------------------------------
  // Coders and lists of them
  // ---------------------------------------------------------------------------------------------

  /** A decoded value and what follows it. */
  type Parsed<+T> = Result<(T, Bytes)>

  /** How a kind of value is written, read back, and which values are meant to come back. */
  datatype Coder<!T> = Coder(put: T -> Bytes, take: Bytes -> Parsed<T>, fits: T -> bool)

  ghost predicate Inverts<T(!new)>(c: Coder<T>) {
    forall x, rest :: c.fits(x) ==> c.take(c.put(x) + rest) == Success((x, rest))
  }

  function PutList<T>(c: Coder<T>, xs: seq<T>): Bytes
    decreases |xs|
  {
    if xs == [] then [] else c.put(xs[0]) + PutList(c, xs[1..])
  }

  function TakeList<T>(c: Coder<T>, n: nat, s: Bytes): Parsed<seq<T>>
    decreases n
  {
    if n == 0 then Success(([], s))
    else
      var first := c.take(s);
      if first.Failure? then Failure(first.code)
      else
        var others := TakeList(c, n - 1, first.value.1);
        if others.Failure? then others else Success(([first.value.0] + others.value.0, others.value.1))
  }

  ghost predicate AllOf<T>(c: Coder<T>, xs: seq<T>) { forall i | 0 <= i < |xs| :: c.fits(xs[i]) }

  lemma {:induction false} ListRound<T(!new)>(c: Coder<T>, xs: seq<T>, rest: Bytes)
    requires Inverts(c) && AllOf(c, xs)
    ensures TakeList(c, |xs|, PutList(c, xs) + rest) == Success((xs, rest))
    decreases |xs|
  {
    if xs == [] {
      assert PutList(c, xs) + rest == rest;
    } else {
      var others := PutList(c, xs[1..]);
      assert PutList(c, xs) + rest == c.put(xs[0]) + (others + rest);
      assert c.take(c.put(xs[0]) + (others + rest)) == Success((xs[0], others + rest));
      ListRound(c, xs[1..], rest);
      assert [xs[0]] + xs[1..] == xs;
    }
  }

  /** The coder reads back what fits, and refuses every other value whose fields are in range. */
  ghost predicate Decides<T(!new)>(c: Coder<T>, ranged: T -> bool) {
    forall x, rest :: ranged(x) ==>
      c.take(c.put(x) + rest) == if c.fits(x) then Success((x, rest)) else Failure(MalformedInput)
  }

  ghost predicate AllRanged<T>(ranged: T -> bool, xs: seq<T>) { forall i | 0 <= i < |xs| :: ranged(xs[i]) }

  lemma {:induction false} ListDecides<T(!new)>(c: Coder<T>, ranged: T -> bool, xs: seq<T>, rest: Bytes)
    requires Decides(c, ranged) && AllRanged(ranged, xs)
    ensures TakeList(c, |xs|, PutList(c, xs) + rest) ==
            if AllOf(c, xs) then Success((xs, rest)) else Failure(MalformedInput)
    decreases |xs|
  {
    if xs == [] {
      assert PutList(c, xs) + rest == rest;
    } else {
      var others := PutList(c, xs[1..]);
      assert PutList(c, xs) + rest == c.put(xs[0]) + (others + rest);
      assert ranged(xs[0]);
      ListDecides(c, ranged, xs[1..], rest);
      assert [xs[0]] + xs[1..] == xs;
      AllOfSplits(c, xs);
    }
  }

  lemma AllOfSplits<T>(c: Coder<T>, xs: seq<T>)
    requires xs != []
    ensures AllOf(c, xs) <==> c.fits(xs[0]) && AllOf(c, xs[1..])
  {
    if c.fits(xs[0]) && AllOf(c, xs[1..]) {
      forall i | 0 <= i < |xs|
        ensures c.fits(xs[i])
      {
        if i > 0 { assert c.fits(xs[1..][i - 1]); }
      }
    }
  }

  /** A record as a table: its fields, how to fill them, how to read them, what is acceptable. */
  datatype Schema<!T> = Schema(kinds: seq<Kind>, values: T -> seq<int>, make: seq<int> -> T, accepts: T -> bool)

  ghost predicate Faithful<T(!new)>(m: Schema<T>) {
    forall x :: |m.values(x)| == |m.kinds| && m.make(m.values(x)) == x
  }

  function PutRecord<T>(m: Schema<T>, x: T): Bytes {
    if |m.values(x)| == |m.kinds| then PutFields(m.kinds, m.values(x)) else []
  }

  function TakeRecord<T>(m: Schema<T>, s: Bytes): Parsed<T> {
    var (vs, rest) := TakeFields(m.kinds, Success(s));
    if rest.Failure? then Failure(rest.code)
    else if !m.accepts(m.make(vs)) then Failure(MalformedInput)
    else Success((m.make(vs), rest.value))
  }

  /** Every field fits its width. */
  predicate FitsIn<T>(m: Schema<T>, x: T) { AllFit(m.kinds, m.values(x)) }

  function RecordCoder<T>(m: Schema<T>): Coder<T> {
    Coder(x => PutRecord(m, x), s => TakeRecord(m, s), x => FitsIn(m, x) && m.accepts(x))
  }

  lemma RecordRound<T(!new)>(m: Schema<T>, x: T, rest: Bytes)
    requires Faithful(m) && FitsIn(m, x)
    ensures TakeRecord(m, PutRecord(m, x) + rest) ==
            if m.accepts(x) then Success((x, rest)) else Failure(MalformedInput)
  {
    assert |m.values(x)| == |m.kinds|;
    FieldsRound(m.kinds, m.values(x), rest);
  }

  lemma RecordsInvert<T(!new)>(m: Schema<T>)
    requires Faithful(m)
    ensures Inverts(RecordCoder(m))
  {
    var c := RecordCoder(m);
    forall x, rest | c.fits(x)
      ensures c.take(c.put(x) + rest) == Success((x, rest))
    {
      RecordRound(m, x, rest);
    }
  }

  /** A list is written after its length, and read only when the length is within bounds. */
  function PutCounted<T>(c: Coder<T>, xs: seq<T>): Bytes { PutField(U32, |xs|) + PutList(c, xs) }

  function TakeCounted<T>(c: Coder<T>, max: nat, s: Bytes): Parsed<seq<T>> {
    var (n, rest) := TakeCount(max, Success(s));
    if rest.Failure? then Failure(rest.code) else TakeList(c, n, rest.value)
  }

  lemma CountedRound<T(!new)>(c: Coder<T>, xs: seq<T>, max: nat, rest: Bytes)
    requires Inverts(c) && AllOf(c, xs) && |xs| <= max < 0x1_0000_0000
    ensures TakeCounted(c, max, PutCounted(c, xs) + rest) == Success((xs, rest))
  {
    assert PutCounted(c, xs) + rest == PutField(U32, |xs|) + (PutList(c, xs) + rest);
    CountRound(|xs|, max, PutList(c, xs) + rest);
    ListRound(c, xs, rest);
  }

  lemma CountedDecides<T(!new)>(c: Coder<T>, ranged: T -> bool, xs: seq<T>, max: nat, rest: Bytes)
    requires Decides(c, ranged) && AllRanged(ranged, xs) && |xs| <= max < 0x1_0000_0000
    ensures TakeCounted(c, max, PutCounted(c, xs) + rest) ==
            if AllOf(c, xs) then Success((xs, rest)) else Failure(MalformedInput)
  {
    assert PutCounted(c, xs) + rest == PutField(U32, |xs|) + (PutList(c, xs) + rest);
    CountRound(|xs|, max, PutList(c, xs) + rest);
    ListDecides(c, ranged, xs, rest);
  }

  // ---------------------------------------------------------------------------------------------
  // Reader and writer
  // ---------------------------------------------------------------------------------------------

  /** `Reader`: a cursor over bytes it never leaves, and the first failure it met. */
  class Reader {
    const data: Bytes
    const limit: nat
    var offset: nat
    var fail: Status

    predicate Valid()
      reads this
    {
      offset <= |data|
    }

    function Left(): View
      requires Valid()
      reads this
    {
      if fail.Ok? then Success(data[offset..]) else Failure(fail)
    }

    constructor (data: Bytes, limit: nat)
      ensures Valid() && this.data == data && offset == 0
      ensures Left() == if |data| > limit then Failure(BoundsExceeded) else Success(data)
    {
      this.data, this.limit, offset := data, limit, 0;
      fail := if |data| > limit then BoundsExceeded else Ok;
    }

    /** The first failure stays. */
    method Fail(code: Status)
      requires Valid() && !code.Ok?
      modifies this`fail
      ensures Left() == if old(Left()).Failure? then old(Left()) else Failure(code)
    {
      if fail.Ok? { fail := code; }
    }

    method Require(count: nat) returns (ready: bool)
      requires Valid()
      modifies this`fail
      ensures ready <==> old(Left()).Success? && count <= |old(Left()).value|
      ensures Left() == if ready || old(Left()).Failure? then old(Left()) else Failure(MalformedInput)
    {
      if !fail.Ok? { return false; }
      if count > |data| || offset > |data| - count {
        Fail(MalformedInput);
        return false;
      }
      return true;
    }

    /** The byte loop shared by the integer reads. */
    method Word(size: nat) returns (w: nat)
      requires Valid()
      modifies this
      ensures Valid() && offset >= old(offset)
      ensures var before := old(Left());
        if before.Success? && size <= |before.value|
        then w == FromLE(before.value[..size]) && Left() == Success(before.value[size..])
        else w == 0 && offset == old(offset)
             && Left() == if before.Failure? then before else Failure(MalformedInput)
    {
      var ready := Require(size);
      if !ready { return 0; }
      ghost var s := data[offset..][..size];
      w := 0;
      var k := 0;
      while k < size
        invariant 0 <= k <= size && w == FromLE(s[..k])
        invariant offset == old(offset) && offset + size <= |data| && fail.Ok?
      {
        assert s[k] == data[offset + k] && s[..k + 1] == s[..k] + [s[k]];
        AppendByte(s[..k], s[k]);
        w := w + (data[offset + k] as int) * Pow256(k);
        k := k + 1;
      }
      assert s[..size] == s;
      offset := offset + size;
      assert data[old(offset)..][size..] == data[offset..];
    }

    /** Every fixed-width read of the source: the value, or zero once anything has failed. */
    method Field(k: Kind) returns (v: int)
      requires Valid()
      modifies this
      ensures Valid() && offset >= old(offset)
      ensures (v, Left()) == TakeField(k, old(Left()))
      ensures old(Left()).Failure? ==> offset == old(offset)
    {
      var w := Word(Size(k));
      if !fail.Ok? { return 0; }
      if Refuses(k, w) {
        Fail(MalformedInput);
        return 0;
      }
      return if k.I64? && w >= TWO_63 then w - TWO_64 else w;
    }

    method Count(max: nat) returns (n: nat)
      requires Valid()
      modifies this
      ensures Valid() && offset >= old(offset)
      ensures (n, Left()) == TakeCount(max, old(Left()))
    {
      var v := Field(U32);
      if !fail.Ok? { return 0; }
      TakenFits(U32, old(Left()));
      if v > max {
        Fail(BoundsExceeded);
        return 0;
      }
      return v;
    }

    method Finish() returns (code: Status)
      requires Valid()
      ensures code.Ok? <==> Left() == Success([])
      ensures Left().Failure? ==> code == Left().code
      ensures Left().Success? && Left().value != [] ==> code == TrailingGarbage
    {
      if !fail.Ok? { return fail; }
      if offset != |data| { return TrailingGarbage; }
      return Ok;
    }
  }

  /** A bounded collection count. */
  function TakeCount(max: nat, view: View): (nat, View) {
    var (v, rest) := TakeField(U32, view);
    if rest.Failure? then (0, rest)
    else if v > max then (0, Failure(BoundsExceeded))
    else (if v < 0 then 0 else v, rest)
  }

  lemma CountRound(n: nat, max: nat, rest: Bytes)
    requires n <= max && n < 0x1_0000_0000
    ensures TakeCount(max, Success(PutField(U32, n) + rest)) == (n, Success(rest))
  {
    FieldRound(U32, n, rest);
  }

  /** `Writer`: appends fields while they fit, and nothing after the first that does not. */
  class Writer {
    const limit: nat
    var buffer: Bytes
    var fail: Status

    ghost predicate Valid()
      reads this
    {
      |buffer| <= limit
    }

    constructor (limit: nat)
      ensures Valid() && buffer == [] && fail.Ok? && this.limit == limit
    {
      this.limit, buffer, fail := limit, [], Ok;
    }

    method Reserve(count: nat) returns (ready: bool)
      modifies this`fail
      ensures ready <==> old(fail).Ok? && |buffer| + count <= limit
      ensures fail == if ready || !old(fail).Ok? then old(fail) else BoundsExceeded
    {
      if !fail.Ok? { return false; }
      if count > limit || |buffer| > limit - count {
        fail := BoundsExceeded;
        return false;
      }
      return true;
    }

    method Field(k: Kind, v: int)
      requires Valid()
      modifies this
      ensures Valid()
      ensures old(fail).Ok? && |old(buffer)| + Size(k) <= limit ==>
                fail.Ok? && buffer == old(buffer) + PutField(k, v)
      ensures !(old(fail).Ok? && |old(buffer)| + Size(k) <= limit) ==>
                buffer == old(buffer) && fail == if old(fail).Ok? then BoundsExceeded else old(fail)
    {
      var ready := Reserve(Size(k));
      if !ready { return; }
      ghost var start := buffer;
      var w := Unsigned(v);
      ghost var whole := w;
      var left := Size(k);
      while left > 0
        invariant 0 <= left <= Size(k)
        invariant buffer + LE(w, left) == start + LE(whole, Size(k))
        invariant |buffer| + left <= limit && fail.Ok?
      {
        assert buffer + LE(w, left) == buffer + [ToByte(w)] + LE(w / 256, left - 1);
        buffer := buffer + [ToByte(w)];
        w := w / 256;
        left := left - 1;
      }
    }
  }
}
