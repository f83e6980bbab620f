/**
 * The UTF-8 validator (src/codec.cpp): the arithmetic it performs accepts exactly the byte strings of the
 * grammar in section 4 of RFC 3629, which are exactly the encodings of sequences of scalar values.
 */
module Utf8 {
  type Bytes = seq<bv8>

  // ---------------------------------------------------------------------------------------------
  // The grammar
  // ---------------------------------------------------------------------------------------------

  predicate Tail(b: bv8) { 0x80 <= b <= 0xBF }

  predicate Two(a: bv8, b: bv8) { 0xC2 <= a <= 0xDF && Tail(b) }

  predicate Three(a: bv8, b: bv8, c: bv8) {
    && Tail(c)
    && (|| (a == 0xE0 && 0xA0 <= b <= 0xBF)
        || (0xE1 <= a <= 0xEC && Tail(b))
        || (a == 0xED && 0x80 <= b <= 0x9F)
        || (0xEE <= a <= 0xEF && Tail(b)))
  }

  predicate Four(a: bv8, b: bv8, c: bv8, d: bv8) {
    && Tail(c) && Tail(d)
    && (|| (a == 0xF0 && 0x90 <= b <= 0xBF)
        || (0xF1 <= a <= 0xF3 && Tail(b))
        || (a == 0xF4 && 0x80 <= b <= 0x8F))
  }

  /** The length of the first character by the byte-range table, or 0 when there is none. */
  function FirstLength(s: Bytes): (n: nat)
    ensures n <= |s| && n <= 4
  {
    if s == [] then 0
    else if s[0] <= 0x7F then 1
    else if |s| >= 2 && Two(s[0], s[1]) then 2
    else if |s| >= 3 && Three(s[0], s[1], s[2]) then 3
    else if |s| >= 4 && Four(s[0], s[1], s[2], s[3]) then 4
    else 0
  }

  predicate Octets(s: Bytes)
    decreases |s|
  {
    s == [] || (FirstLength(s) > 0 && Octets(s[FirstLength(s)..]))
  }

  // ---------------------------------------------------------------------------------------------
  // Scalar values
  // ---------------------------------------------------------------------------------------------

  predicate Scalar(c: bv32) { c <= 0x10FFFF && !(0xD800 <= c <= 0xDFFF) }

  function Byte(x: bv32): bv8 { (x & 0xFF) as bv8 }

  function EncodeScalar(c: bv32): (s: Bytes)
    ensures 1 <= |s| <= 4
  {
    if c < 0x80 then [Byte(c)]
    else if c < 0x800 then [Byte(0xC0 | (c >> 6)), Byte(0x80 | (c & 0x3F))]
    else if c < 0x10000 then [Byte(0xE0 | (c >> 12)), Byte(0x80 | ((c >> 6) & 0x3F)), Byte(0x80 | (c & 0x3F))]
    else [Byte(0xF0 | (c >> 18)), Byte(0x80 | ((c >> 12) & 0x3F)), Byte(0x80 | ((c >> 6) & 0x3F)),
          Byte(0x80 | (c & 0x3F))]
  }

  function Encode(cs: seq<bv32>): Bytes
    decreases |cs|
  {
    if cs == [] then [] else EncodeScalar(cs[0]) + Encode(cs[1..])
  }

  ghost predicate Scalars(cs: seq<bv32>) { forall i | 0 <= i < |cs| :: Scalar(cs[i]) }

  // ---------------------------------------------------------------------------------------------
  // The arithmetic
  // ---------------------------------------------------------------------------------------------

  function Wide(b: bv8): bv32 { b as bv32 }

  function Extend(code: bv32, b: bv8): bv32 { (code << 6) | Wide(b & 0x3F) }

  /** How many bytes the lead byte announces after itself; 4 stands for none of the forms. */
  function Extra(lead: bv8): (n: nat)
    ensures n <= 4
  {
    if lead < 0x80 then 0
    else if lead & 0xE0 == 0xC0 then 1
    else if lead & 0xF0 == 0xE0 then 2
    else if lead & 0xF8 == 0xF0 then 3
    else 4
  }

  function LeadBits(lead: bv8): bv32 {
    if lead & 0xE0 == 0xC0 then Wide(lead & 0x1F)
    else if lead & 0xF0 == 0xE0 then Wide(lead & 0x0F)
    else Wide(lead & 0x07)
  }

  predicate Continues(b: bv8) { b & 0xC0 == 0x80 }

  /** Neither overlong, nor a surrogate, nor out of range. */
  predicate CodeOk(extra: nat, code: bv32) {
    && !(extra == 1 && code < 0x80) && !(extra == 2 && code < 0x800) && !(extra == 3 && code < 0x10000)
    && !(0xD800 <= code <= 0xDFFF) && code <= 0x10FFFF
  }

  lemma TwoMeaning(a: bv8, b: bv8)
    requires Extra(a) == 1
    ensures Continues(b) && CodeOk(1, Extend(LeadBits(a), b)) <==> Two(a, b)
  {
  }

  lemma ThreeMeaning(a: bv8, b: bv8, c: bv8)
    requires Extra(a) == 2
    ensures Continues(b) && Continues(c) && CodeOk(2, Extend(Extend(LeadBits(a), b), c)) <==> Three(a, b, c)
  {
  }

  /** Two more continuation bytes scale the bounds of a code by 2^12. */
  lemma UpperBits(x: bv32, c: bv8, d: bv8)
    requires x < 0x200
    ensures CodeOk(3, Extend(Extend(x, c), d)) <==> 0x10 <= x <= 0x10F
  {
  }

  lemma LeadAndFirst(a: bv8, b: bv8)
    requires Extra(a) == 3 && Continues(b)
    ensures Extend(LeadBits(a), b) < 0x200
    ensures 0x10 <= Extend(LeadBits(a), b) <= 0x10F <==>
            (a == 0xF0 && 0x90 <= b) || 0xF1 <= a <= 0xF3 || (a == 0xF4 && b <= 0x8F)
  {
  }

  lemma TailIsContinuation(b: bv8)
    ensures Continues(b) <==> Tail(b)
  {
  }

  lemma FourMeaning(a: bv8, b: bv8, c: bv8, d: bv8)
    requires Extra(a) == 3
    ensures Four(a, b, c, d) <==>
            && Continues(b) && Continues(c) && Continues(d)
            && CodeOk(3, Extend(Extend(Extend(LeadBits(a), b), c), d))
  {
    TailIsContinuation(b);
    TailIsContinuation(c);
    TailIsContinuation(d);
    if Continues(b) {
      LeadAndFirst(a, b);
      UpperBits(Extend(LeadBits(a), b), c, d);
    }
  }

  lemma NoForm(a: bv8, b: bv8, c: bv8, d: bv8)
    ensures Extra(a) != 1 ==> !Two(a, b)
    ensures Extra(a) != 2 ==> !Three(a, b, c)
    ensures Extra(a) != 3 ==> !Four(a, b, c, d)
    ensures Extra(a) == 0 <==> a <= 0x7F
  {
  }

  /** The code point after the lead byte and `k` continuation bytes. */
  function Code(s: Bytes, k: nat): bv32
    requires k < |s|
  {
    if k == 0 then LeadBits(s[0]) else Extend(Code(s, k - 1), s[k])
  }

  predicate Accepts(s: Bytes)
    requires s != []
  {
    var n := Extra(s[0]);
    n == 0 || (n < 4 && n < |s| && (forall k | 1 <= k <= n :: Continues(s[k])) && CodeOk(n, Code(s, n)))
  }

  lemma CodeUnfolds(s: Bytes, n: nat)
    requires n < |s|
    ensures n == 1 ==> Code(s, n) == Extend(LeadBits(s[0]), s[1])
    ensures n == 2 ==> Code(s, n) == Extend(Extend(LeadBits(s[0]), s[1]), s[2])
    ensures n == 3 ==> Code(s, n) == Extend(Extend(Extend(LeadBits(s[0]), s[1]), s[2]), s[3])
  {
    if n == 3 {
      assert Code(s, 2) == Extend(Code(s, 1), s[2]) && Code(s, 1) == Extend(Code(s, 0), s[1]);
    }
  }

  /** The arithmetic accepts a first character exactly when the table does, and of the same length. */
  lemma AcceptsByTable(s: Bytes)
    requires s != []
    ensures FirstLength(s) == if Accepts(s) then Extra(s[0]) + 1 else 0
  {
    var n := Extra(s[0]);
    var b := if |s| > 1 then s[1] else 0;
    var c := if |s| > 2 then s[2] else 0;
    var d := if |s| > 3 then s[3] else 0;
    NoForm(s[0], b, c, d);
    if 1 <= n < 4 && n < |s| {
      CodeUnfolds(s, n);
      if n == 1 { TwoMeaning(s[0], b); }
      if n == 2 { ThreeMeaning(s[0], b, c); }
      if n == 3 { FourMeaning(s[0], b, c, d); }
    }
  }

  /** The length of the character that starts at `index`, or zero if none does: the inner loop of the source. */
  method CharacterAt(text: Bytes, index: nat) returns (length: nat)
    requires index < |text|
    ensures length == FirstLength(text[index..])
  {
    ghost var s := text[index..];
    AcceptsByTable(s);
    var lead := text[index];
    var extra := Extra(lead);
    if extra == 4 { return 0; }
    if index + extra >= |text| { return 0; }
    var code := LeadBits(lead);
    var offset := 1;
    while offset <= extra
      invariant 1 <= offset <= extra + 1
      invariant code == Code(s, offset - 1)
      invariant forall k | 1 <= k < offset :: Continues(s[k])
    {
      var continuation := text[index + offset];
      assert continuation == s[offset];
      if continuation & 0xC0 != 0x80 { return 0; }
      code := (code << 6) | Wide(continuation & 0x3F);
      offset := offset + 1;
    }
    if extra > 0 && !CodeOk(extra, code) { return 0; }
    return extra + 1;
  }

  /** `is_valid_utf8`. */
  method IsValidUtf8(text: Bytes) returns (valid: bool)
    ensures valid <==> Octets(text)
  {
    var index := 0;
    while index < |text|
      invariant 0 <= index <= |text|
      invariant Octets(text) <==> Octets(text[index..])
    {
      var length := CharacterAt(text, index);
      if length == 0 { return false; }
      assert text[index..][length..] == text[index + length..];
      index := index + length;
    }
    return true;
  }

  // ---------------------------------------------------------------------------------------------
  // Encodings
  // ---------------------------------------------------------------------------------------------

  lemma EncodedTwo(c: bv32)
    requires 0x80 <= c < 0x800
    ensures Two(Byte(0xC0 | (c >> 6)), Byte(0x80 | (c & 0x3F))) && Byte(0xC0 | (c >> 6)) > 0x7F
    ensures Extend(Wide(Byte(0xC0 | (c >> 6)) & 0x1F), Byte(0x80 | (c & 0x3F))) == c
  {
  }

  lemma TailByte(x: bv32)
    ensures Tail(Byte(0x80 | (x & 0x3F)))
  {
  }

  /** A continuation byte made of the six low bits puts them back. */
  lemma Joins(code: bv32, c: bv32)
    requires code == c >> 6
    ensures Extend(code, Byte(0x80 | (c & 0x3F))) == c
  {
  }

  lemma Shifts(c: bv32)
    ensures (c >> 6) >> 6 == c >> 12 && (c >> 12) >> 6 == c >> 18
  {
  }

  lemma ThreeLead(c: bv32)
    requires 0x800 <= c < 0x10000 && Scalar(c)
    ensures var x, y := Byte(0xE0 | (c >> 12)), Byte(0x80 | ((c >> 6) & 0x3F));
      && 0xE0 <= x <= 0xEF && (x == 0xE0 ==> y >= 0xA0) && (x == 0xED ==> y <= 0x9F)
      && Wide(x & 0x0F) == c >> 12
  {
  }

  lemma ThreeRange(x: bv8, y: bv8, z: bv8)
    requires 0xE0 <= x <= 0xEF && (x == 0xE0 ==> y >= 0xA0) && (x == 0xED ==> y <= 0x9F) && Tail(y) && Tail(z)
    ensures Three(x, y, z) && x > 0xDF
  {
  }

  lemma EncodedThree(c: bv32)
    requires 0x800 <= c < 0x10000 && Scalar(c)
    ensures Three(Byte(0xE0 | (c >> 12)), Byte(0x80 | ((c >> 6) & 0x3F)), Byte(0x80 | (c & 0x3F)))
    ensures Byte(0xE0 | (c >> 12)) > 0xDF
  {
    ThreeLead(c);
    TailByte(c >> 6);
    TailByte(c);
    ThreeRange(Byte(0xE0 | (c >> 12)), Byte(0x80 | ((c >> 6) & 0x3F)), Byte(0x80 | (c & 0x3F)));
  }

  lemma ThreeValue(c: bv32)
    requires 0x800 <= c < 0x10000 && Scalar(c)
    ensures Extend(Extend(Wide(Byte(0xE0 | (c >> 12)) & 0x0F), Byte(0x80 | ((c >> 6) & 0x3F))),
                   Byte(0x80 | (c & 0x3F))) == c
  {
    calc {
      Extend(Extend(Wide(Byte(0xE0 | (c >> 12)) & 0x0F), Byte(0x80 | ((c >> 6) & 0x3F))), Byte(0x80 | (c & 0x3F)));
      { ThreeLead(c); }
      Extend(Extend(c >> 12, Byte(0x80 | ((c >> 6) & 0x3F))), Byte(0x80 | (c & 0x3F)));
      { Shifts(c); Joins(c >> 12, c >> 6); }
      Extend(c >> 6, Byte(0x80 | (c & 0x3F)));
      { Joins(c >> 6, c); }
      c;
    }
  }

  lemma FourLead(c: bv32)
    requires 0x10000 <= c <= 0x10FFFF
    ensures var w, x := Byte(0xF0 | (c >> 18)), Byte(0x80 | ((c >> 12) & 0x3F));
      && 0xF0 <= w <= 0xF4 && (w == 0xF0 ==> x >= 0x90) && (w == 0xF4 ==> x <= 0x8F)
      && Wide(w & 0x07) == c >> 18
  {
  }

  lemma FourRange(w: bv8, x: bv8, y: bv8, z: bv8)
    requires 0xF0 <= w <= 0xF4 && (w == 0xF0 ==> x >= 0x90) && (w == 0xF4 ==> x <= 0x8F)
    requires Tail(x) && Tail(y) && Tail(z)
    ensures Four(w, x, y, z) && w > 0xEF
  {
  }

  lemma EncodedFour(c: bv32)
    requires 0x10000 <= c <= 0x10FFFF
    ensures Four(Byte(0xF0 | (c >> 18)), Byte(0x80 | ((c >> 12) & 0x3F)), Byte(0x80 | ((c >> 6) & 0x3F)),
                 Byte(0x80 | (c & 0x3F)))
    ensures Byte(0xF0 | (c >> 18)) > 0xEF
  {
    FourLead(c);
    TailByte(c >> 12);
    TailByte(c >> 6);
    TailByte(c);
    FourRange(Byte(0xF0 | (c >> 18)), Byte(0x80 | ((c >> 12) & 0x3F)), Byte(0x80 | ((c >> 6) & 0x3F)),
              Byte(0x80 | (c & 0x3F)));
  }

  lemma FourHead(c: bv32)
    requires 0x10000 <= c <= 0x10FFFF
    ensures Extend(Wide(Byte(0xF0 | (c >> 18)) & 0x07), Byte(0x80 | ((c >> 12) & 0x3F))) == c >> 12
  {
    FourLead(c);
    Shifts(c);
    Joins(c >> 18, c >> 12);
  }

  lemma LastTwo(c: bv32)
    ensures Extend(Extend(c >> 12, Byte(0x80 | ((c >> 6) & 0x3F))), Byte(0x80 | (c & 0x3F))) == c
  {
    calc {
      Extend(Extend(c >> 12, Byte(0x80 | ((c >> 6) & 0x3F))), Byte(0x80 | (c & 0x3F)));
      { Shifts(c); Joins(c >> 12, c >> 6); }
      Extend(c >> 6, Byte(0x80 | (c & 0x3F)));
      { Joins(c >> 6, c); }
      c;
    }
  }

  lemma FourValue(c: bv32)
    requires 0x10000 <= c <= 0x10FFFF
    ensures Extend(Extend(Extend(Wide(Byte(0xF0 | (c >> 18)) & 0x07), Byte(0x80 | ((c >> 12) & 0x3F))),
                          Byte(0x80 | ((c >> 6) & 0x3F))), Byte(0x80 | (c & 0x3F))) == c
  {
    FourHead(c);
    LastTwo(c);
  }

  lemma EncodedOne(c: bv32)
    requires c < 0x80
    ensures Byte(c) <= 0x7F && Wide(Byte(c)) == c
  {
  }

  /** The scalar the first character stands for. */
  function FirstScalar(s: Bytes): bv32
    requires FirstLength(s) > 0
  {
    match FirstLength(s)
    case 1 => Wide(s[0])
    case 2 => Extend(Wide(s[0] & 0x1F), s[1])
    case 3 => Extend(Extend(Wide(s[0] & 0x0F), s[1]), s[2])
    case _ => Extend(Extend(Extend(Wide(s[0] & 0x07), s[1]), s[2]), s[3])
  }

  lemma EncodedFirst(c: bv32, rest: Bytes)
    requires Scalar(c)
    ensures FirstLength(EncodeScalar(c) + rest) == |EncodeScalar(c)|
    ensures FirstScalar(EncodeScalar(c) + rest) == c
  {
    var s := EncodeScalar(c) + rest;
    if c < 0x80 {
      EncodedOne(c);
    } else if c < 0x800 {
      EncodedTwo(c);
    } else if c < 0x10000 {
      EncodedThree(c);
      ThreeValue(c);
    } else {
      EncodedFour(c);
      FourValue(c);
    }
  }

  lemma DecodedOne(a: bv8)
    requires a <= 0x7F
    ensures Wide(a) < 0x80 && Byte(Wide(a)) == a
  {
  }

  lemma DecodedTwo(a: bv8, b: bv8)
    requires Two(a, b)
    ensures var c := Extend(Wide(a & 0x1F), b);
      0x80 <= c < 0x800 && Byte(0xC0 | (c >> 6)) == a && Byte(0x80 | (c & 0x3F)) == b
  {
  }

  lemma DecodedThree(a: bv8, b: bv8, d: bv8)
    requires Three(a, b, d)
    ensures var c := Extend(Extend(Wide(a & 0x0F), b), d);
      && 0x800 <= c < 0x10000 && Scalar(c)
      && Byte(0xE0 | (c >> 12)) == a && Byte(0x80 | ((c >> 6) & 0x3F)) == b && Byte(0x80 | (c & 0x3F)) == d
  {
  }

  lemma DecodedFour(a: bv8, b: bv8, d: bv8, e: bv8)
    requires Four(a, b, d, e)
    ensures var c := Extend(Extend(Extend(Wide(a & 0x07), b), d), e);
      && 0x10000 <= c <= 0x10FFFF
      && Byte(0xF0 | (c >> 18)) == a && Byte(0x80 | ((c >> 12) & 0x3F)) == b
      && Byte(0x80 | ((c >> 6) & 0x3F)) == d && Byte(0x80 | (c & 0x3F)) == e
  {
  }

  lemma ShortIsEncoded(s: Bytes)
    requires 1 <= FirstLength(s) <= 2
    ensures Scalar(FirstScalar(s)) && EncodeScalar(FirstScalar(s)) == s[..FirstLength(s)]
  {
    if FirstLength(s) == 1 { DecodedOne(s[0]); } else { DecodedTwo(s[0], s[1]); }
  }

  lemma ThirdIsEncoded(s: Bytes)
    requires FirstLength(s) == 3
    ensures Scalar(FirstScalar(s)) && EncodeScalar(FirstScalar(s)) == s[..3]
  {
    DecodedThree(s[0], s[1], s[2]);
  }

  lemma FourthIsEncoded(s: Bytes)
    requires FirstLength(s) == 4
    ensures Scalar(FirstScalar(s)) && EncodeScalar(FirstScalar(s)) == s[..4]
  {
    DecodedFour(s[0], s[1], s[2], s[3]);
  }

  lemma FirstIsEncoded(s: Bytes)
    requires FirstLength(s) > 0
    ensures Scalar(FirstScalar(s)) && EncodeScalar(FirstScalar(s)) == s[..FirstLength(s)]
  {
    if FirstLength(s) <= 2 { ShortIsEncoded(s); }
    else if FirstLength(s) == 3 { ThirdIsEncoded(s); }
    else { FourthIsEncoded(s); }
  }

  function Decode(s: Bytes): seq<bv32>
    requires Octets(s)
    decreases |s|
  {
    if s == [] then [] else [FirstScalar(s)] + Decode(s[FirstLength(s)..])
  }

  /** What the grammar accepts is the encoding of the scalars it stands for. */
  lemma {:induction false} OctetsAreEncodings(s: Bytes)
    requires Octets(s)
    ensures Scalars(Decode(s)) && Encode(Decode(s)) == s
    decreases |s|
  {
    if s == [] {
    } else {
      var n := FirstLength(s);
      FirstIsEncoded(s);
      OctetsAreEncodings(s[n..]);
      Prepend(FirstScalar(s), Decode(s[n..]), s, n);
    }
  }

  lemma Prepend(c: bv32, cs: seq<bv32>, s: Bytes, n: nat)
    requires Scalar(c) && Scalars(cs) && n <= |s| && EncodeScalar(c) == s[..n] && Encode(cs) == s[n..]
    ensures Scalars([c] + cs) && Encode([c] + cs) == s
  {
    assert ([c] + cs)[1..] == cs;
    assert s == s[..n] + s[n..];
  }

  /** Every encoding of scalars is accepted, and decodes to them alone. */
  lemma {:induction false} EncodingsAreOctets(cs: seq<bv32>)
    requires Scalars(cs)
    ensures Octets(Encode(cs)) && Decode(Encode(cs)) == cs
    decreases |cs|
  {
    if cs == [] {
    } else {
      var first, rest := EncodeScalar(cs[0]), Encode(cs[1..]);
      EncodingsAreOctets(cs[1..]);
      EncodedFirst(cs[0], rest);
      assert (first + rest)[|first|..] == rest;
      assert cs == [cs[0]] + cs[1..];
    }
  }

  /** The validator accepts a byte string exactly when it encodes some sequence of scalar values. */
  lemma ValidIsEncoding(s: Bytes)
    ensures Octets(s) <==> exists cs :: Scalars(cs) && Encode(cs) == s
  {
    if Octets(s) { OctetsAreEncodings(s); }
    if cs :| Scalars(cs) && Encode(cs) == s { EncodingsAreOctets(cs); }
  }
}
