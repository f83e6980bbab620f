/**
 * CRC-32C (src/crc32c.cpp, section 12.1 of RFC 3720): the table-driven update against the bitwise
 * division it stands for, and the burst errors it is guaranteed to detect.
 */
module Crc32c {
  import opened Ids

  const POLYNOMIAL: bv32 := 0x82F63B78

  /** One bit of the reflected division. */
  function BitStep(c: bv32): bv32 {
    if c & 1 != 0 then (c >> 1) ^ POLYNOMIAL else c >> 1
  }

  /** A byte-wise division: its bit step, and how many bits each message byte takes. */
  datatype Engine = Engine(step: bv32 -> bv32, width: nat)

  const CRC32C: Engine := Engine(BitStep, 8)

  function Xor(a: bv32, b: bv32): bv32 { a ^ b }

  function Wide(b: bv8): bv32 { b as bv32 }

  function Steps(f: bv32 -> bv32, c: bv32, n: nat): bv32
    decreases n
  {
    if n == 0 then c else Steps(f, f(c), n - 1)
  }

  /** The state after one message byte. */
  function ByteStep(e: Engine, state: bv32, b: bv8): bv32 { Steps(e.step, Xor(state, Wide(b)), e.width) }

  /** The state after a message, by the bitwise definition. */
  function Divide(e: Engine, state: bv32, data: seq<bv8>): bv32
    decreases |data|
  {
    if data == [] then state else Divide(e, ByteStep(e, state, data[0]), data[1..])
  }

  const INIT: bv32 := 0xFFFFFFFF

  function Finish(state: bv32): bv32 { state ^ 0xFFFFFFFF }

  function Checksum(data: seq<bv8>): bv32 { Finish(Divide(CRC32C, INIT, data)) }

  // ---------------------------------------------------------------------------------------------
  // What is needed of the bit step: it is linear, invertible, and shifts even words
  // ---------------------------------------------------------------------------------------------

  ghost predicate Linear(f: bv32 -> bv32) {
    forall x, y {:trigger At((x, y))} :: At((x, y)) ==> f(Xor(x, y)) == Xor(f(x), f(y))
  }

  ghost predicate Injective(f: bv32 -> bv32) {
    forall x, y {:trigger At((x, y))} :: At((x, y)) && f(x) == f(y) ==> x == y
  }

  ghost predicate ShiftsEven(f: bv32 -> bv32) {
    forall x {:trigger At(x)} :: At(x) && x & 1 == 0 ==> f(x) == x >> 1
  }

  ghost predicate Good(e: Engine) {
    e.width == 8 && Linear(e.step) && Injective(e.step) && ShiftsEven(e.step)
  }

  lemma EvenStep(c: bv32)
    requires c & 1 == 0
    ensures BitStep(c) == c >> 1
  {
  }

  lemma OddStep(c: bv32)
    requires c & 1 != 0
    ensures BitStep(c) == (c >> 1) ^ 0x82F63B78
  {
  }

  lemma BothEven(x: bv32, y: bv32)
    requires x & 1 == 0 && y & 1 == 0
    ensures (x ^ y) & 1 == 0 && (x ^ y) >> 1 == (x >> 1) ^ (y >> 1)
  {
  }

  lemma OneOdd(x: bv32, y: bv32)
    requires x & 1 == 0 && y & 1 != 0
    ensures (x ^ y) & 1 != 0
    ensures ((x ^ y) >> 1) ^ 0x82F63B78 == (x >> 1) ^ ((y >> 1) ^ 0x82F63B78)
  {
  }

  lemma BothOdd(x: bv32, y: bv32)
    requires x & 1 != 0 && y & 1 != 0
    ensures (x ^ y) & 1 == 0
    ensures (x ^ y) >> 1 == ((x >> 1) ^ 0x82F63B78) ^ ((y >> 1) ^ 0x82F63B78)
  {
  }

  lemma XorSwap(x: bv32, y: bv32)
    ensures x ^ y == y ^ x
  {
  }

  lemma LinearEven(x: bv32, y: bv32)
    requires x & 1 == 0 && y & 1 == 0
    ensures BitStep(x ^ y) == BitStep(x) ^ BitStep(y)
  {
    calc {
      BitStep(x ^ y);
    == { BothEven(x, y); EvenStep(x ^ y); }
      (x ^ y) >> 1;
    == { BothEven(x, y); }
      (x >> 1) ^ (y >> 1);
    == { EvenStep(x); }
      BitStep(x) ^ (y >> 1);
    == { EvenStep(y); }
      BitStep(x) ^ BitStep(y);
    }
  }

  lemma LinearMixed(x: bv32, y: bv32)
    requires x & 1 == 0 && y & 1 != 0
    ensures BitStep(x ^ y) == BitStep(x) ^ BitStep(y)
  {
    OneOdd(x, y);
    OddStep(x ^ y);
    EvenStep(x);
    OddStep(y);
  }

  lemma LinearOdd(x: bv32, y: bv32)
    requires x & 1 != 0 && y & 1 != 0
    ensures BitStep(x ^ y) == BitStep(x) ^ BitStep(y)
  {
    BothOdd(x, y);
    EvenStep(x ^ y);
    OddStep(x);
    OddStep(y);
  }

  lemma BitStepLinear(x: bv32, y: bv32)
    ensures BitStep(x ^ y) == BitStep(x) ^ BitStep(y)
  {
    if x & 1 == 0 && y & 1 == 0 {
      LinearEven(x, y);
    } else if x & 1 == 0 && y & 1 != 0 {
      LinearMixed(x, y);
    } else if x & 1 != 0 && y & 1 != 0 {
      LinearOdd(x, y);
    } else {
      LinearMixed(y, x);
      XorSwap(x, y);
      XorSwap(BitStep(x), BitStep(y));
    }
  }

  /** The polynomial has its top bit set, so the step can be undone. */
  function BitUnstep(c: bv32): bv32 {
    if c & 0x80000000 != 0 then ((c ^ POLYNOMIAL) << 1) | 1 else c << 1
  }

  lemma OddUndone(c: bv32)
    requires c & 1 != 0
    ensures ((c >> 1) ^ 0x82F63B78) & 0x80000000 != 0
    ensures ((((c >> 1) ^ 0x82F63B78) ^ 0x82F63B78) << 1) | 1 == c
  {
  }

  lemma EvenUndone(c: bv32)
    requires c & 1 == 0
    ensures (c >> 1) & 0x80000000 == 0 && (c >> 1) << 1 == c
  {
  }

  lemma BitStepInvertible(c: bv32)
    ensures BitUnstep(BitStep(c)) == c
  {
    if c & 1 != 0 {
      OddUndone(c);
    } else {
      EvenUndone(c);
    }
  }

  lemma EngineGood()
    ensures Good(CRC32C)
  {
    assert Linear(BitStep) by {
      forall x, y ensures BitStep(Xor(x, y)) == Xor(BitStep(x), BitStep(y)) { BitStepLinear(x, y); }
    }
    assert Injective(BitStep) by {
      forall x, y | BitStep(x) == BitStep(y) ensures x == y {
        BitStepInvertible(x);
        BitStepInvertible(y);
      }
    }
    assert ShiftsEven(BitStep) by {
      forall x: bv32 | x & 1 == 0 ensures BitStep(x) == x >> 1 { EvenStep(x); }
    }
  }

  // ---------------------------------------------------------------------------------------------
  // Steps and messages
  // ---------------------------------------------------------------------------------------------

  lemma {:induction false} StepsLinear(f: bv32 -> bv32, x: bv32, y: bv32, n: nat)
    requires Linear(f)
    ensures Steps(f, Xor(x, y), n) == Xor(Steps(f, x, n), Steps(f, y, n))
    decreases n
  {
    assert At((x, y));
    if n > 0 {
      StepsLinear(f, f(x), f(y), n - 1);
    }
  }

  lemma {:induction false} StepsInjective(f: bv32 -> bv32, x: bv32, y: bv32, n: nat)
    requires Injective(f) && Steps(f, x, n) == Steps(f, y, n)
    ensures x == y
    decreases n
  {
    assert At((x, y));
    if n > 0 {
      StepsInjective(f, f(x), f(y), n - 1);
    }
  }

  lemma {:induction false} StepsCompose(f: bv32 -> bv32, c: bv32, m: nat, n: nat)
    ensures Steps(f, Steps(f, c, m), n) == Steps(f, c, m + n)
    decreases m
  {
    if m > 0 {
      StepsCompose(f, f(c), m - 1, n);
    }
  }

  lemma XorTwice(a: bv32, p: bv32)
    ensures Xor(Xor(a, p), p) == a
  {
  }

  lemma XorInjective(a: bv32, b: bv32, p: bv32)
    requires Xor(a, p) == Xor(b, p)
    ensures a == b
  {
    XorTwice(a, p);
    XorTwice(b, p);
  }

  lemma ByteStepInjective(e: Engine, x: bv32, y: bv32, b: bv8)
    requires Injective(e.step) && ByteStep(e, x, b) == ByteStep(e, y, b)
    ensures x == y
  {
    StepsInjective(e.step, Xor(x, Wide(b)), Xor(y, Wide(b)), e.width);
    XorInjective(x, y, Wide(b));
  }

  /** Equal tails keep different states apart. */
  lemma {:induction false} DivideInjective(e: Engine, x: bv32, y: bv32, data: seq<bv8>)
    requires Injective(e.step) && Divide(e, x, data) == Divide(e, y, data)
    ensures x == y
    decreases |data|
  {
    if data == [] {
    } else {
      DivideInjective(e, ByteStep(e, x, data[0]), ByteStep(e, y, data[0]), data[1..]);
      ByteStepInjective(e, x, y, data[0]);
    }
  }

  /** Streaming a message in two parts equals one pass over it. */
  lemma {:induction false} DivideConcat(e: Engine, state: bv32, a: seq<bv8>, b: seq<bv8>)
    ensures Divide(e, state, a + b) == Divide(e, Divide(e, state, a), b)
    decreases |a|
  {
    if a == [] {
      assert a + b == b;
    } else {
      assert (a + b)[1..] == a[1..] + b;
      DivideConcat(e, ByteStep(e, state, a[0]), a[1..], b);
    }
  }

  // ---------------------------------------------------------------------------------------------
  // The table
  // ---------------------------------------------------------------------------------------------

  lemma ShiftFacts(h: bv32)
    requires h & 0xFF == 0
    ensures h & 1 == 0 && (h >> 1) & 1 == 0 && (h >> 2) & 1 == 0 && (h >> 3) & 1 == 0
    ensures (h >> 4) & 1 == 0 && (h >> 5) & 1 == 0 && (h >> 6) & 1 == 0 && (h >> 7) & 1 == 0
    ensures (h >> 1) >> 1 == h >> 2 && (h >> 2) >> 1 == h >> 3 && (h >> 3) >> 1 == h >> 4
    ensures (h >> 4) >> 1 == h >> 5 && (h >> 5) >> 1 == h >> 6 && (h >> 6) >> 1 == h >> 7
    ensures (h >> 7) >> 1 == h >> 8
  {
  }

  /** A state whose low byte is zero is only shifted. */
  lemma HighBytesShift(f: bv32 -> bv32, h: bv32, n: nat)
    requires ShiftsEven(f) && h & 0xFF == 0 && n >= 8
    ensures Steps(f, h, n) == Steps(f, h >> 8, n - 8)
  {
    ShiftFacts(h);
    assert At(h) && f(h) == h >> 1;
    assert At(h >> 1) && f(h >> 1) == h >> 2;
    assert At(h >> 2) && f(h >> 2) == h >> 3;
    assert At(h >> 3) && f(h >> 3) == h >> 4;
    assert At(h >> 4) && f(h >> 4) == h >> 5;
    assert At(h >> 5) && f(h >> 5) == h >> 6;
    assert At(h >> 6) && f(h >> 6) == h >> 7;
    assert At(h >> 7) && f(h >> 7) == h >> 8;
    assert Steps(f, h >> 7, n - 7) == Steps(f, h >> 8, n - 8);
    assert Steps(f, h >> 6, n - 6) == Steps(f, h >> 7, n - 7);
    assert Steps(f, h >> 5, n - 5) == Steps(f, h >> 6, n - 6);
    assert Steps(f, h >> 4, n - 4) == Steps(f, h >> 5, n - 5);
    assert Steps(f, h >> 3, n - 3) == Steps(f, h >> 4, n - 4);
    assert Steps(f, h >> 2, n - 2) == Steps(f, h >> 3, n - 3);
    assert Steps(f, h >> 1, n - 1) == Steps(f, h >> 2, n - 2);
  }

  lemma SplitLow(x: bv32)
    ensures x == Xor(x & 0xFF, x & 0xFFFFFF00)
    ensures (x & 0xFFFFFF00) & 0xFF == 0
    ensures (x & 0xFFFFFF00) >> 8 == x >> 8
  {
  }

  lemma SplitSteps(e: Engine, low: bv32, high: bv32)
    requires Good(e) && high & 0xFF == 0
    ensures Steps(e.step, Xor(low, high), e.width) == Xor(Steps(e.step, low, e.width), high >> 8)
  {
    StepsLinear(e.step, low, high, e.width);
    HighBytesShift(e.step, high, e.width);
  }

  /** Dividing a word by one byte is a table lookup of its low byte and a shift. */
  lemma LookupSuffices(e: Engine, x: bv32)
    requires Good(e)
    ensures Steps(e.step, x, e.width) == Xor(Steps(e.step, x & 0xFF, e.width), x >> 8)
  {
    SplitLow(x);
    SplitSteps(e, x & 0xFF, x & 0xFFFFFF00);
  }

  ghost predicate IsTable(e: Engine, table: seq<bv32>) {
    |table| == 256 && forall k | 0 <= k < 256 :: table[k] == Steps(e.step, Wide(k as bv8), e.width)
  }

  function LowByte(x: bv32): bv8 { (x & 0xFF) as bv8 }

  lemma LowByteRound(x: bv32)
    ensures Wide(LowByte(x)) == x & 0xFF
  {
  }

  lemma ByteRound(i: bv8)
    ensures (i as int) as bv8 == i
  {
  }

  lemma ByteAbove(state: bv32, b: bv8)
    ensures Xor(state, Wide(b)) >> 8 == state >> 8
  {
  }

  /** The table lookup of the source equals the eight bitwise steps. */
  lemma TableStep(e: Engine, table: seq<bv32>, state: bv32, b: bv8)
    requires Good(e) && IsTable(e, table)
    ensures table[LowByte(Xor(state, Wide(b))) as int] ^ (state >> 8) == ByteStep(e, state, b)
  {
    var x := Xor(state, Wide(b));
    LookupSuffices(e, x);
    ByteAbove(state, b);
    LowByteRound(x);
    ByteRound(LowByte(x));
  }

  /** `make_table`: the two nested loops. */
  method MakeTable() returns (table: array<bv32>)
    ensures fresh(table) && IsTable(CRC32C, table[..])
  {
    table := new bv32[256];
    var index := 0;
    while index < 256
      invariant 0 <= index <= 256
      invariant forall k | 0 <= k < index :: table[k] == Steps(BitStep, Wide(k as bv8), 8)
    {
      var start := Wide(index as bv8);
      var crc := start;
      var bit := 0;
      while bit < 8
        invariant 0 <= bit <= 8
        invariant Steps(BitStep, crc, 8 - bit) == Steps(BitStep, start, 8)
        invariant forall k | 0 <= k < index :: table[k] == Steps(BitStep, Wide(k as bv8), 8)
      {
        crc := if crc & 1 != 0 then (crc >> 1) ^ POLYNOMIAL else crc >> 1;
        bit := bit + 1;
      }
      table[index] := crc;
      index := index + 1;
    }
  }

  lemma UpdateStep(e: Engine, table: seq<bv32>, s: bv32, data: seq<bv8>, k: nat)
    requires Good(e) && IsTable(e, table) && k < |data|
    ensures Divide(e, table[LowByte(Xor(s, Wide(data[k]))) as int] ^ (s >> 8), data[k + 1..])
            == Divide(e, s, data[k..])
  {
    TableStep(e, table, s, data[k]);
    assert data[k..][1..] == data[k + 1..];
  }

  /** The running checksum: the state, and the table every update reads. */
  class Crc {
    var state: bv32
    const table: array<bv32>

    ghost predicate Valid()
      reads table
    {
      IsTable(CRC32C, table[..])
    }

    constructor (table: array<bv32>)
      requires IsTable(CRC32C, table[..])
      ensures Valid() && this.table == table && state == INIT
    {
      this.table := table;
      state := INIT;
    }

    method UpdateByte(b: bv8)
      requires Valid()
      modifies this`state
      ensures state == ByteStep(CRC32C, old(state), b)
    {
      EngineGood();
      TableStep(CRC32C, table[..], state, b);
      state := table[LowByte(Xor(state, Wide(b))) as int] ^ (state >> 8);
    }

    method Update(data: seq<bv8>)
      requires Valid()
      modifies this`state
      ensures state == Divide(CRC32C, old(state), data)
    {
      EngineGood();
      var s := state;
      var k := 0;
      while k < |data|
        invariant 0 <= k <= |data| && Valid()
        invariant Divide(CRC32C, s, data[k..]) == Divide(CRC32C, old(state), data)
      {
        UpdateStep(CRC32C, table[..], s, data, k);
        s := table[LowByte(Xor(s, Wide(data[k]))) as int] ^ (s >> 8);
        k := k + 1;
      }
      state := s;
    }

    method Value() returns (v: bv32)
      ensures v == Finish(state)
    {
      v := state ^ 0xFFFFFFFF;
    }
  }

  // ---------------------------------------------------------------------------------------------
  // Four bytes are divided as one word
  // ---------------------------------------------------------------------------------------------

  /** Byte `k` of a little-endian word. */
  function Placed(b: bv8, k: nat): bv32
    requires k < 4
  {
    match k
    case 0 => b as bv32
    case 1 => (b as bv32) << 8
    case 2 => (b as bv32) << 16
    case 3 => (b as bv32) << 24
  }

  /** Up to four bytes as one little-endian word. */
  function Word(w: seq<bv8>): bv32
    requires |w| <= 4
  {
    if w == [] then 0 else Xor(Word(w[..|w| - 1]), Placed(w[|w| - 1], |w| - 1))
  }

  lemma ByteShifts(b: bv8)
    ensures ((b as bv32) << 8) & 0xFF == 0 && ((b as bv32) << 8) >> 8 == b as bv32
    ensures ((b as bv32) << 16) & 0xFF == 0 && ((b as bv32) << 16) >> 8 == (b as bv32) << 8
    ensures ((b as bv32) << 24) & 0xFF == 0 && ((b as bv32) << 24) >> 8 == (b as bv32) << 16
  {
  }

  lemma PlacedShifts(b: bv8, k: nat)
    requires 0 < k < 4
    ensures Placed(b, k) & 0xFF == 0 && Placed(b, k) >> 8 == Placed(b, k - 1)
  {
    ByteShifts(b);
  }

  /** A byte lying above the bits being divided comes down unchanged. */
  lemma {:induction false} ComesDown(e: Engine, b: bv8, k: nat)
    requires Good(e) && k < 4
    ensures Steps(e.step, Placed(b, k), e.width * k) == Wide(b)
  {
    if k > 0 {
      PlacedShifts(b, k);
      HighBytesShift(e.step, Placed(b, k), e.width * k);
      assert e.width * k - 8 == e.width * (k - 1);
      ComesDown(e, b, k - 1);
    }
  }

  lemma XorAssoc(a: bv32, b: bv32, c: bv32)
    ensures Xor(Xor(a, b), c) == Xor(a, Xor(b, c))
    ensures Xor(a, 0) == a
  {
  }

  lemma DivideLast(e: Engine, state: bv32, w: seq<bv8>)
    requires w != []
    ensures Divide(e, state, w) == ByteStep(e, Divide(e, state, w[..|w| - 1]), w[|w| - 1])
  {
    var n := |w| - 1;
    assert w == w[..n] + [w[n]];
    DivideConcat(e, state, w[..n], [w[n]]);
    assert [w[n]][1..] == [];
  }

  lemma {:induction false} DivideWord(e: Engine, state: bv32, w: seq<bv8>)
    requires Good(e) && |w| <= 4
    ensures Divide(e, state, w) == Steps(e.step, Xor(state, Word(w)), e.width * |w|)
    decreases |w|
  {
    if w == [] {
      XorAssoc(state, 0, 0);
    } else {
      var k := |w| - 1;
      var x := Xor(state, Word(w[..k]));
      var high := Placed(w[k], k);
      DivideLast(e, state, w);
      DivideWord(e, state, w[..k]);
      ComesDown(e, w[k], k);
      StepsLinear(e.step, x, high, e.width * k);
      StepsCompose(e.step, Xor(x, high), e.width * k, e.width);
      XorAssoc(state, Word(w[..k]), high);
      assert e.width * k + e.width == e.width * |w|;
    }
  }

  /** `store_u32` and `load_u32`: least significant byte first. */
  function StoreWord(x: bv32): (w: seq<bv8>)
    ensures |w| == 4
  {
    [LowByte(x), LowByte(x >> 8), LowByte(x >> 16), LowByte(x >> 24)]
  }

  function LoadWord(w: seq<bv8>): bv32
    requires |w| == 4
  {
    (w[0] as bv32) | ((w[1] as bv32) << 8) | ((w[2] as bv32) << 16) | ((w[3] as bv32) << 24)
  }

  lemma OrIsXor(a: bv8, b: bv8, c: bv8, d: bv8)
    ensures (a as bv32) | ((b as bv32) << 8) | ((c as bv32) << 16) | ((d as bv32) << 24)
            == (((0 ^ (a as bv32)) ^ ((b as bv32) << 8)) ^ ((c as bv32) << 16)) ^ ((d as bv32) << 24)
  {
  }

  lemma WordOfFour(w: seq<bv8>)
    requires |w| == 4
    ensures Word(w) == Xor(Xor(Xor(Xor(0, Placed(w[0], 0)), Placed(w[1], 1)), Placed(w[2], 2)), Placed(w[3], 3))
  {
    var w3, w2, w1 := w[..3], w[..2], w[..1];
    assert w3[..2] == w2 && w2[..1] == w1 && w1[..0] == [];
    assert Word(w1) == Xor(0, Placed(w[0], 0));
    assert Word(w2) == Xor(Word(w1), Placed(w[1], 1));
    assert Word(w3) == Xor(Word(w2), Placed(w[2], 2));
  }

  lemma LoadIsWord(w: seq<bv8>)
    requires |w| == 4
    ensures LoadWord(w) == Word(w)
  {
    OrIsXor(w[0], w[1], w[2], w[3]);
    WordOfFour(w);
  }

  lemma LoadInjective(v: seq<bv8>, w: seq<bv8>)
    requires |v| == |w| == 4 && LoadWord(v) == LoadWord(w)
    ensures v == w
  {
    BytesApart(v[0], v[1], v[2], v[3], w[0], w[1], w[2], w[3]);
  }

  lemma BytesApart(a: bv8, b: bv8, c: bv8, d: bv8, a': bv8, b': bv8, c': bv8, d': bv8)
    requires (a as bv32) | ((b as bv32) << 8) | ((c as bv32) << 16) | ((d as bv32) << 24)
             == (a' as bv32) | ((b' as bv32) << 8) | ((c' as bv32) << 16) | ((d' as bv32) << 24)
    ensures a == a' && b == b' && c == c' && d == d'
  {
  }

  lemma ZeroPlaced(k: nat)
    requires k < 4
    ensures Placed(0, k) == 0
  {
  }

  lemma PadWord(w: seq<bv8>)
    requires |w| < 4
    ensures Word(w + [0]) == Word(w)
  {
    assert (w + [0])[..|w|] == w;
    ZeroPlaced(|w|);
    XorAssoc(Word(w), 0, 0);
  }

  lemma {:induction false} WordInjective(v: seq<bv8>, w: seq<bv8>)
    requires |v| == |w| <= 4 && Word(v) == Word(w)
    ensures v == w
    decreases 4 - |v|
  {
    if |v| == 4 {
      LoadIsWord(v);
      LoadIsWord(w);
      LoadInjective(v, w);
    } else {
      PadWord(v);
      PadWord(w);
      WordInjective(v + [0], w + [0]);
      assert v == (v + [0])[..|v|] && w == (w + [0])[..|w|];
    }
  }

  // ---------------------------------------------------------------------------------------------
  // Bursts
  // ---------------------------------------------------------------------------------------------

  /** The messages agree outside one window of four consecutive bytes. */
  ghost predicate DifferOnlyIn(a: seq<bv8>, b: seq<bv8>, p: nat) {
    |a| == |b| && forall i | 0 <= i < |a| && !(p <= i < p + 4) :: a[i] == b[i]
  }

  lemma SameXor(state: bv32, x: bv32, y: bv32)
    requires Xor(state, x) == Xor(state, y)
    ensures x == y
  {
    XorSwap(state, x);
    XorSwap(state, y);
    XorInjective(x, y, state);
  }

  lemma WindowWords(e: Engine, state: bv32, v: seq<bv8>, w: seq<bv8>)
    requires Good(e) && |v| == |w| <= 4 && Divide(e, state, v) == Divide(e, state, w)
    ensures Xor(state, Word(v)) == Xor(state, Word(w))
  {
    DivideWord(e, state, v);
    DivideWord(e, state, w);
    StepsInjective(e.step, Xor(state, Word(v)), Xor(state, Word(w)), e.width * |v|);
  }

  lemma WindowDivides(e: Engine, state: bv32, v: seq<bv8>, w: seq<bv8>)
    requires Good(e) && |v| == |w| <= 4 && Divide(e, state, v) == Divide(e, state, w)
    ensures v == w
  {
    WindowWords(e, state, v, w);
    SameXor(state, Word(v), Word(w));
    WordInjective(v, w);
  }

  lemma DivideThirds(e: Engine, state: bv32, a: seq<bv8>, p: nat, q: nat)
    requires p <= q <= |a|
    ensures Divide(e, state, a) == Divide(e, Divide(e, Divide(e, state, a[..p]), a[p..q]), a[q..])
  {
    assert a == a[..p] + a[p..] && a[p..] == a[p..q] + a[q..];
    DivideConcat(e, state, a[..p], a[p..]);
    DivideConcat(e, Divide(e, state, a[..p]), a[p..q], a[q..]);
  }

  lemma ThirdsAgree(a: seq<bv8>, b: seq<bv8>, p: nat, q: nat)
    requires DifferOnlyIn(a, b, p) && p <= q <= |a| && (q == |a| || q == p + 4)
    ensures a[..p] == b[..p] && (q <= p + 4 ==> a[q..] == b[q..])
    ensures q <= p + 4 && a[p..q] == b[p..q] ==> a == b
  {
    if q <= p + 4 && a[p..q] == b[p..q] {
      assert a == a[..p] + a[p..q] + a[q..] && b == b[..p] + b[p..q] + b[q..];
    }
  }

  /** From the same state, a burst of up to four bytes always changes the outcome. */
  lemma BurstChangesState(e: Engine, state: bv32, a: seq<bv8>, b: seq<bv8>, p: nat)
    requires Good(e) && DifferOnlyIn(a, b, p) && Divide(e, state, a) == Divide(e, state, b)
    ensures a == b
  {
    if p < |a| {
      var q := if p + 4 <= |a| then p + 4 else |a|;
      ThirdsAgree(a, b, p, q);
      var s := Divide(e, state, a[..p]);
      DivideThirds(e, state, a, p, q);
      DivideThirds(e, state, b, p, q);
      DivideInjective(e, Divide(e, s, a[p..q]), Divide(e, s, b[p..q]), a[q..]);
      WindowDivides(e, s, a[p..q], b[p..q]);
    }
  }

  lemma FinishInjective(x: bv32, y: bv32)
    requires Finish(x) == Finish(y)
    ensures x == y
  {
  }

  /** Messages of equal length that differ only in four consecutive bytes have different checksums. */
  lemma BurstDetected(a: seq<bv8>, b: seq<bv8>, p: nat)
    requires DifferOnlyIn(a, b, p) && a != b
    ensures Checksum(a) != Checksum(b)
  {
    EngineGood();
    if Checksum(a) == Checksum(b) {
      FinishInjective(Divide(CRC32C, INIT, a), Divide(CRC32C, INIT, b));
      BurstChangesState(CRC32C, INIT, a, b, p);
    }
  }

  // ---------------------------------------------------------------------------------------------
  // Messages that carry their own checksum
  // ---------------------------------------------------------------------------------------------

  lemma BytesOfWord(x: bv32)
    ensures (((x & 0xFF) as bv8) as bv32) | (((((x >> 8) & 0xFF) as bv8) as bv32) << 8)
            | (((((x >> 16) & 0xFF) as bv8) as bv32) << 16)
            | (((((x >> 24) & 0xFF) as bv8) as bv32) << 24) == x
  {
  }

  lemma LoadStored(x: bv32)
    ensures LoadWord(StoreWord(x)) == x
  {
    BytesOfWord(x);
  }

  /** A message followed by its own checksum. */
  predicate Sealed(m: seq<bv8>) {
    |m| >= 4 && LoadWord(m[|m| - 4..]) == Checksum(m[..|m| - 4])
  }

  function Seal(body: seq<bv8>): seq<bv8> { body + StoreWord(Checksum(body)) }

  lemma SealSeals(body: seq<bv8>)
    ensures Sealed(Seal(body)) && Seal(body)[..|body|] == body
  {
    var m := Seal(body);
    assert m[..|m| - 4] == body && m[|m| - 4..] == StoreWord(Checksum(body));
    LoadStored(Checksum(body));
  }

  lemma WordStored(w: seq<bv8>)
    requires |w| == 4
    ensures StoreWord(LoadWord(w)) == w
  {
    LoadStored(LoadWord(w));
    LoadInjective(StoreWord(LoadWord(w)), w);
  }

  lemma SealedIsSeal(m: seq<bv8>)
    requires Sealed(m)
    ensures m == Seal(m[..|m| - 4])
  {
    WordStored(m[|m| - 4..]);
    assert m == m[..|m| - 4] + m[|m| - 4..];
  }

  lemma Complement(s: bv32)
    ensures Xor(s, Finish(s)) == 0xFFFFFFFF
  {
  }

  /** Every sealed message leaves the register in the same state. */
  lemma SealedResidue(m: seq<bv8>)
    requires Sealed(m)
    ensures Divide(CRC32C, INIT, m) == Steps(CRC32C.step, 0xFFFFFFFF, CRC32C.width * 4)
  {
    EngineGood();
    var n := |m| - 4;
    var s := Divide(CRC32C, INIT, m[..n]);
    assert m == m[..n] + m[n..];
    DivideConcat(CRC32C, INIT, m[..n], m[n..]);
    DivideWord(CRC32C, s, m[n..]);
    LoadIsWord(m[n..]);
    Complement(s);
  }

  /** No burst of up to four bytes, wherever it falls, turns one sealed message into another. */
  lemma SealedBurst(m: seq<bv8>, m': seq<bv8>, p: nat)
    requires Sealed(m) && Sealed(m') && DifferOnlyIn(m, m', p)
    ensures m == m'
  {
    EngineGood();
    SealedResidue(m);
    SealedResidue(m');
    BurstChangesState(CRC32C, INIT, m, m', p);
  }

  // ---------------------------------------------------------------------------------------------
  // The start value and the standard check value
  // ---------------------------------------------------------------------------------------------

  function Inverted(b: bv8): bv8 { b ^ 0xFF }

  /** The message with its first four bytes inverted. */
  function HeadInverted(m: seq<bv8>): seq<bv8>
    requires |m| >= 4
  {
    [Inverted(m[0]), Inverted(m[1]), Inverted(m[2]), Inverted(m[3])] + m[4..]
  }

  lemma InvertedWord(a: bv8, b: bv8, c: bv8, d: bv8)
    ensures 0xFFFFFFFF ^ ((a as bv32) | ((b as bv32) << 8) | ((c as bv32) << 16) | ((d as bv32) << 24))
            == ((a ^ 0xFF) as bv32) | (((b ^ 0xFF) as bv32) << 8) | (((c ^ 0xFF) as bv32) << 16)
               | (((d ^ 0xFF) as bv32) << 24)
  {
  }

  /** The first word is inverted before a plain division, and so is the remainder: leading zeros count. */
  lemma ChecksumInvertsHead(m: seq<bv8>)
    requires |m| >= 4
    ensures Checksum(m) == Divide(CRC32C, 0, HeadInverted(m)) ^ 0xFFFFFFFF
  {
    var v, w := m[..4], [Inverted(m[0]), Inverted(m[1]), Inverted(m[2]), Inverted(m[3])];
    assert m == v + m[4..];
    DivideConcat(CRC32C, INIT, v, m[4..]);
    DivideConcat(CRC32C, 0, w, m[4..]);
    SameFirstWord(v, w);
  }

  lemma SameFirstWord(v: seq<bv8>, w: seq<bv8>)
    requires |v| == |w| == 4 && forall i | 0 <= i < 4 :: w[i] == Inverted(v[i])
    ensures Divide(CRC32C, INIT, v) == Divide(CRC32C, 0, w)
  {
    EngineGood();
    DivideWord(CRC32C, INIT, v);
    DivideWord(CRC32C, 0, w);
    LoadIsWord(v);
    LoadIsWord(w);
    InvertedWord(v[0], v[1], v[2], v[3]);
    XorZero(LoadWord(w));
  }

  lemma XorZero(x: bv32)
    ensures Xor(0, x) == x
  {
  }

  lemma EmptyChecksum()
    ensures Checksum([]) == 0
  {
  }

  function Eight(c: bv32): bv32 {
    BitStep(BitStep(BitStep(BitStep(BitStep(BitStep(BitStep(BitStep(c))))))))
  }

  lemma ByteIsEight(state: bv32, b: bv8)
    ensures ByteStep(CRC32C, state, b) == Eight(state ^ (b as bv32))
  {
    var c := state ^ (b as bv32);
    StepsCompose(BitStep, c, 4, 4);
  }

  lemma DivideThree(e: Engine, s: bv32, a: bv8, b: bv8, c: bv8)
    ensures Divide(e, s, [a, b, c]) == ByteStep(e, ByteStep(e, ByteStep(e, s, a), b), c)
  {
    assert [a, b, c][1..] == [b, c] && [b, c][1..] == [c] && [c][1..] == [];
    var x := ByteStep(e, s, a);
    var y := ByteStep(e, x, b);
    assert Divide(e, x, [b, c]) == Divide(e, y, [c]);
    assert Divide(e, y, [c]) == Divide(e, ByteStep(e, y, c), []);
  }

  lemma CheckByte(s: bv32, b: bv8, s': bv32)
    requires Eight(s ^ (b as bv32)) == s'
    ensures ByteStep(CRC32C, s, b) == s'
  {
    ByteIsEight(s, b);
  }

  lemma CheckHead()
    ensures Divide(CRC32C, 0xFFFFFFFF, [0x31, 0x32, 0x33]) == 0xEF84D04D
  {
    DivideThree(CRC32C, 0xFFFFFFFF, 0x31, 0x32, 0x33);
    CheckByte(0xFFFFFFFF, 0x31, 0x6F0A661C);
    CheckByte(0x6F0A661C, 0x32, 0x8CAA3B9F);
    CheckByte(0x8CAA3B9F, 0x33, 0xEF84D04D);
  }

  lemma CheckMiddle()
    ensures Divide(CRC32C, 0xEF84D04D, [0x34, 0x35, 0x36]) == 0xBECA8E79
  {
    DivideThree(CRC32C, 0xEF84D04D, 0x34, 0x35, 0x36);
    CheckByte(0xEF84D04D, 0x34, 0x09C50B11);
    CheckByte(0x09C50B11, 0x35, 0xE72EDCCA);
    CheckByte(0xE72EDCCA, 0x36, 0xBECA8E79);
  }

  lemma CheckTail()
    ensures Divide(CRC32C, 0xBECA8E79, [0x37, 0x38, 0x39]) == 0x1CF96D7C
  {
    DivideThree(CRC32C, 0xBECA8E79, 0x37, 0x38, 0x39);
    CheckByte(0xBECA8E79, 0x37, 0xEDBD6815);
    CheckByte(0xEDBD6815, 0x38, 0x9F787F65);
    CheckByte(0x9F787F65, 0x39, 0x1CF96D7C);
  }

  lemma DivideInThree(state: bv32, a: seq<bv8>, b: seq<bv8>, c: seq<bv8>)
    ensures Divide(CRC32C, state, a + b + c) ==
            Divide(CRC32C, Divide(CRC32C, Divide(CRC32C, state, a), b), c)
  {
    DivideConcat(CRC32C, state, a + b, c);
    DivideConcat(CRC32C, state, a, b);
  }

  /** The check value of the standard: the digits one to nine. */
  lemma CheckValue()
    ensures Checksum([0x31, 0x32, 0x33] + [0x34, 0x35, 0x36] + [0x37, 0x38, 0x39]) == 0xE3069283
  {
    CheckHead();
    CheckMiddle();
    CheckTail();
    DivideInThree(INIT, [0x31, 0x32, 0x33], [0x34, 0x35, 0x36], [0x37, 0x38, 0x39]);
  }
}
