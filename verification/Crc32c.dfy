/** CRC32C (util/crc32c.h, util/crc32c.cc; section 12.1 of RFC 3720): the bit by bit
    definition, the byte and word tables, and the fast loop.

    Reasoning about words is kept apart from reasoning about bits: lemmas that
    combine laws hide the bit operations. */
module Crc32c {

  /** The Castagnoli polynomial 0x11EDC6F41 without its top bit, reflected. */
  const POLY: bv32 := 0x82f63b78
  const ONES: bv32 := 0xffffffff

  function Xor(a: bv32, b: bv32): bv32 {
    a ^ b
  }

  function Widen(b: bv8): bv32 {
    b as bv32
  }

  // ----- the definition, one bit at a time

  function Fold(bit: bv32): bv32 {
    if bit == 1 then POLY else 0
  }

  function Step(l: bv32): bv32 {
    (l >> 1) ^ Fold(l & 1)
  }

  function StepN(l: bv32, n: nat): bv32
    decreases n
  {
    if n == 0 then l else Step(StepN(l, n - 1))
  }

  function Feed(l: bv32, b: bv8): bv32 {
    StepN(Xor(l, Widen(b)), 8)
  }

  function Update(l: bv32, data: seq<bv8>): bv32
    decreases |data|
  {
    if data == [] then l else Update(Feed(l, data[0]), data[1..])
  }

  function Extend(crc: bv32, data: seq<bv8>): bv32 {
    Xor(Update(Xor(crc, ONES), data), ONES)
  }

  function Value(data: seq<bv8>): bv32 {
    Extend(0, data)
  }

  lemma {:induction false} UpdateAppend(l: bv32, a: seq<bv8>, b: seq<bv8>)
    ensures Update(l, a + b) == Update(Update(l, a), b)
    decreases |a|
  {
    hide Feed;
    if a == [] {
      assert a + b == b;
    } else {
      assert (a + b)[1..] == a[1..] + b;
      UpdateAppend(Feed(l, a[0]), a[1..], b);
    }
  }

  lemma DoubleXor(x: bv32)
    ensures Xor(Xor(x, ONES), ONES) == x
  {
  }

  /** A checksum can be computed piece by piece. */
  lemma ExtendAppend(crc: bv32, a: seq<bv8>, b: seq<bv8>)
    ensures Extend(Extend(crc, a), b) == Extend(crc, a + b)
  {
    hide Xor, Feed;
    UpdateAppend(Xor(crc, ONES), a, b);
    DoubleXor(Update(Xor(crc, ONES), a));
  }

  // ----- linearity

  lemma ShiftXor(a: bv32, b: bv32)
    ensures (a ^ b) >> 1 == (a >> 1) ^ (b >> 1)
  {
  }

  lemma LowXor(a: bv32, b: bv32)
    ensures (a ^ b) & 1 == (a & 1) ^ (b & 1)
  {
  }

  lemma LowBit(a: bv32)
    ensures a & 1 == 0 || a & 1 == 1
  {
  }

  lemma FoldXor(a: bv32, b: bv32)
    requires (a == 0 || a == 1) && (b == 0 || b == 1)
    ensures Fold(a ^ b) == Fold(a) ^ Fold(b)
  {
  }

  lemma SwapXor(a: bv32, b: bv32, c: bv32, d: bv32)
    ensures (a ^ b) ^ (c ^ d) == (a ^ c) ^ (b ^ d)
  {
  }

  lemma StepXor(a: bv32, b: bv32)
    ensures Step(Xor(a, b)) == Xor(Step(a), Step(b))
  {
    hide Step;
    StepRaw(a, b);
  }

  lemma StepRaw(a: bv32, b: bv32)
    ensures Step(a ^ b) == Step(a) ^ Step(b)
  {
    ShiftXor(a, b);
    LowXor(a, b);
    LowBit(a);
    LowBit(b);
    FoldXor(a & 1, b & 1);
    SwapXor(a >> 1, b >> 1, Fold(a & 1), Fold(b & 1));
  }

  lemma {:induction false} StepNXor(a: bv32, b: bv32, n: nat)
    ensures StepN(Xor(a, b), n) == Xor(StepN(a, n), StepN(b, n))
    decreases n
  {
    hide Xor, Step;
    if n > 0 {
      StepNXor(a, b, n - 1);
      StepXor(StepN(a, n - 1), StepN(b, n - 1));
    }
  }

  lemma {:induction false} StepNAdd(l: bv32, m: nat, n: nat)
    ensures StepN(StepN(l, m), n) == StepN(l, m + n)
    decreases n
  {
    hide Step;
    if n > 0 {
      StepNAdd(l, m, n - 1);
    }
  }

  // ----- zero bits are shifted out

  function Up(x: bv32): bv32 {
    x << 8
  }

  predicate Fits(x: bv32) {
    x >> 24 == 0
  }

  lemma StepEven(x: bv32)
    requires x & 1 == 0
    ensures Step(x) == x >> 1
  {
    assert (x >> 1) ^ 0 == x >> 1;
  }

  lemma Shift8(x: bv32)
    requires Fits(x)
    ensures Step(x << 8) == x << 7
  {
    StepEven(x << 8);
  }

  lemma Shift7(x: bv32)
    requires Fits(x)
    ensures Step(x << 7) == x << 6
  {
    StepEven(x << 7);
  }

  lemma Shift6(x: bv32)
    requires Fits(x)
    ensures Step(x << 6) == x << 5
  {
    StepEven(x << 6);
  }

  lemma Shift5(x: bv32)
    requires Fits(x)
    ensures Step(x << 5) == x << 4
  {
    StepEven(x << 5);
  }

  lemma Shift4(x: bv32)
    requires Fits(x)
    ensures Step(x << 4) == x << 3
  {
    StepEven(x << 4);
  }

  lemma Shift3(x: bv32)
    requires Fits(x)
    ensures Step(x << 3) == x << 2
  {
    StepEven(x << 3);
  }

  lemma Shift2(x: bv32)
    requires Fits(x)
    ensures Step(x << 2) == x << 1
  {
    StepEven(x << 2);
  }

  lemma Shift1(x: bv32)
    requires Fits(x)
    ensures Step(x << 1) == x
  {
    StepEven(x << 1);
  }

  lemma EightSteps(x0: bv32, x1: bv32, x2: bv32, x3: bv32, x4: bv32, x5: bv32, x6: bv32, x7: bv32, x8: bv32)
    requires Step(x0) == x1 && Step(x1) == x2 && Step(x2) == x3 && Step(x3) == x4
    requires Step(x4) == x5 && Step(x5) == x6 && Step(x6) == x7 && Step(x7) == x8
    ensures StepN(x0, 8) == x8
  {
    hide Step;
    assert StepN(x0, 1) == x1 && StepN(x0, 2) == x2 && StepN(x0, 3) == x3 && StepN(x0, 4) == x4;
    assert StepN(x0, 5) == x5 && StepN(x0, 6) == x6 && StepN(x0, 7) == x7;
  }

  /** Eight steps undo a shift by one byte. */
  lemma StepShifted(x: bv32)
    requires Fits(x)
    ensures StepN(Up(x), 8) == x
  {
    hide Step;
    Shift8(x);
    Shift7(x);
    Shift6(x);
    Shift5(x);
    Shift4(x);
    Shift3(x);
    Shift2(x);
    Shift1(x);
    EightSteps(x << 8, x << 7, x << 6, x << 5, x << 4, x << 3, x << 2, x << 1, x);
  }

  // ----- the tables

  /** table0_ to table3_, by their recurrence. */
  function Table(k: nat, i: bv32): bv32
    decreases k
  {
    if k == 0 then Table0(i) else NextTable(Table(k - 1, i))
  }

  function Table0(i: bv32): bv32 {
    StepN(i, 8)
  }

  function Low(l: bv32): bv32 {
    l & 0xff
  }

  function High(l: bv32): bv32 {
    l >> 8
  }

  function NextTable(t: bv32): bv32 {
    Xor(Table0(Low(t)), High(t))
  }

  lemma StepsOfPowers()
    ensures Step(0x00000080) == 0x00000040
    ensures Step(0x00000040) == 0x00000020
    ensures Step(0x00000020) == 0x00000010
    ensures Step(0x00000010) == 0x00000008
    ensures Step(0x00000008) == 0x00000004
    ensures Step(0x00000004) == 0x00000002
    ensures Step(0x00000002) == 0x00000001
    ensures Step(0x00000001) == 0x82f63b78
    ensures Step(0x82f63b78) == 0x417b1dbc
    ensures Step(0x417b1dbc) == 0x20bd8ede
    ensures Step(0x20bd8ede) == 0x105ec76f
    ensures Step(0x105ec76f) == 0x8ad958cf
    ensures Step(0x8ad958cf) == 0xc79a971f
    ensures Step(0xc79a971f) == 0xe13b70f7
    ensures Step(0xe13b70f7) == 0xf26b8303
  {
  }

  /** The entries of table0_ at the powers of two are the listed constants; by
      linearity they fix all the others. */
  lemma TableBasis()
    ensures Table0(0x00000001) == 0xf26b8303
    ensures Table0(0x00000002) == 0xe13b70f7
    ensures Table0(0x00000004) == 0xc79a971f
    ensures Table0(0x00000008) == 0x8ad958cf
    ensures Table0(0x00000010) == 0x105ec76f
    ensures Table0(0x00000020) == 0x20bd8ede
    ensures Table0(0x00000040) == 0x417b1dbc
    ensures Table0(0x00000080) == 0x82f63b78
  {
    hide Step;
    StepsOfPowers();
    EightSteps(0x00000001, 0x82f63b78, 0x417b1dbc, 0x20bd8ede, 0x105ec76f, 0x8ad958cf, 0xc79a971f, 0xe13b70f7,
               0xf26b8303);
    EightSteps(0x00000002, 0x00000001, 0x82f63b78, 0x417b1dbc, 0x20bd8ede, 0x105ec76f, 0x8ad958cf, 0xc79a971f,
               0xe13b70f7);
    EightSteps(0x00000004, 0x00000002, 0x00000001, 0x82f63b78, 0x417b1dbc, 0x20bd8ede, 0x105ec76f, 0x8ad958cf,
               0xc79a971f);
    EightSteps(0x00000008, 0x00000004, 0x00000002, 0x00000001, 0x82f63b78, 0x417b1dbc, 0x20bd8ede, 0x105ec76f,
               0x8ad958cf);
    EightSteps(0x00000010, 0x00000008, 0x00000004, 0x00000002, 0x00000001, 0x82f63b78, 0x417b1dbc, 0x20bd8ede,
               0x105ec76f);
    EightSteps(0x00000020, 0x00000010, 0x00000008, 0x00000004, 0x00000002, 0x00000001, 0x82f63b78, 0x417b1dbc,
               0x20bd8ede);
    EightSteps(0x00000040, 0x00000020, 0x00000010, 0x00000008, 0x00000004, 0x00000002, 0x00000001, 0x82f63b78,
               0x417b1dbc);
    EightSteps(0x00000080, 0x00000040, 0x00000020, 0x00000010, 0x00000008, 0x00000004, 0x00000002, 0x00000001,
               0x82f63b78);
  }

  lemma SplitByte(l: bv32)
    ensures l == Xor(Low(l), Up(High(l))) && Fits(High(l))
  {
  }

  /** A table step is eight bit steps. */
  lemma TableStep(l: bv32)
    ensures NextTable(l) == StepN(l, 8)
  {
    hide Xor, Step, Low, High, Up;
    SplitByte(l);
    StepNXor(Low(l), Up(High(l)), 8);
    StepShifted(High(l));
  }

  lemma {:induction false} TableIs(k: nat, i: bv32)
    ensures Table(k, i) == StepN(i, 8 * (k + 1))
  {
    hide Xor, Step, Low, High;
    if k > 0 {
      TableIs(k - 1, i);
      TableStep(Table(k - 1, i));
      StepNAdd(i, 8 * k, 8);
    }
  }

  // ----- one byte and four bytes at a time

  /** STEP1. */
  function ByteStep(l: bv32, b: bv8): bv32 {
    Xor(Table0(Xor(Low(l), Widen(b))), High(l))
  }

  function LoadWord(b0: bv8, b1: bv8, b2: bv8, b3: bv8): bv32 {
    (b0 as bv32) | ((b1 as bv32) << 8) | ((b2 as bv32) << 16) | ((b3 as bv32) << 24)
  }

  /** STEP4. */
  function WordStep(l: bv32, b0: bv8, b1: bv8, b2: bv8, b3: bv8): bv32 {
    var c := Xor(l, LoadWord(b0, b1, b2, b3));
    Xor(Xor(Xor(Table(3, Low(c)), Table(2, Low(High(c)))), Table(1, Low(High(High(c))))), Table(0, High(High(High(c)))))
  }

  lemma ByteParts(l: bv32, b: bv8)
    ensures Low(Xor(l, Widen(b))) == Xor(Low(l), Widen(b)) && High(Xor(l, Widen(b))) == High(l)
  {
  }

  lemma ByteStepIs(l: bv32, b: bv8)
    ensures ByteStep(l, b) == Feed(l, b)
  {
    hide Xor, Step, Low, High, Widen;
    ByteParts(l, b);
    TableStep(Xor(l, Widen(b)));
  }

  lemma XorAssoc(a: bv32, b: bv32, c: bv32)
    ensures Xor(Xor(a, b), c) == Xor(a, Xor(b, c))
  {
  }

  lemma WordParts(b0: bv8, b1: bv8, b2: bv8, b3: bv8)
    ensures var r2 := Xor(Widen(b2), Up(Widen(b3)));
            var r1 := Xor(Widen(b1), Up(r2));
            && Fits(Widen(b3)) && Fits(r2) && Fits(r1)
            && LoadWord(b0, b1, b2, b3) == Xor(Widen(b0), Up(r1))
  {
  }

  /** Feeding a byte leaves what stood above it one byte lower. */
  lemma FeedUnder(l: bv32, b: bv8, r: bv32)
    requires Fits(r)
    ensures StepN(Xor(l, Xor(Widen(b), Up(r))), 8) == Xor(Feed(l, b), r)
  {
    hide Xor, Step, Widen, Up;
    XorAssoc(l, Widen(b), Up(r));
    StepNXor(Xor(l, Widen(b)), Up(r), 8);
    StepShifted(r);
  }

  lemma FourFeeds(l: bv32, b0: bv8, b1: bv8, b2: bv8, b3: bv8)
    ensures Feed(Feed(Feed(Feed(l, b0), b1), b2), b3) == StepN(Xor(l, LoadWord(b0, b1, b2, b3)), 32)
  {
    hide Xor, Step, Widen, Up, LoadWord, Fits;
    var r2 := Xor(Widen(b2), Up(Widen(b3)));
    var r1 := Xor(Widen(b1), Up(r2));
    var x := Xor(l, Xor(Widen(b0), Up(r1)));
    WordParts(b0, b1, b2, b3);
    FeedUnder(l, b0, r1);
    FeedUnder(Feed(l, b0), b1, r2);
    FeedUnder(Feed(Feed(l, b0), b1), b2, Widen(b3));
    StepNAdd(x, 8, 8);
    StepNAdd(x, 16, 8);
    StepNAdd(x, 24, 8);
  }

  lemma Peel(c: bv32, n: nat)
    ensures StepN(c, n + 8) == Xor(StepN(Low(c), n + 8), StepN(High(c), n))
  {
    hide Xor, Step, StepN, Low, High, Up, Fits;
    SplitByte(c);
    StepNXor(Low(c), Up(High(c)), n + 8);
    StepNAdd(Up(High(c)), 8, n);
    StepShifted(High(c));
  }

  lemma FourTables(c: bv32)
    ensures Xor(Xor(Xor(Table(3, Low(c)), Table(2, Low(High(c)))), Table(1, Low(High(High(c))))),
                Table(0, High(High(High(c)))))
            == StepN(c, 32)
  {
    hide Xor, Step, Low, High;
    var d1 := High(c);
    var d2 := High(d1);
    var t3, t2, t1, t0 := Table(3, Low(c)), Table(2, Low(d1)), Table(1, Low(d2)), Table(0, High(d2));
    TableIs(3, Low(c));
    TableIs(2, Low(d1));
    TableIs(1, Low(d2));
    TableIs(0, High(d2));
    Peel(c, 24);
    Peel(d1, 16);
    Peel(d2, 8);
    XorAssoc(Xor(t3, t2), t1, t0);
    XorAssoc(t3, t2, Xor(t1, t0));
  }

  /** Four bytes through the word tables are four bytes one after the other. */
  lemma WordStepIs(l: bv32, b0: bv8, b1: bv8, b2: bv8, b3: bv8)
    ensures WordStep(l, b0, b1, b2, b3) == Feed(Feed(Feed(Feed(l, b0), b1), b2), b3)
  {
    hide Xor, Step, Low, High, LoadWord;
    FourFeeds(l, b0, b1, b2, b3);
    FourTables(Xor(l, LoadWord(b0, b1, b2, b3)));
  }

  lemma UpdateOne(l: bv32, data: seq<bv8>, p: nat)
    requires p < |data|
    ensures Update(l, data[..p + 1]) == ByteStep(Update(l, data[..p]), data[p])
  {
    hide Feed, ByteStep;
    assert data[..p + 1] == data[..p] + [data[p]];
    var u := Update(l, data[..p]);
    UpdateAppend(l, data[..p], [data[p]]);
    assert [data[p]][1..] == [];
    assert Update(Feed(u, data[p]), []) == Feed(u, data[p]);
    ByteStepIs(u, data[p]);
  }

  lemma UpdateFour(l: bv32, data: seq<bv8>, p: nat)
    requires p + 4 <= |data|
    ensures Update(l, data[..p + 4]) == WordStep(Update(l, data[..p]), data[p], data[p + 1], data[p + 2], data[p + 3])
  {
    hide Feed, ByteStep, WordStep, Update;
    var u := Update(l, data[..p]);
    var u1 := Feed(u, data[p]);
    var u2 := Feed(u1, data[p + 1]);
    UpdateOne(l, data, p);
    ByteStepIs(u, data[p]);
    UpdateOne(l, data, p + 1);
    ByteStepIs(u1, data[p + 1]);
    UpdateOne(l, data, p + 2);
    ByteStepIs(u2, data[p + 2]);
    UpdateOne(l, data, p + 3);
    ByteStepIs(Feed(u2, data[p + 2]), data[p + 3]);
    WordStepIs(u, data[p], data[p + 1], data[p + 2], data[p + 3]);
  }

  /** Extend as it is computed: bytes up to the first aligned address, then sixteen
      and four bytes at a time, then the rest. */
  method ExtendFast(crc: bv32, data: seq<bv8>, address: nat) returns (r: bv32)
    ensures r == Extend(crc, data)
  {
    hide Update, ByteStep, WordStep, Xor;
    ghost var l0 := Xor(crc, ONES);
    var l, p := Xor(crc, ONES), 0;
    UpdateNone(l0, data);
    var x := (address + 3) / 4 * 4 - address;
    if x <= |data| {
      while p != x
        invariant 0 <= p <= x && l == Update(l0, data[..p])
        decreases x - p
      {
        UpdateOne(l0, data, p);
        l, p := ByteStep(l, data[p]), p + 1;
      }
    }
    while |data| - p >= 16
      invariant 0 <= p <= |data| && l == Update(l0, data[..p])
    {
      UpdateFour(l0, data, p);
      l := WordStep(l, data[p], data[p + 1], data[p + 2], data[p + 3]);
      UpdateFour(l0, data, p + 4);
      l := WordStep(l, data[p + 4], data[p + 5], data[p + 6], data[p + 7]);
      UpdateFour(l0, data, p + 8);
      l := WordStep(l, data[p + 8], data[p + 9], data[p + 10], data[p + 11]);
      UpdateFour(l0, data, p + 12);
      l := WordStep(l, data[p + 12], data[p + 13], data[p + 14], data[p + 15]);
      p := p + 16;
    }
    while |data| - p >= 4
      invariant 0 <= p <= |data| && l == Update(l0, data[..p])
    {
      UpdateFour(l0, data, p);
      l, p := WordStep(l, data[p], data[p + 1], data[p + 2], data[p + 3]), p + 4;
    }
    while p != |data|
      invariant 0 <= p <= |data| && l == Update(l0, data[..p])
      decreases |data| - p
    {
      UpdateOne(l0, data, p);
      l, p := ByteStep(l, data[p]), p + 1;
    }
    assert data[..p] == data;
    r := Xor(l, ONES);
  }

  lemma UpdateNone(l: bv32, data: seq<bv8>)
    ensures Update(l, data[..0]) == l
  {
  }

  // ----- masking

  const MASK_DELTA: bv32 := 0xa282ead8

  function Mask(crc: bv32): bv32 {
    ((crc >> 15) | (crc << 17)) + MASK_DELTA
  }

  function Unmask(masked: bv32): bv32 {
    var rot := masked - MASK_DELTA;
    (rot >> 17) | (rot << 15)
  }

  lemma AddThenSubtract(x: bv32)
    ensures (x + MASK_DELTA) - MASK_DELTA == x
  {
  }

  lemma RotateBack(c: bv32)
    ensures (((c >> 15) | (c << 17)) >> 17) | (((c >> 15) | (c << 17)) << 15) == c
  {
  }

  lemma UnmaskMask(crc: bv32)
    ensures Unmask(Mask(crc)) == crc
  {
    AddThenSubtract((crc >> 15) | (crc << 17));
    RotateBack(crc);
  }

  lemma MaskUnmask(masked: bv32)
    ensures Mask(Unmask(masked)) == masked
  {
  }
}
