/** Known answers: checksums and encodings that the standard, the documentation and the
    tests of the formats list.  They fix the constants that no round trip can see. */
module KnownChecksums {
  import opened Crc32c

  /** Four steps of the reflected polynomial written out. */
  function FourBits(l0: bv32): bv32 {
    var l1 := (l0 >> 1) ^ (if l0 & 1 == 1 then 0x82f63b78 else 0);
    var l2 := (l1 >> 1) ^ (if l1 & 1 == 1 then 0x82f63b78 else 0);
    var l3 := (l2 >> 1) ^ (if l2 & 1 == 1 then 0x82f63b78 else 0);
    (l3 >> 1) ^ (if l3 & 1 == 1 then 0x82f63b78 else 0)
  }

  lemma FourBitsIs(l: bv32)
    ensures Step(Step(Step(Step(l)))) == FourBits(l)
  {
  }

  function EightBits(l: bv32): bv32 {
    FourBits(FourBits(l))
  }

  lemma EightBitsIs(l0: bv32)
    ensures StepN(l0, 8) == EightBits(l0)
  {
    hide Step, FourBits;
    var l1 := Step(l0);
    var l2 := Step(l1);
    var l3 := Step(l2);
    var l4 := Step(l3);
    var l5 := Step(l4);
    var l6 := Step(l5);
    var l7 := Step(l6);
    FourBitsIs(l0);
    FourBitsIs(l4);
    EightSteps(l0, l1, l2, l3, l4, l5, l6, l7, Step(l7));
  }

  lemma FeedIs(l: bv32, b: bv8, r: bv32)
    requires EightBits(Xor(l, Widen(b))) == r
    ensures Feed(l, b) == r
  {
    hide Step, Xor, Widen;
    EightBitsIs(Xor(l, Widen(b)));
  }

  function Repeated(b: bv8, n: nat): (r: seq<bv8>)
    ensures |r| == n && forall i :: 0 <= i < n ==> r[i] == b
  {
    if n == 0 then [] else [b] + Repeated(b, n - 1)
  }

  lemma {:induction false} RepeatedAppend(b: bv8, m: nat, n: nat)
    ensures Repeated(b, m) + Repeated(b, n) == Repeated(b, m + n)
  {
  }

  lemma EightBytes(b: bv8, x0: bv32, x1: bv32, x2: bv32, x3: bv32, x4: bv32, x5: bv32, x6: bv32, x7: bv32, x8: bv32)
    requires Feed(x0, b) == x1 && Feed(x1, b) == x2 && Feed(x2, b) == x3 && Feed(x3, b) == x4
    requires Feed(x4, b) == x5 && Feed(x5, b) == x6 && Feed(x6, b) == x7 && Feed(x7, b) == x8
    ensures Update(x0, Repeated(b, 8)) == x8
  {
    hide Feed;
    assert Update(x8, Repeated(b, 0)) == x8;
    OneByte(x7, b, 0);
    OneByte(x6, b, 1);
    OneByte(x5, b, 2);
    OneByte(x4, b, 3);
    OneByte(x3, b, 4);
    OneByte(x2, b, 5);
    OneByte(x1, b, 6);
    OneByte(x0, b, 7);
  }

  lemma OneByte(l: bv32, b: bv8, n: nat)
    ensures Update(l, Repeated(b, n + 1)) == Update(Feed(l, b), Repeated(b, n))
  {
    hide Feed;
    assert Repeated(b, n + 1)[0] == b && Repeated(b, n + 1)[1..] == Repeated(b, n);
  }

  lemma FourParts(b: bv8, x0: bv32, x1: bv32, x2: bv32, x3: bv32, x4: bv32)
    requires Update(x0, Repeated(b, 8)) == x1 && Update(x1, Repeated(b, 8)) == x2
    requires Update(x2, Repeated(b, 8)) == x3 && Update(x3, Repeated(b, 8)) == x4
    ensures Update(x0, Repeated(b, 32)) == x4
  {
    hide Feed, Update, Repeated;
    RepeatedAppend(b, 8, 8);
    RepeatedAppend(b, 16, 8);
    RepeatedAppend(b, 24, 8);
    UpdateAppend(x0, Repeated(b, 8), Repeated(b, 8));
    UpdateAppend(x0, Repeated(b, 16), Repeated(b, 8));
    UpdateAppend(x0, Repeated(b, 24), Repeated(b, 8));
  }

  lemma Zeros1()
    ensures Update(0xffffffff, Repeated(0x00, 8)) == 0x73d74d75
  {
    hide Feed, Update, Repeated;
    FeedIs(0xffffffff, 0x00, 0xad82acae);
    FeedIs(0xad82acae, 0x00, 0x0e9e882d);
    FeedIs(0x0e9e882d, 0x00, 0x9f9b5c85);
    FeedIs(0x9f9b5c85, 0x00, 0xb798b438);
    FeedIs(0xb798b438, 0x00, 0xba8d89ca);
    FeedIs(0xba8d89ca, 0x00, 0xa8d58375);
    FeedIs(0xa8d58375, 0x00, 0x44c19592);
    FeedIs(0x44c19592, 0x00, 0x73d74d75);
    EightBytes(0x00, 0xffffffff, 0xad82acae, 0x0e9e882d, 0x9f9b5c85, 0xb798b438,
               0xba8d89ca, 0xa8d58375, 0x44c19592, 0x73d74d75);
  }

  lemma Zeros2()
    ensures Update(0x73d74d75, Repeated(0x00, 8)) == 0xbd8f6515
  {
    hide Feed, Update, Repeated;
    FeedIs(0x73d74d75, 0x00, 0x441a975c);
    FeedIs(0x441a975c, 0x00, 0x1c220f94);
    FeedIs(0x1c220f94, 0x00, 0x552e4907);
    FeedIs(0x552e4907, 0x00, 0xd49f4aa2);
    FeedIs(0xd49f4aa2, 0x00, 0x43a45a1b);
    FeedIs(0x43a45a1b, 0x00, 0x8994c80e);
    FeedIs(0x8994c80e, 0x00, 0xacf12bef);
    FeedIs(0xacf12bef, 0x00, 0xbd8f6515);
    EightBytes(0x00, 0x73d74d75, 0x441a975c, 0x1c220f94, 0x552e4907, 0xd49f4aa2,
               0x43a45a1b, 0x8994c80e, 0xacf12bef, 0xbd8f6515);
  }

  lemma Zeros3()
    ensures Update(0xbd8f6515, Repeated(0x00, 8)) == 0x7b041311
  {
    hide Feed, Update, Repeated;
    FeedIs(0xbd8f6515, 0x00, 0x25125c16);
    FeedIs(0x25125c16, 0x00, 0x36da32db);
    FeedIs(0x36da32db, 0x00, 0x4a6c90a2);
    FeedIs(0x4a6c90a2, 0x00, 0x433aa9c1);
    FeedIs(0x433aa9c1, 0x00, 0x31a59f6e);
    FeedIs(0x31a59f6e, 0x00, 0xcd8f89da);
    FeedIs(0xcd8f89da, 0x00, 0xb8fc461a);
    FeedIs(0xb8fc461a, 0x00, 0x7b041311);
    EightBytes(0x00, 0xbd8f6515, 0x25125c16, 0x36da32db, 0x4a6c90a2, 0x433aa9c1,
               0x31a59f6e, 0xcd8f89da, 0xb8fc461a, 0x7b041311);
  }

  lemma Zeros4()
    ensures Update(0x7b041311, Repeated(0x00, 8)) == 0x756ec955
  {
    hide Feed, Update, Repeated;
    FeedIs(0x7b041311, 0x00, 0xe24e407f);
    FeedIs(0xe24e407f, 0x00, 0x2f692669);
    FeedIs(0x2f692669, 0x00, 0x195b2188);
    FeedIs(0x195b2188, 0x00, 0x08363896);
    FeedIs(0x08363896, 0x00, 0xb4012dc7);
    FeedIs(0xb4012dc7, 0x00, 0x17f34302);
    FeedIs(0x17f34302, 0x00, 0xe12c83b4);
    FeedIs(0xe12c83b4, 0x00, 0x756ec955);
    EightBytes(0x00, 0x7b041311, 0xe24e407f, 0x2f692669, 0x195b2188, 0x08363896,
               0xb4012dc7, 0x17f34302, 0xe12c83b4, 0x756ec955);
  }

  /** Section B.4 of RFC 3720: the checksum of 32 bytes 0x00. */
  lemma ValueOfZeros()
    ensures Value(Repeated(0x00, 32)) == 0x8a9136aa
  {
    hide Step, Feed, Update, Repeated;
    Zeros1();
    Zeros2();
    Zeros3();
    Zeros4();
    FourParts(0x00, 0xffffffff, 0x73d74d75, 0xbd8f6515, 0x7b041311, 0x756ec955);
  }

  lemma Ones1()
    ensures Update(0xffffffff, Repeated(0xff, 8)) == 0xb798b438
  {
    hide Feed, Update, Repeated;
    FeedIs(0xffffffff, 0xff, 0x00ffffff);
    FeedIs(0x00ffffff, 0xff, 0x0000ffff);
    FeedIs(0x0000ffff, 0xff, 0x000000ff);
    FeedIs(0x000000ff, 0xff, 0x00000000);
    FeedIs(0x00000000, 0xff, 0xad7d5351);
    FeedIs(0xad7d5351, 0xff, 0x0e9e77d2);
    FeedIs(0x0e9e77d2, 0xff, 0x9f9b5c7a);
    FeedIs(0x9f9b5c7a, 0xff, 0xb798b438);
    EightBytes(0xff, 0xffffffff, 0x00ffffff, 0x0000ffff, 0x000000ff, 0x00000000,
               0xad7d5351, 0x0e9e77d2, 0x9f9b5c7a, 0xb798b438);
  }

  lemma Ones2()
    ensures Update(0xb798b438, Repeated(0xff, 8)) == 0x10d0b3ef
  {
    hide Feed, Update, Repeated;
    FeedIs(0xb798b438, 0xff, 0x17f0da9b);
    FeedIs(0x17f0da9b, 0xff, 0xa64bf4a7);
    FeedIs(0xa64bf4a7, 0xff, 0xdb5ac9e8);
    FeedIs(0xdb5ac9e8, 0xff, 0xc44ff94d);
    FeedIs(0xc44ff94d, 0xff, 0x53ea4dc7);
    FeedIs(0x53ea4dc7, 0xff, 0xba69fb33);
    FeedIs(0xba69fb33, 0xff, 0x8e7480ef);
    FeedIs(0x8e7480ef, 0xff, 0x10d0b3ef);
    EightBytes(0xff, 0xb798b438, 0x17f0da9b, 0xa64bf4a7, 0xdb5ac9e8, 0xc44ff94d,
               0x53ea4dc7, 0xba69fb33, 0x8e7480ef, 0x10d0b3ef);
  }

  lemma Ones3()
    ensures Update(0x10d0b3ef, Repeated(0xff, 8)) == 0xee657f3b
  {
    hide Feed, Update, Repeated;
    FeedIs(0x10d0b3ef, 0xff, 0x104e17dc);
    FeedIs(0x104e17dc, 0xff, 0x33fd333d);
    FeedIs(0x33fd333d, 0xff, 0x2285ab00);
    FeedIs(0x2285ab00, 0xff, 0xad5fd6fa);
    FeedIs(0xad5fd6fa, 0xff, 0x355c4bca);
    FeedIs(0x355c4bca, 0xff, 0x052701e6);
    FeedIs(0x052701e6, 0xff, 0x68e93ba2);
    FeedIs(0x68e93ba2, 0xff, 0xee657f3b);
    EightBytes(0xff, 0x10d0b3ef, 0x104e17dc, 0x33fd333d, 0x2285ab00, 0xad5fd6fa,
               0x355c4bca, 0x052701e6, 0x68e93ba2, 0xee657f3b);
  }

  lemma Ones4()
    ensures Update(0xee657f3b, Repeated(0xff, 8)) == 0x9d5754bc
  {
    hide Feed, Update, Repeated;
    FeedIs(0xee657f3b, 0xff, 0x04f9d4a4);
    FeedIs(0x04f9d4a4, 0xff, 0xc8a8883c);
    FeedIs(0xc8a8883c, 0xff, 0xd0157db8);
    FeedIs(0xd0157db8, 0xff, 0x95616c2a);
    FeedIs(0x95616c2a, 0xff, 0xe6b794db);
    FeedIs(0xe6b794db, 0xff, 0xe7c1ae55);
    FeedIs(0xe7c1ae55, 0xff, 0xc94e5c30);
    FeedIs(0xc94e5c30, 0xff, 0x9d5754bc);
    EightBytes(0xff, 0xee657f3b, 0x04f9d4a4, 0xc8a8883c, 0xd0157db8, 0x95616c2a,
               0xe6b794db, 0xe7c1ae55, 0xc94e5c30, 0x9d5754bc);
  }

  /** Section B.4 of RFC 3720: the checksum of 32 bytes 0xff. */
  lemma ValueOfOnes()
    ensures Value(Repeated(0xff, 32)) == 0x62a8ab43
  {
    hide Step, Feed, Update, Repeated;
    Ones1();
    Ones2();
    Ones3();
    Ones4();
    FourParts(0xff, 0xffffffff, 0xb798b438, 0x10d0b3ef, 0xee657f3b, 0x9d5754bc);
  }
}
