/** Variable-length integers and length-prefixed strings (util/coding.cc). */
module Coding {
  import opened Format
  import opened Bytes

  const LIMIT32: nat := 0x1_0000_0000
  const LIMIT64: nat := 0x1_0000_0000_0000_0000

  /** Seven bits a byte, the low ones first; the high bit says that more follow. */
  function Varint(v: nat): (r: seq<Byte>)
    ensures |r| > 0
  {
    if v < 128 then [ByteOf(v)] else [ByteOf(v % 128 + 128)] + Varint(v / 128)
  }

  /** What is decoded, and the rest of the input. */
  type Decoded<T> = Option<(T, seq<Byte>)>

  /** A number of at most `max` bytes. */
  function DecodeVarint(b: seq<Byte>, max: nat): (d: Decoded<nat>)
    ensures d.Some? ==> |d.value.1| < |b|
    decreases max
  {
    if max == 0 || b == [] then None
    else
      var n := NatOf(b[0]);
      if n < 128 then Some((n, b[1..]))
      else
        match DecodeVarint(b[1..], max - 1)
        case None => None
        case Some(r) => Some((n - 128 + 128 * r.0, r.1))
  }

  /** GetVarint32 and GetVarint64: the words wrap around. */
  function GetVarint32(b: seq<Byte>): (d: Decoded<nat>)
    ensures d.Some? ==> |d.value.1| < |b|
  {
    match DecodeVarint(b, 5)
    case None => None
    case Some(r) => Some((r.0 % LIMIT32, r.1))
  }

  function GetVarint64(b: seq<Byte>): (d: Decoded<nat>)
    ensures d.Some? ==> |d.value.1| < |b|
  {
    match DecodeVarint(b, 10)
    case None => None
    case Some(r) => Some((r.0 % LIMIT64, r.1))
  }

  function Power128(n: nat): (r: nat)
    ensures r > 0
  {
    if n == 0 then 1 else 128 * Power128(n - 1)
  }

  lemma {:induction false} VarintRoundTrip(v: nat, rest: seq<Byte>, max: nat)
    requires max > 0 && v < Power128(max)
    ensures DecodeVarint(Varint(v) + rest, max) == Some((v, rest))
    decreases max
  {
    hide ByteOf, NatOf;
    if v < 128 {
      ByteRoundTrip(v);
      assert ([ByteOf(v)] + rest)[1..] == rest;
    } else {
      var b := ByteOf(v % 128 + 128);
      ByteRoundTrip(v % 128 + 128);
      assert Power128(max) == 128 * Power128(max - 1);
      assert v / 128 < Power128(max - 1);
      assert max - 1 > 0;
      VarintRoundTrip(v / 128, rest, max - 1);
      assert (Varint(v) + rest)[1..] == Varint(v / 128) + rest;
    }
  }

  /** The first byte without the high bit is byte `k`. */
  ghost predicate EndsAt(b: seq<Byte>, k: nat) {
    k < |b| && NatOf(b[k]) < 128 && forall i :: 0 <= i < k ==> NatOf(b[i]) >= 128
  }

  /** The low seven bits of the first `n` bytes, each weighted by its place. */
  function Weighted(b: seq<Byte>, n: nat): nat
    requires n <= |b|
  {
    if n == 0 then 0 else Weighted(b, n - 1) + Low7(b[n - 1]) * Power128(n - 1)
  }

  function Low7(b: Byte): nat {
    NatOf(b) % 128
  }

  lemma {:induction false} WeightedShift(b: seq<Byte>, n: nat)
    requires n < |b|
    ensures Weighted(b, n + 1) == Low7(b[0]) + 128 * Weighted(b[1..], n)
  {
    hide Low7;
    if n == 0 {
      assert Weighted(b, 0) == 0 && Power128(0) == 1;
    } else {
      WeightedShift(b, n - 1);
      assert b[1..][n - 1] == b[n] && Power128(n) == 128 * Power128(n - 1);
      Distribute(Weighted(b[1..], n - 1), Low7(b[n]), Power128(n - 1));
    }
  }

  lemma Distribute(w: nat, d: nat, p: nat)
    ensures 128 * (w + d * p) == 128 * w + d * (128 * p)
  {
  }

  /** On any bytes: the number is the weighted sum up to the first byte without the high
      bit. */
  lemma {:induction false} DecodeIs(b: seq<Byte>, max: nat, k: nat)
    requires k < max && EndsAt(b, k)
    ensures DecodeVarint(b, max) == Some((Weighted(b, k + 1), b[k + 1..]))
    decreases max
  {
    hide NatOf, Power128, Weighted;
    NatRoundTrip(b[0]);
    WeightedShift(b, k);
    if k == 0 {
      NoWeight(b[1..]);
    } else {
      DecodeIs(b[1..], max - 1, k - 1);
      assert b[1..][k..] == b[k + 1..];
    }
  }

  lemma NoWeight(b: seq<Byte>)
    ensures Weighted(b, 0) == 0
  {
  }

  /** An encoded number is the weighted sum of its bytes, of which the last alone lacks the
      high bit. */
  lemma {:induction false} VarintIs(v: nat)
    ensures var r := Varint(v); EndsAt(r, |r| - 1) && Weighted(r, |r|) == v
  {
    hide ByteOf, NatOf, Power128, Weighted;
    var r := Varint(v);
    WeightedShift(r, |r| - 1);
    if v < 128 {
      ByteRoundTrip(v);
      NoWeight(r[1..]);
    } else {
      ByteRoundTrip(v % 128 + 128);
      VarintIs(v / 128);
      assert r[1..] == Varint(v / 128);
    }
  }

  /** Without such a byte among the first `max` bytes decoding fails. */
  lemma {:induction false} DecodeFails(b: seq<Byte>, max: nat)
    requires forall i :: 0 <= i < max && i < |b| ==> NatOf(b[i]) >= 128
    ensures DecodeVarint(b, max) == None
    decreases max
  {
    hide NatOf;
    if max > 0 && b != [] {
      assert forall i :: 0 <= i < max - 1 && i < |b[1..]| ==> b[1..][i] == b[i + 1];
      DecodeFails(b[1..], max - 1);
    }
  }

  lemma Powers()
    ensures Power128(5) >= LIMIT32 && Power128(10) >= LIMIT64
  {
    assert Power128(2) == 0x4000;
    assert Power128(4) == 0x1000_0000;
    assert Power128(5) == 0x8_0000_0000;
    assert Power128(6) == 128 * 0x8_0000_0000;
    assert Power128(8) == 128 * 128 * 128 * 0x8_0000_0000;
  }

  lemma Varint32RoundTrip(v: nat, rest: seq<Byte>)
    requires v < LIMIT32
    ensures GetVarint32(Varint(v) + rest) == Some((v, rest))
  {
    hide Varint, DecodeVarint, Power128;
    Powers();
    VarintRoundTrip(v, rest, 5);
  }

  lemma Varint64RoundTrip(v: nat, rest: seq<Byte>)
    requires v < LIMIT64
    ensures GetVarint64(Varint(v) + rest) == Some((v, rest))
  {
    hide Varint, DecodeVarint, Power128;
    Powers();
    VarintRoundTrip(v, rest, 10);
  }

  lemma {:induction false} VarintLength(v: nat, max: nat)
    requires max > 0 && v < Power128(max)
    ensures |Varint(v)| <= max
    decreases max
  {
    hide ByteOf;
    if v >= 128 {
      assert Power128(max) == 128 * Power128(max - 1);
      assert v / 128 < Power128(max - 1);
      VarintLength(v / 128, max - 1);
    }
  }

  /** EncodeVarint64. */
  method EncodeVarint64(v: nat) returns (r: seq<Byte>)
    ensures r == Varint(v)
  {
    hide ByteOf;
    r := [];
    var rest := v;
    while rest >= 128
      invariant r + Varint(rest) == Varint(v)
    {
      var b := ByteOf(rest % 128 + 128);
      assert r + ([b] + Varint(rest / 128)) == r + [b] + Varint(rest / 128);
      r := r + [b];
      rest := rest / 128;
    }
    r := r + [ByteOf(rest)];
  }

  lemma TwoBytes(v: nat)
    requires 0x80 <= v < 0x4000
    ensures Varint(v) == [ByteOf(v % 128 + 128), ByteOf(v / 128)]
  {
    hide ByteOf;
  }

  lemma ThreeBytes(v: nat)
    requires 0x4000 <= v < 0x20_0000
    ensures Varint(v) == [ByteOf(v % 128 + 128), ByteOf(v / 128 % 128 + 128), ByteOf(v / 128 / 128)]
  {
    hide ByteOf;
    TwoBytes(v / 128);
  }

  lemma FourBytes(v: nat)
    requires 0x20_0000 <= v < 0x1000_0000
    ensures Varint(v) == [ByteOf(v % 128 + 128), ByteOf(v / 128 % 128 + 128), ByteOf(v / 128 / 128 % 128 + 128),
                          ByteOf(v / 128 / 128 / 128)]
  {
    hide ByteOf;
    ThreeBytes(v / 128);
  }

  lemma FiveBytes(v: nat)
    requires 0x1000_0000 <= v < LIMIT32
    ensures Varint(v) == [ByteOf(v % 128 + 128), ByteOf(v / 128 % 128 + 128), ByteOf(v / 128 / 128 % 128 + 128),
                          ByteOf(v / 128 / 128 / 128 % 128 + 128), ByteOf(v / 128 / 128 / 128 / 128)]
  {
    hide ByteOf;
    FourBytes(v / 128);
  }

  /** EncodeVarint32: the unrolled form writes the same bytes. */
  method EncodeVarint32(v: nat) returns (r: seq<Byte>)
    requires v < LIMIT32
    ensures r == Varint(v)
  {
    hide ByteOf;
    var v1, v2, v3, v4 := v / 128, v / 128 / 128, v / 128 / 128 / 128, v / 128 / 128 / 128 / 128;
    if v < 0x80 {
      r := [ByteOf(v)];
    } else if v < 0x4000 {
      TwoBytes(v);
      r := [ByteOf(v % 128 + 128), ByteOf(v1)];
    } else if v < 0x20_0000 {
      ThreeBytes(v);
      r := [ByteOf(v % 128 + 128), ByteOf(v1 % 128 + 128), ByteOf(v2)];
    } else if v < 0x1000_0000 {
      FourBytes(v);
      r := [ByteOf(v % 128 + 128), ByteOf(v1 % 128 + 128), ByteOf(v2 % 128 + 128), ByteOf(v3)];
    } else {
      FiveBytes(v);
      r := [ByteOf(v % 128 + 128), ByteOf(v1 % 128 + 128), ByteOf(v2 % 128 + 128), ByteOf(v3 % 128 + 128), ByteOf(v4)];
    }
  }

  /** What a value decoded from the rest adds to the bits decoded so far. */
  function Lift(inner: Decoded<nat>, result: nat, scale: nat): Decoded<nat> {
    match inner
    case None => None
    case Some(r) => Some((result + scale * r.0, r.1))
  }

  lemma LiftTwice(inner: Decoded<nat>, n: nat, result: nat, scale: nat)
    requires n >= 128
    ensures Lift(Lift(inner, n - 128, 128), result, scale) == Lift(inner, result + (n - 128) * scale, 128 * scale)
  {
    if inner.Some? {
      var v := inner.value.0;
      assert scale * (n - 128 + 128 * v) == (n - 128) * scale + 128 * scale * v;
    }
  }

  lemma DecodeStep(b: seq<Byte>, i: nat, max: nat)
    requires i < max && i < |b|
    ensures var n := NatOf(b[i]);
            DecodeVarint(b[i..], max - i)
            == if n < 128 then Some((n, b[i + 1..])) else Lift(DecodeVarint(b[i + 1..], max - i - 1), n - 128, 128)
  {
    hide NatOf;
    assert b[i..][1..] == b[i + 1..];
  }

  lemma LiftOne(n: nat, rest: seq<Byte>, result: nat, scale: nat)
    ensures Lift(Some((n, rest)), result, scale) == Some((result + scale * n, rest))
  {
  }

  /** GetVarint64Ptr and GetVarint32PtrFallback: the loop over at most `max` bytes. */
  method DecodeLoop(b: seq<Byte>, max: nat) returns (r: Decoded<nat>)
    ensures r == DecodeVarint(b, max)
  {
    hide NatOf, DecodeVarint, Lift;
    var result, scale, i := 0, 1, 0;
    LiftNothing(DecodeVarint(b, max));
    assert b[0..] == b;
    while i < max && i < |b|
      invariant 0 <= i <= max && i <= |b|
      invariant DecodeVarint(b, max) == Lift(DecodeVarint(b[i..], max - i), result, scale)
    {
      var n := NatOf(b[i]);
      DecodeStep(b, i, max);
      if n < 128 {
        LiftOne(n, b[i + 1..], result, scale);
        r := Some((result + scale * n, b[i + 1..]));
        return;
      }
      LiftTwice(DecodeVarint(b[i + 1..], max - i - 1), n, result, scale);
      result, scale, i := result + (n - 128) * scale, 128 * scale, i + 1;
    }
    NothingToDecode(b[i..], max - i, result, scale);
    r := None;
  }

  lemma LiftNothing(d: Decoded<nat>)
    ensures Lift(d, 0, 1) == d
  {
  }

  lemma NothingToDecode(b: seq<Byte>, max: nat, result: nat, scale: nat)
    requires b == [] || max == 0
    ensures Lift(DecodeVarint(b, max), result, scale) == None
  {
  }

  // ----- length-prefixed strings

  function Prefixed(s: seq<Byte>): seq<Byte> {
    Varint(|s|) + s
  }

  function GetPrefixed(b: seq<Byte>): (d: Decoded<seq<Byte>>)
    ensures d.Some? ==> |d.value.1| < |b|
  {
    match GetVarint32(b)
    case None => None
    case Some(r) => if |r.1| >= r.0 then Some((r.1[..r.0], r.1[r.0..])) else None
  }

  /** On any bytes: a length that decodes, so many bytes, and the rest; or an error. */
  lemma PrefixedIs(b: seq<Byte>, s: seq<Byte>, rest: seq<Byte>)
    ensures GetPrefixed(b) == Some((s, rest)) <==> GetVarint32(b) == Some((|s|, s + rest))
  {
    hide GetVarint32;
    var n := GetVarint32(b);
    if n.Some? && |n.value.1| >= n.value.0 {
      assert n.value.1 == n.value.1[..n.value.0] + n.value.1[n.value.0..];
    }
    assert (s + rest)[..|s|] == s && (s + rest)[|s|..] == rest;
  }

  lemma PrefixedRoundTrip(s: seq<Byte>, rest: seq<Byte>)
    requires |s| < LIMIT32
    ensures GetPrefixed(Prefixed(s) + rest) == Some((s, rest))
  {
    hide Varint, GetVarint32;
    assert Prefixed(s) + rest == Varint(|s|) + (s + rest);
    Varint32RoundTrip(|s|, s + rest);
    assert (s + rest)[..|s|] == s && (s + rest)[|s|..] == rest;
  }

  // ----- fixed-width numbers

  /** PutFixed32: four bytes, the low one first. */
  function Fixed(n: nat): (r: seq<Byte>)
    requires n < LIMIT32
    ensures |r| == 4
  {
    [ByteOf(n % 256), ByteOf(n / 256 % 256), ByteOf(n / 256 / 256 % 256), ByteOf(n / 256 / 256 / 256)]
  }

  function GetFixed(b: seq<Byte>): nat
    requires |b| == 4
  {
    NatOf(b[0]) + 256 * (NatOf(b[1]) + 256 * (NatOf(b[2]) + 256 * NatOf(b[3])))
  }

  lemma FixedRoundTrip(n: nat)
    requires n < LIMIT32
    ensures GetFixed(Fixed(n)) == n
  {
    hide ByteOf, NatOf;
    var n1 := n / 256;
    var n2 := n1 / 256;
    ByteRoundTrip(n % 256);
    ByteRoundTrip(n1 % 256);
    ByteRoundTrip(n2 % 256);
    ByteRoundTrip(n2 / 256);
  }

  function FixedArray(ns: seq<nat>): (r: seq<Byte>)
    requires forall i :: 0 <= i < |ns| ==> ns[i] < LIMIT32
    ensures |r| == 4 * |ns|
  {
    if ns == [] then [] else FixedArray(ns[..|ns| - 1]) + Fixed(ns[|ns| - 1])
  }

  lemma {:induction false} FixedArrayAt(ns: seq<nat>, i: nat)
    requires i < |ns| && forall j :: 0 <= j < |ns| ==> ns[j] < LIMIT32
    ensures FixedArray(ns)[4 * i..4 * i + 4] == Fixed(ns[i])
    decreases |ns|
  {
    hide Fixed;
    var init := FixedArray(ns[..|ns| - 1]);
    if i < |ns| - 1 {
      FixedArrayAt(ns[..|ns| - 1], i);
      assert FixedArray(ns)[4 * i..4 * i + 4] == init[4 * i..4 * i + 4];
    } else {
      assert FixedArray(ns)[4 * i..4 * i + 4] == Fixed(ns[i]);
    }
  }
}
