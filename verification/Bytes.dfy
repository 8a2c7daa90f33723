/** Bytes and small numbers. */
module Bytes {
  type Byte = bv8

  function ByteOf(n: nat): Byte
    requires n < 256
  {
    n as bv8
  }

  function NatOf(b: Byte): (n: nat) {
    b as nat
  }

  lemma RawByte(n: nat)
    requires n < 256
    ensures (n as bv8) as nat == n
  {
  }

  lemma ByteRoundTrip(n: nat)
    requires n < 256
    ensures NatOf(ByteOf(n)) == n
  {
    RawByte(n);
  }

  lemma RawNat(b: Byte)
    ensures (b as nat) < 256 && (b as nat) as bv8 == b
  {
  }

  lemma NatRoundTrip(b: Byte)
    ensures NatOf(b) < 256 && ByteOf(NatOf(b)) == b
  {
    RawNat(b);
  }

  function Zeros(n: nat): (r: seq<Byte>)
    ensures |r| == n && forall i :: 0 <= i < n ==> r[i] == 0
  {
    if n == 0 then [] else Zeros(n - 1) + [0]
  }

  /** A slice of a slice. */
  lemma SubSlice(file: seq<Byte>, a: nat, b: nat, i: nat, j: nat)
    requires a <= b <= |file| && i <= j <= b - a
    ensures file[a..b][i..j] == file[a + i..a + j]
  {
    forall k | 0 <= k < j - i
      ensures file[a..b][i..j][k] == file[a + i..a + j][k]
    {
      assert file[a..b][i..j][k] == file[a..b][i + k] == file[a + i + k];
    }
  }
}
