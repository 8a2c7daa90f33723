/** The bloom filter policy (util/bloom.cc).  A key that was added is never denied. */
module Filter {
  import opened Format
  import opened Bytes
  import opened Coding

  type Key = seq<Byte>

  // ----- bits of a byte

  function BitMask(i: nat): (m: Byte)
    requires i < 8
    ensures m != 0
  {
    if i == 0 then 1 else if i == 1 then 2 else if i == 2 then 4 else if i == 3 then 8
    else if i == 4 then 16 else if i == 5 then 32 else if i == 6 then 64 else 128
  }

  predicate Has(x: Byte, i: nat)
    requires i < 8
  {
    x & BitMask(i) != 0
  }

  function Put(x: Byte, i: nat): Byte
    requires i < 8
  {
    x | BitMask(i)
  }

  predicate BitSet(a: seq<Byte>, b: nat)
    requires b < 8 * |a|
  {
    Has(a[b / 8], b % 8)
  }

  lemma OneBitEach(i: nat, j: nat)
    requires i < 8 && j < 8 && i != j
    ensures BitMask(i) & BitMask(j) == 0
  {
  }

  lemma OrBits(x: Byte, m: Byte, n: Byte)
    requires m != 0
    ensures (x | m) & m != 0
    ensures m & n == 0 ==> (x | m) & n == x & n
  {
  }

  lemma PutHas(x: Byte, i: nat, j: nat)
    requires i < 8 && j < 8
    ensures Has(Put(x, i), j) <==> i == j || Has(x, j)
  {
    hide BitMask;
    OrBits(x, BitMask(i), BitMask(j));
    if i != j {
      OneBitEach(i, j);
    }
  }

  function WithBit(a: seq<Byte>, b: nat): (r: seq<Byte>)
    requires b < 8 * |a|
    ensures |r| == |a|
  {
    a[b / 8 := Put(a[b / 8], b % 8)]
  }

  /** One bit is set, and no other bit changes. */
  lemma WithBitSets(a: seq<Byte>, b: nat, i: nat)
    requires b < 8 * |a| && i < 8 * |a|
    ensures BitSet(WithBit(a, b), i) <==> i == b || BitSet(a, i)
  {
    hide Has, Put;
    PutHas(a[b / 8], b % 8, i % 8);
    assert i == b <==> i / 8 == b / 8 && i % 8 == b % 8;
  }

  // ----- the probes of a key

  /** Double hashing: the hash is stepped by a rotation of itself. */
  function Delta(h: nat): nat {
    h / 131072 + h % 131072 * 32768
  }

  function Probe(h: nat, j: nat): (p: nat)
    requires h < LIMIT32
    ensures p < LIMIT32
  {
    if j == 0 then h else (Probe(h, j - 1) + Delta(h)) % LIMIT32
  }

  /** The step is the hash rotated right by 17 of 32 bits. */
  lemma DeltaIsRotation(h: nat)
    requires h < LIMIT32
    ensures Delta(h) < LIMIT32 && 131072 * Delta(h) == h + h % 131072 * (LIMIT32 - 1)
  {
  }

  /** Probe `j` is the hash stepped `j` times. */
  lemma {:induction false} ProbeIs(h: nat, j: nat)
    requires h < LIMIT32
    ensures Probe(h, j) == (h + j * Delta(h)) % LIMIT32
  {
    hide Delta;
    if j > 0 {
      ProbeIs(h, j - 1);
      assert h + j * Delta(h) == h + (j - 1) * Delta(h) + Delta(h);
      ModAdd(h + (j - 1) * Delta(h), Delta(h));
    }
  }

  lemma ModAdd(a: nat, b: nat)
    ensures (a % LIMIT32 + b) % LIMIT32 == (a + b) % LIMIT32
  {
  }

  /** All probes of the key hit set bits. */
  ghost predicate Marked(a: seq<Byte>, h: nat, k: nat)
    requires h < LIMIT32 && a != []
  {
    forall j :: 0 <= j < k ==> BitSet(a, Probe(h, j) % (8 * |a|))
  }

  /** KeyMayMatch of the bloom policy. */
  function BloomMatch(h: nat, filter: seq<Byte>): bool
    requires h < LIMIT32
  {
    if |filter| < 2 then false
    else
      var a, k := filter[..|filter| - 1], NatOf(filter[|filter| - 1]);
      k > 30 || ProbesHit(a, h, k)
  }

  predicate ProbesHit(a: seq<Byte>, h: nat, k: nat)
    requires h < LIMIT32 && a != []
  {
    k == 0 || (ProbesHit(a, h, k - 1) && BitSet(a, Probe(h, k - 1) % (8 * |a|)))
  }

  lemma {:induction false} MarkedHit(a: seq<Byte>, h: nat, k: nat)
    requires h < LIMIT32 && a != []
    ensures ProbesHit(a, h, k) <==> Marked(a, h, k)
  {
    hide Probe, BitSet;
    if k > 0 {
      MarkedHit(a, h, k - 1);
      assert Marked(a, h, k) ==> BitSet(a, Probe(h, k - 1) % (8 * |a|));
      assert Marked(a, h, k - 1) && BitSet(a, Probe(h, k - 1) % (8 * |a|)) ==> Marked(a, h, k);
    }
  }

  /** The loop of KeyMayMatch stops at the first probe that misses. */
  method BloomKeyMayMatch(h: nat, filter: seq<Byte>) returns (r: bool)
    requires h < LIMIT32
    ensures r == BloomMatch(h, filter)
  {
    hide Has, Delta, NatOf;
    if |filter| < 2 {
      return false;
    }
    var a, k := filter[..|filter| - 1], NatOf(filter[|filter| - 1]);
    if k > 30 {
      return true;
    }
    var p := h;
    for j := 0 to k
      invariant p == Probe(h, j) && ProbesHit(a, h, j)
    {
      var bit := p % (8 * |a|);
      if !Has(a[bit / 8], bit % 8) {
        MissedProbe(a, h, j, k);
        return false;
      }
      p := (p + Delta(h)) % LIMIT32;
    }
    r := true;
  }

  lemma {:induction false} MissedProbe(a: seq<Byte>, h: nat, j: nat, k: nat)
    requires h < LIMIT32 && a != [] && j < k && !BitSet(a, Probe(h, j) % (8 * |a|))
    ensures !ProbesHit(a, h, k)
  {
    hide Probe, BitSet;
    if j < k - 1 {
      MissedProbe(a, h, j, k - 1);
    }
  }

  // ----- making a filter

  function WithProbes(a: seq<Byte>, h: nat, k: nat): (r: seq<Byte>)
    requires h < LIMIT32 && a != []
    ensures |r| == |a|
  {
    if k == 0 then a else WithBit(WithProbes(a, h, k - 1), Probe(h, k - 1) % (8 * |a|))
  }

  predicate AllHashes(hashes: seq<nat>) {
    forall i :: 0 <= i < |hashes| ==> hashes[i] < LIMIT32
  }

  function WithKeys(a: seq<Byte>, hashes: seq<nat>, k: nat): (r: seq<Byte>)
    requires AllHashes(hashes) && a != []
    ensures |r| == |a|
  {
    if hashes == [] then a else WithProbes(WithKeys(a, hashes[..|hashes| - 1], k), hashes[|hashes| - 1], k)
  }

  ghost predicate Probed(h: nat, k: nat, n: nat, b: nat)
    requires h < LIMIT32 && n > 0
  {
    exists j :: 0 <= j < k && Probe(h, j) % n == b
  }

  ghost predicate SomeProbed(hashes: seq<nat>, k: nat, n: nat, b: nat)
    requires AllHashes(hashes) && n > 0
  {
    exists i :: 0 <= i < |hashes| && Probed(hashes[i], k, n, b)
  }

  lemma {:induction false} WithProbesSets(a: seq<Byte>, h: nat, k: nat, b: nat)
    requires h < LIMIT32 && a != [] && b < 8 * |a|
    ensures BitSet(WithProbes(a, h, k), b) <==> BitSet(a, b) || Probed(h, k, 8 * |a|, b)
  {
    hide Probe, BitSet, WithBit;
    if k > 0 {
      WithProbesSets(a, h, k - 1, b);
      WithBitSets(WithProbes(a, h, k - 1), Probe(h, k - 1) % (8 * |a|), b);
      assert Probed(h, k - 1, 8 * |a|, b) ==> Probed(h, k, 8 * |a|, b);
    }
  }

  lemma {:induction false} WithKeysSets(a: seq<Byte>, hashes: seq<nat>, k: nat, b: nat)
    requires AllHashes(hashes) && a != [] && b < 8 * |a|
    ensures BitSet(WithKeys(a, hashes, k), b) <==> BitSet(a, b) || SomeProbed(hashes, k, 8 * |a|, b)
    decreases |hashes|
  {
    hide BitSet, Probed, WithProbes;
    if hashes != [] {
      var init, h := hashes[..|hashes| - 1], hashes[|hashes| - 1];
      WithKeysSets(a, init, k, b);
      WithProbesSets(WithKeys(a, init, k), h, k, b);
      assert forall i :: 0 <= i < |init| ==> init[i] == hashes[i];
    }
  }

  /** Number of probes, from the bits per key. */
  function Probes(bitsPerKey: nat): (k: nat)
    ensures 1 <= k <= 30
  {
    var k := bitsPerKey * 69 / 100;
    if k < 1 then 1 else if k > 30 then 30 else k
  }

  function FilterBytes(n: nat, bitsPerKey: nat): (r: nat)
    ensures r >= 8
  {
    var bits := n * bitsPerKey;
    ((if bits < 64 then 64 else bits) + 7) / 8
  }

  /** CreateFilter: the bits, and the number of probes behind them. */
  function Bloom(hashes: seq<nat>, bitsPerKey: nat): (filter: seq<Byte>)
    requires AllHashes(hashes)
  {
    WithKeys(Zeros(FilterBytes(|hashes|, bitsPerKey)), hashes, Probes(bitsPerKey)) + [ByteOf(Probes(bitsPerKey))]
  }

  /** Each of the probes of a key is a probe of some key that was added. */
  ghost predicate AllProbed(hashes: seq<nat>, k: nat, n: nat, h: nat)
    requires AllHashes(hashes) && n > 0 && h < LIMIT32
  {
    forall j :: 0 <= j < k ==> SomeProbed(hashes, k, n, Probe(h, j) % n)
  }

  lemma KeysMark(hashes: seq<nat>, k: nat, bytes: nat, h: nat)
    requires AllHashes(hashes) && bytes > 0 && h < LIMIT32
    ensures Marked(WithKeys(Zeros(bytes), hashes, k), h, k) <==> AllProbed(hashes, k, 8 * bytes, h)
  {
    hide BitSet, Probe, SomeProbed, WithKeys;
    forall j | 0 <= j < k
      ensures BitSet(WithKeys(Zeros(bytes), hashes, k), Probe(h, j) % (8 * bytes))
              <==> SomeProbed(hashes, k, 8 * bytes, Probe(h, j) % (8 * bytes))
    {
      WithKeysSets(Zeros(bytes), hashes, k, Probe(h, j) % (8 * bytes));
      NoBits(bytes, Probe(h, j) % (8 * bytes));
    }
  }

  /** A key is let through exactly if its probes cannot be told from those of the
      keys that were added. */
  lemma BloomExact(hashes: seq<nat>, bitsPerKey: nat, h: nat)
    requires AllHashes(hashes) && h < LIMIT32
    ensures BloomMatch(h, Bloom(hashes, bitsPerKey)) <==>
            AllProbed(hashes, Probes(bitsPerKey), 8 * FilterBytes(|hashes|, bitsPerKey), h)
  {
    hide NatOf, ByteOf, ProbesHit, Marked, AllProbed, WithKeys, FilterBytes;
    var k, bytes := Probes(bitsPerKey), FilterBytes(|hashes|, bitsPerKey);
    var a := WithKeys(Zeros(bytes), hashes, k);
    var filter := Bloom(hashes, bitsPerKey);
    assert filter[..|filter| - 1] == a;
    ByteRoundTrip(k);
    MarkedHit(a, h, k);
    KeysMark(hashes, k, bytes, h);
  }

  /** As many bytes as the bits per key ask for, at least eight, and the number of probes
      behind them: 69 for every 100 bits, between 1 and 30. */
  lemma BloomShape(hashes: seq<nat>, bitsPerKey: nat)
    requires AllHashes(hashes)
    ensures var filter := Bloom(hashes, bitsPerKey);
            var n, k := 8 * (|filter| - 1), NatOf(filter[|filter| - 1]);
            && n >= 64 && n >= |hashes| * bitsPerKey && (n == 64 || n < |hashes| * bitsPerKey + 8)
            && 1 <= k <= 30 && (2 <= bitsPerKey <= 44 ==> 100 * k <= 69 * bitsPerKey < 100 * (k + 1))
            && (bitsPerKey < 2 ==> k == 1) && (bitsPerKey > 44 ==> k == 30)
  {
    hide WithKeys, NatOf, ByteOf;
    ByteRoundTrip(Probes(bitsPerKey));
  }

  /** Filters too short for a probe count deny every key, and those whose count is kept
      for later encodings let every key through. */
  lemma BloomReserved(h: nat, filter: seq<Byte>)
    requires h < LIMIT32
    ensures |filter| < 2 ==> !BloomMatch(h, filter)
    ensures |filter| >= 2 && NatOf(filter[|filter| - 1]) > 30 ==> BloomMatch(h, filter)
  {
  }

  lemma NoBits(n: nat, b: nat)
    requires b < 8 * n
    ensures !BitSet(Zeros(n), b)
  {
  }

  /** No key of the list is denied by the filter. */
  lemma BloomKeepsKeys(hashes: seq<nat>, bitsPerKey: nat, i: nat)
    requires AllHashes(hashes) && i < |hashes|
    ensures BloomMatch(hashes[i], Bloom(hashes, bitsPerKey))
  {
    hide Bloom, BloomMatch, Probe, FilterBytes;
    BloomExact(hashes, bitsPerKey, hashes[i]);
    var k, n := Probes(bitsPerKey), 8 * FilterBytes(|hashes|, bitsPerKey);
    forall j | 0 <= j < k
      ensures SomeProbed(hashes, k, n, Probe(hashes[i], j) % n)
    {
      assert Probed(hashes[i], k, n, Probe(hashes[i], j) % n);
    }
  }

  method SetBit(bits: array<Byte>, b: nat)
    requires b < 8 * bits.Length
    modifies bits
    ensures bits[..] == WithBit(old(bits[..]), b)
  {
    bits[b / 8] := Put(bits[b / 8], b % 8);
  }

  method MarkKey(a: array<Byte>, h: nat, k: nat)
    requires h < LIMIT32 && a.Length > 0
    modifies a
    ensures a[..] == WithProbes(old(a[..]), h, k)
  {
    hide WithBit;
    var p := h;
    for j := 0 to k
      invariant p == Probe(h, j) && a[..] == WithProbes(old(a[..]), h, j)
    {
      SetBit(a, p % (8 * a.Length));
      p := (p + Delta(h)) % LIMIT32;
    }
  }

  method CreateFilter(hashes: seq<nat>, bitsPerKey: nat) returns (filter: seq<Byte>)
    requires AllHashes(hashes)
    ensures filter == Bloom(hashes, bitsPerKey)
  {
    hide WithProbes, ByteOf;
    var bits := |hashes| * bitsPerKey;
    if bits < 64 {
      bits := 64;
    }
    var bytes := (bits + 7) / 8;
    var k := Probes(bitsPerKey);
    var a := new Byte[bytes](_ => 0);
    assert a[..] == Zeros(bytes);
    for i := 0 to |hashes|
      invariant a[..] == WithKeys(Zeros(bytes), hashes[..i], k)
    {
      MarkKey(a, hashes[i], k);
      assert hashes[..i + 1][..i] == hashes[..i];
    }
    assert hashes[..|hashes|] == hashes;
    filter := a[..] + [ByteOf(k)];
  }
}
