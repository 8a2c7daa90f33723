/** Blocks (table/block_builder.cc, table/block.cc): keys stored as what they do not
    share with the key before, full keys at the restart points. */
module Block {
  import opened Format
  import opened Bytes
  import opened Coding

  datatype KV = KV(key: seq<Byte>, value: seq<Byte>)

  // ----- the layout

  /** Length of the longest common prefix. */
  function Common(a: seq<Byte>, b: seq<Byte>): (n: nat)
    ensures n <= |a| && n <= |b| && a[..n] == b[..n]
    ensures n < |a| && n < |b| ==> a[n] != b[n]
  {
    if a == [] || b == [] || a[0] != b[0] then 0
    else
      var n := 1 + Common(a[1..], b[1..]);
      assert a[..n] == [a[0]] + a[1..][..n - 1] && b[..n] == [b[0]] + b[1..][..n - 1];
      n
  }

  /** What entry `i` shares with the one before; nothing at a restart point. */
  function Shared(kvs: seq<KV>, starts: seq<nat>, i: nat): (n: nat)
    requires i < |kvs|
    ensures n <= |kvs[i].key| && (n > 0 ==> i > 0 && n <= |kvs[i - 1].key| && kvs[i].key[..n] == kvs[i - 1].key[..n])
  {
    if i == 0 || i in starts then 0 else Common(kvs[i - 1].key, kvs[i].key)
  }

  function Lengths(shared: nat, unshared: nat, value: nat): seq<Byte> {
    Varint(shared) + (Varint(unshared) + Varint(value))
  }

  function EntryBytes(kvs: seq<KV>, starts: seq<nat>, i: nat): seq<Byte>
    requires i < |kvs|
  {
    var n, kv := Shared(kvs, starts, i), kvs[i];
    Lengths(n, |kv.key| - n, |kv.value|) + (kv.key[n..] + kv.value)
  }

  function Entries(kvs: seq<KV>, starts: seq<nat>, n: nat): seq<Byte>
    requires n <= |kvs|
  {
    if n == 0 then [] else Entries(kvs, starts, n - 1) + EntryBytes(kvs, starts, n - 1)
  }

  /** Where entry `i` starts. */
  function Off(kvs: seq<KV>, starts: seq<nat>, i: nat): nat
    requires i <= |kvs|
  {
    |Entries(kvs, starts, i)|
  }

  function Offsets(kvs: seq<KV>, starts: seq<nat>): (r: seq<nat>)
    requires forall j :: 0 <= j < |starts| ==> starts[j] <= |kvs|
    ensures |r| == |starts| && forall j :: 0 <= j < |r| ==> r[j] == Off(kvs, starts, starts[j])
  {
    seq(|starts|, j requires 0 <= j < |starts| => Off(kvs, starts, starts[j]))
  }

  /** Restart points: the first entry is one, and they are in order. */
  predicate StartsOk(kvs: seq<KV>, starts: seq<nat>) {
    && |starts| > 0 && starts[0] == 0
    && (forall j :: 0 <= j < |starts| ==> starts[j] < |kvs| || (kvs == [] && |starts| == 1))
    && (forall i, j :: 0 <= i < j < |starts| ==> starts[i] < starts[j])
  }

  lemma LengthsAtLeast(shared: nat, unshared: nat, value: nat)
    ensures |Lengths(shared, unshared, value)| >= 3
  {
    hide Varint;
  }

  lemma {:induction false} OffsetsRise(kvs: seq<KV>, starts: seq<nat>, i: nat, j: nat)
    requires i <= j <= |kvs|
    ensures Off(kvs, starts, i) + 3 * (j - i) <= Off(kvs, starts, j)
    decreases j - i
  {
    hide Lengths, Shared;
    if i < j {
      OffsetsRise(kvs, starts, i, j - 1);
      var n, kv := Shared(kvs, starts, j - 1), kvs[j - 1];
      LengthsAtLeast(n, |kv.key| - n, |kv.value|);
    }
  }

  lemma {:induction false} EntryAt(kvs: seq<KV>, starts: seq<nat>, i: nat, n: nat)
    requires i < n <= |kvs|
    ensures Off(kvs, starts, i + 1) <= Off(kvs, starts, n)
    ensures Entries(kvs, starts, n)[Off(kvs, starts, i)..Off(kvs, starts, i + 1)] == EntryBytes(kvs, starts, i)
  {
    hide EntryBytes;
    if n > i + 1 {
      EntryAt(kvs, starts, i, n - 1);
      assert Entries(kvs, starts, n)[..Off(kvs, starts, n - 1)] == Entries(kvs, starts, n - 1);
    }
  }

  // ----- decoding one entry

  datatype Header = Header(shared: nat, unshared: nat, valueLength: nat, size: nat)

  /** The three lengths by varint decoding. */
  function DecodeLengths(b: seq<Byte>): (r: Option<Header>)
    ensures r.Some? ==> r.value.size <= |b|
  {
    var s := GetVarint32(b);
    if s.None? then None else
    var u := GetVarint32(s.value.1);
    if u.None? then None else
    var v := GetVarint32(u.value.1);
    if v.None? then None else Some(Header(s.value.0, u.value.0, v.value.0, |b| - |v.value.1|))
  }

  /** DecodeEntry: `b` runs from the entry to the restart array. */
  function DecodeEntry(b: seq<Byte>): (r: Option<Header>)
    ensures r.Some? ==> r.value.size <= |b|
  {
    if |b| < 3 then None
    else
      var h := if NatOf(b[0]) < 128 && NatOf(b[1]) < 128 && NatOf(b[2]) < 128
               then Some(Header(NatOf(b[0]), NatOf(b[1]), NatOf(b[2]), 3)) else DecodeLengths(b);
      if h.Some? && |b| - h.value.size >= (h.value.unshared + h.value.valueLength) % LIMIT32 then h else None
  }

  lemma OneByte(b: seq<Byte>)
    requires b != [] && NatOf(b[0]) < 128
    ensures GetVarint32(b) == Some((NatOf(b[0]), b[1..]))
  {
    hide NatOf;
  }

  /** The fast path for one-byte lengths agrees with full varint decoding. */
  lemma FastPathAgrees(b: seq<Byte>)
    requires |b| >= 3 && NatOf(b[0]) < 128 && NatOf(b[1]) < 128 && NatOf(b[2]) < 128
    ensures DecodeLengths(b) == Some(Header(NatOf(b[0]), NatOf(b[1]), NatOf(b[2]), 3))
  {
    hide NatOf, GetVarint32;
    OneByte(b);
    assert b[1..][0] == b[1] && b[1..][1..] == b[2..];
    OneByte(b[1..]);
    assert b[2..][0] == b[2];
    OneByte(b[2..]);
  }

  lemma DecodesLengths(shared: nat, unshared: nat, value: nat, rest: seq<Byte>)
    requires shared < LIMIT32 && unshared < LIMIT32 && value < LIMIT32
    ensures DecodeLengths(Lengths(shared, unshared, value) + rest)
            == Some(Header(shared, unshared, value, |Lengths(shared, unshared, value)|))
  {
    hide Varint, GetVarint32;
    var r2 := Varint(value) + rest;
    var r1 := Varint(unshared) + r2;
    assert Lengths(shared, unshared, value) + rest == Varint(shared) + r1;
    Varint32RoundTrip(shared, r1);
    Varint32RoundTrip(unshared, r2);
    Varint32RoundTrip(value, rest);
  }

  lemma DecodesEntry(shared: nat, unshared: nat, value: nat, rest: seq<Byte>)
    requires shared < LIMIT32 && unshared + value < LIMIT32 && |rest| >= unshared + value
    ensures DecodeEntry(Lengths(shared, unshared, value) + rest)
            == Some(Header(shared, unshared, value, |Lengths(shared, unshared, value)|))
  {
    hide DecodeLengths, NatOf, Lengths;
    var b := Lengths(shared, unshared, value) + rest;
    LengthsAtLeast(shared, unshared, value);
    DecodesLengths(shared, unshared, value, rest);
    if NatOf(b[0]) < 128 && NatOf(b[1]) < 128 && NatOf(b[2]) < 128 {
      FastPathAgrees(b);
    }
  }

  // ----- a finished block

  function RestartPoint(data: seq<Byte>, restarts: nat, j: nat): nat
    requires restarts + 4 * j + 4 <= |data|
  {
    GetFixed(data[restarts + 4 * j..restarts + 4 * j + 4])
  }

  /** Key lengths fit 32 bits. */
  predicate KeysFit(kvs: seq<KV>) {
    forall i :: 0 <= i < |kvs| ==> |kvs[i].key| < LIMIT32
  }

  /** The bytes of a block hold the entries and the offsets of the restart points. */
  ghost predicate IsBlock(data: seq<Byte>, restarts: nat, num: nat, kvs: seq<KV>, starts: seq<nat>) {
    && StartsOk(kvs, starts) && num == |starts| && restarts == Off(kvs, starts, |kvs|) < LIMIT32
    && KeysFit(kvs) && restarts + 4 * num <= |data| && data[..restarts] == Entries(kvs, starts, |kvs|)
    && forall j :: 0 <= j < num ==> starts[j] <= |kvs| && RestartPoint(data, restarts, j) == Off(kvs, starts, starts[j])
  }

  function Finished(kvs: seq<KV>, starts: seq<nat>): seq<Byte>
    requires StartsOk(kvs, starts) && Off(kvs, starts, |kvs|) < LIMIT32 && |starts| < LIMIT32
    requires forall j :: 0 <= j < |starts| ==> starts[j] <= |kvs| && Off(kvs, starts, starts[j]) < LIMIT32
  {
    Entries(kvs, starts, |kvs|) + FixedArray(Offsets(kvs, starts)) + Fixed(|starts|)
  }

  lemma FinishedIsBlock(kvs: seq<KV>, starts: seq<nat>)
    requires StartsOk(kvs, starts) && Off(kvs, starts, |kvs|) < LIMIT32 && |starts| < LIMIT32 && KeysFit(kvs)
    requires forall j :: 0 <= j < |starts| ==> starts[j] <= |kvs| && Off(kvs, starts, starts[j]) < LIMIT32
    ensures IsBlock(Finished(kvs, starts), Off(kvs, starts, |kvs|), |starts|, kvs, starts)
    ensures var data := Finished(kvs, starts); GetFixed(data[|data| - 4..]) == |starts|
  {
    hide Entries, Fixed, GetFixed;
    var entries, table, data := Entries(kvs, starts, |kvs|), FixedArray(Offsets(kvs, starts)), Finished(kvs, starts);
    forall j | 0 <= j < |starts|
      ensures RestartPoint(data, |entries|, j) == Off(kvs, starts, starts[j])
    {
      FixedArrayAt(Offsets(kvs, starts), j);
      assert data[|entries| + 4 * j..|entries| + 4 * j + 4] == table[4 * j..4 * j + 4];
      FixedRoundTrip(Off(kvs, starts, starts[j]));
    }
    assert data[..|entries|] == entries;
    assert data[|data| - 4..] == Fixed(|starts|);
    FixedRoundTrip(|starts|);
  }

  // ----- parsing

  /** An entry as ParseNextKey leaves it: its key, and where its value is. */
  datatype Parsed = Parsed(key: seq<Byte>, valueAt: nat, valueLength: nat)

  /** The entry at `p`, whose key starts like `key`; None is a corruption. */
  function ParseEntry(data: seq<Byte>, restarts: nat, p: nat, key: seq<Byte>): (r: Option<Parsed>)
    requires p <= restarts <= |data|
  {
    var h := DecodeEntry(data[p..restarts]);
    if h.None? || |key| < h.value.shared || restarts - p - h.value.size < h.value.unshared then None
    else
      var at := p + h.value.size;
      Some(Parsed(key[..h.value.shared] + data[at..at + h.value.unshared], at + h.value.unshared, h.value.valueLength))
  }

  /** `key` can be completed to the key of entry `i`. */
  predicate Completes(kvs: seq<KV>, starts: seq<nat>, i: nat, key: seq<Byte>)
    requires i < |kvs|
  {
    var n := Shared(kvs, starts, i);
    n <= |key| && key[..n] == kvs[i].key[..n]
  }

  lemma EntryInBlock(data: seq<Byte>, restarts: nat, num: nat, kvs: seq<KV>, starts: seq<nat>, i: nat)
    requires IsBlock(data, restarts, num, kvs, starts) && i < |kvs|
    ensures Off(kvs, starts, i) < Off(kvs, starts, i + 1) <= restarts
    ensures data[Off(kvs, starts, i)..Off(kvs, starts, i + 1)] == EntryBytes(kvs, starts, i)
  {
    hide Entries, EntryBytes;
    EntryAt(kvs, starts, i, |kvs|);
    OffsetsRise(kvs, starts, i, i + 1);
    var a, b := Off(kvs, starts, i), Off(kvs, starts, i + 1);
    assert data[a..b] == data[..restarts][a..b];
  }

  /** Parsing at an entry of the block yields its key and value. */
  lemma ParsesEntry(data: seq<Byte>, restarts: nat, num: nat, kvs: seq<KV>, starts: seq<nat>, i: nat, key: seq<Byte>)
    requires IsBlock(data, restarts, num, kvs, starts) && i < |kvs| && Completes(kvs, starts, i, key)
    ensures Off(kvs, starts, i) < restarts
    ensures var r := ParseEntry(data, restarts, Off(kvs, starts, i), key);
            && r.Some? && r.value.key == kvs[i].key
            && r.value.valueAt + r.value.valueLength == Off(kvs, starts, i + 1) <= |data|
            && data[r.value.valueAt..r.value.valueAt + r.value.valueLength] == kvs[i].value
  {
    hide Entries, Lengths, ParseEntry, IsBlock, Shared;
    EntryInBlock(data, restarts, num, kvs, starts, i);
    BlockSize(data, restarts, num, kvs, starts);
    var n, kv := Shared(kvs, starts, i), kvs[i];
    ParsesBytes(data, restarts, Off(kvs, starts, i), Off(kvs, starts, i + 1), n, kv.key[n..], kv.value, key);
    assert key[..n] + kv.key[n..] == kv.key;
  }

  lemma ParsesBytes(data: seq<Byte>, restarts: nat, a: nat, b: nat, n: nat, x: seq<Byte>, y: seq<Byte>, key: seq<Byte>)
    requires a <= b <= restarts <= |data| && restarts < LIMIT32 && n < LIMIT32 && n <= |key|
    requires data[a..b] == Lengths(n, |x|, |y|) + (x + y)
    ensures ParseEntry(data, restarts, a, key) == Some(Parsed(key[..n] + x, b - |y|, |y|)) && data[b - |y|..b] == y
  {
    hide Lengths, DecodeEntry;
    var head := Lengths(n, |x|, |y|);
    var rest := (x + y) + data[b..restarts];
    assert |data[a..b]| == b - a;
    assert data[a..restarts] == data[a..b] + data[b..restarts] == head + rest;
    DecodesEntry(n, |x|, |y|, rest);
    SlicesOf(data, a, b, head, x, y);
  }

  lemma BlockSize(data: seq<Byte>, restarts: nat, num: nat, kvs: seq<KV>, starts: seq<nat>)
    requires IsBlock(data, restarts, num, kvs, starts)
    ensures restarts < LIMIT32 && restarts <= |data| && KeysFit(kvs)
  {
  }

  lemma SlicesOf(data: seq<Byte>, a: nat, b: nat, head: seq<Byte>, x: seq<Byte>, y: seq<Byte>)
    requires a <= b <= |data| && data[a..b] == head + (x + y)
    ensures var at := a + |head|;
            && at + |x| + |y| == b
            && data[at..at + |x|] == x && data[at + |x|..at + |x| + |y|] == y
  {
    var at := a + |head|;
    var s := data[a..b];
    assert |s| == b - a;
    SubSlice(data, a, b, |head|, |head| + |x|);
    SubSlice(data, a, b, |head| + |x|, |head| + |x| + |y|);
    assert s[|head|..|head| + |x|] == x && s[|head| + |x|..|head| + |x| + |y|] == y;
  }
}
