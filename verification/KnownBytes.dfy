/** Known encodings: what the documentation and the tests of the formats list, and small
    files worked out by hand from them.  They fix byte order, tags, types and constants,
    which no round trip can see. */
module KnownBytes {
  import opened Format
  import opened Bytes
  import opened Coding
  import Crc32c
  import KnownChecksums
  import LogFormat
  import Keys
  import WriteBatch
  import Block
  import TableFormat
  import Filter
  import FilterBlock
  import Manifest

  const FOO: seq<Byte> := [0x66, 0x6f, 0x6f]

  /** Fixed-width numbers are little-endian. */
  lemma FixedNumbers()
    ensures LogFormat.Fixed32(0x04030201) == [1, 2, 3, 4] && Fixed(0x04030201) == [1, 2, 3, 4]
    ensures Keys.Fixed64(0x0807060504030201) == [1, 2, 3, 4, 5, 6, 7, 8]
  {
    hide Fixed;
    Digits(1, 2, 3, 4);
    Digits(5, 6, 7, 8);
    SmallBytes();
  }

  /** The bytes of a number, the low one first. */
  lemma Digits(b0: nat, b1: nat, b2: nat, b3: nat)
    requires b0 < 256 && b1 < 256 && b2 < 256 && b3 < 256
    ensures b0 + 256 * (b1 + 256 * (b2 + 256 * b3)) < LIMIT32
    ensures Fixed(b0 + 256 * (b1 + 256 * (b2 + 256 * b3))) == [ByteOf(b0), ByteOf(b1), ByteOf(b2), ByteOf(b3)]
  {
    hide ByteOf;
    var n3 := b2 + 256 * b3;
    var n2 := b1 + 256 * n3;
    var n := b0 + 256 * n2;
    OneDigit(b0, n2);
    OneDigit(b1, n3);
    OneDigit(b2, b3);
  }

  lemma OneDigit(b: nat, rest: nat)
    requires b < 256
    ensures (b + 256 * rest) % 256 == b && (b + 256 * rest) / 256 == rest
  {
  }

  lemma SmallBytes()
    ensures ByteOf(0) == 0 && ByteOf(1) == 1 && ByteOf(2) == 2 && ByteOf(3) == 3 && ByteOf(4) == 4 && ByteOf(5) == 5
    ensures ByteOf(6) == 6 && ByteOf(7) == 7 && ByteOf(8) == 8 && ByteOf(11) == 11 && ByteOf(100) == 100
  {
  }

  /** A byte and its high bit. */
  lemma Varints()
    ensures Varint(127) == [0x7f] && Varint(128) == [0x80, 0x01] && Varint(300) == [0xac, 0x02]
  {
    assert Varint(1) == [0x01] && Varint(2) == [0x02];
  }

  /** Bits above the word are lost. */
  lemma LongVarint()
    ensures GetVarint32([0xff, 0xff, 0xff, 0xff, 0x7f]) == Some((0xffff_ffff, []))
  {
    var b: seq<Byte> := [0xff, 0xff, 0xff, 0xff, 0x7f];
    assert EndsAt(b, 4);
    DecodeIs(b, 5, 4);
    assert Power128(1) == 128 && Power128(2) == 0x4000 && Power128(3) == 0x20_0000 && Power128(4) == 0x1000_0000;
    assert Weighted(b, 1) == 127 && Weighted(b, 2) == 127 + 127 * 128;
    assert Weighted(b, 3) == 127 + 127 * 128 + 127 * 0x4000;
    assert Weighted(b, 4) == 127 + 127 * 128 + 127 * 0x4000 + 127 * 0x20_0000;
  }

  /** Rotated right by 15 bits, plus a constant. */
  lemma Masks()
    ensures Crc32c.Mask(0) == 0xa282ead8 && Crc32c.Mask(1) == 0xa284ead8 && Crc32c.Mask(0x8000) == 0xa282ead9
  {
  }

  // ----- the log

  lemma FooChecksum()
    ensures Crc32c.Value([1] + FOO) == 0x3a82ec18
  {
    hide Crc32c.Feed;
    KnownChecksums.FeedIs(0xffffffff, 0x01, 0x5fe92fad);
    KnownChecksums.FeedIs(0x5fe92fad, 0x66, 0x5a5b64d0);
    KnownChecksums.FeedIs(0x5a5b64d0, 0x6f, 0xec5c1589);
    KnownChecksums.FeedIs(0xec5c1589, 0x6f, 0xc57d13e7);
    var data: seq<Byte> := [1] + FOO;
    assert data[1..] == FOO && FOO[1..] == [0x6f, 0x6f] && FOO[1..][1..] == [0x6f] && FOO[1..][1..][1..] == [];
    assert Crc32c.Update(0xc57d13e7, []) == 0xc57d13e7;
    assert Crc32c.Update(0xec5c1589, [0x6f]) == 0xc57d13e7;
    assert Crc32c.Update(0x5a5b64d0, [0x6f, 0x6f]) == 0xc57d13e7;
    assert Crc32c.Update(0x5fe92fad, FOO) == 0xc57d13e7;
    assert Crc32c.Xor(0, Crc32c.ONES) == 0xffffffff && Crc32c.Xor(0xc57d13e7, Crc32c.ONES) == 0x3a82ec18;
  }

  /** The log with the one record "foo": masked checksum of type and data, length, type. */
  lemma FooLog()
    ensures LogFormat.Records(0, [FOO]) == [0xdd, 0x5f, 0xb3, 0x7a, 0x03, 0x00, 0x01, 0x66, 0x6f, 0x6f]
  {
    hide Crc32c.Value, Crc32c.Mask, LogFormat.Fixed32;
    FooChecksum();
    FooMask();
    var checksum: seq<Byte> := [0xdd, 0x5f, 0xb3, 0x7a];
    assert LogFormat.Checksum(1, FOO) == checksum;
    assert ByteOf(3) == 3 && ByteOf(0) == 0;
    assert LogFormat.Header(1, FOO) == checksum + [3, 0, 1];
    assert LogFormat.Record(0, FOO, true) == [] + LogFormat.Fragment(1, FOO);
    assert [FOO][1..] == [];
  }

  lemma FooMask()
    ensures LogFormat.Fixed32(Crc32c.Mask(0x3a82ec18)) == [0xdd, 0x5f, 0xb3, 0x7a]
  {
  }

  /** The example of the log format: a record of 1000 bytes, one of 97270 in three pieces,
      which leaves six bytes of the third block, and one of 8000 in the fourth block. */
  lemma DocumentedLog(a: seq<Byte>, b: seq<Byte>, c: seq<Byte>)
    requires |a| == 1000 && |b| == 97270 && |c| == 8000
    ensures LogFormat.Record(0, a, true) == LogFormat.Fragment(1, a) && LogFormat.EndOf(0, a) == 1007
    ensures LogFormat.Record(1007, b, true)
            == LogFormat.Fragment(2, b[..31754]) + (LogFormat.Fragment(3, b[31754..64515])
               + LogFormat.Fragment(4, b[64515..]))
    ensures LogFormat.EndOf(1007, b) == 32762 && 1007 + |LogFormat.Record(1007, b, true)| == 2 * 32768 + 32762
    ensures LogFormat.Record(32762, c, true) == Zeros(6) + LogFormat.Fragment(1, c)
  {
    hide LogFormat.Fragment;
    assert LogFormat.Record(0, a, true) == [] + LogFormat.Fragment(1, a);
    var rest := b[31754..];
    assert rest[..32761] == b[31754..64515] && rest[32761..] == b[64515..];
    assert LogFormat.Record(32768, b[64515..], false) == LogFormat.Fragment(4, b[64515..]) by {
      assert LogFormat.Trailer(32768) == [];
    }
    assert LogFormat.Record(32768, rest, false)
        == LogFormat.Fragment(3, b[31754..64515]) + LogFormat.Fragment(4, b[64515..]);
    assert LogFormat.EndOf(32768, b[64515..]) == 32762 && LogFormat.EndOf(32768, rest) == 32762;
  }

  // ----- batches and keys

  /** An internal key: the user key, the type byte, and the sequence number in seven bytes. */
  lemma KnownInternalKey()
    ensures Keys.Internal(FOO, 100 * 256 + 1) == FOO + [1, 100, 0, 0, 0, 0, 0, 0]
  {
    hide Fixed, ByteOf;
    Digits(1, 100, 0, 0);
    Digits(0, 0, 0, 0);
    SmallBytes();
  }

  /** A batch: sequence number, count, and the updates with their type bytes. */
  lemma KnownBatch()
    ensures var ops := [WriteBatch.Put([0x61], [0x62]), WriteBatch.Delete([0x63])];
            WriteBatch.Rep(100, ops)
            == [100, 0, 0, 0, 0, 0, 0, 0, 2, 0, 0, 0, 1, 1, 0x61, 1, 0x62, 0, 1, 0x63]
  {
    hide Fixed, ByteOf;
    SmallBytes();
    var put, del := WriteBatch.Put([0x61], [0x62]), WriteBatch.Delete([0x63]);
    assert Varint(1) == [1];
    assert WriteBatch.OpBytes(put) == [1, 1, 0x61, 1, 0x62] && WriteBatch.OpBytes(del) == [0, 1, 0x63];
    assert [put, del][1..] == [del] && [del][1..] == [] && WriteBatch.OpsBytes([]) == [];
    assert WriteBatch.OpsBytes([del]) == [0, 1, 0x63];
    Digits(100, 0, 0, 0);
    Digits(0, 0, 0, 0);
    Digits(2, 0, 0, 0);
  }

  // ----- tables

  const DECK: seq<Byte> := [0x64, 0x65, 0x63, 0x6b]
  const DOCK: seq<Byte> := [0x64, 0x6f, 0x63, 0x6b]

  function Pair(): seq<Block.KV> {
    [Block.KV(DECK, [1]), Block.KV(DOCK, [2])]
  }

  /** The second key is stored without the byte that it shares with the first. */
  lemma KnownEntries()
    ensures Block.EntryBytes(Pair(), [0], 0) == [0, 4, 1] + DECK + [1]
    ensures Block.EntryBytes(Pair(), [0], 1) == [1, 3, 1, 0x6f, 0x63, 0x6b, 2]
    ensures Block.EntryBytes(Pair(), [0, 1], 1) == [0, 4, 1] + DOCK + [2]
  {
    assert DECK[1..][0] == 0x65 && DOCK[1..][0] == 0x6f && Block.Common(DECK[1..], DOCK[1..]) == 0;
    assert Block.Common(DECK, DOCK) == 1;
    assert Varint(0) == [0] && Varint(1) == [1] && Varint(3) == [3] && Varint(4) == [4];
    assert DOCK[1..] == [0x6f, 0x63, 0x6b] && DECK[0..] == DECK && DOCK[0..] == DOCK;
  }

  /** Entries, the offsets of the restart points, and their number. */
  lemma KnownBlock()
    ensures Block.StartsOk(Pair(), [0]) && Block.Off(Pair(), [0], 2) == 15 && Block.Off(Pair(), [0], 0) == 0
    ensures Block.Finished(Pair(), [0])
            == [0, 4, 1] + DECK + [1, 1, 3, 1, 0x6f, 0x63, 0x6b, 2] + [0, 0, 0, 0] + [1, 0, 0, 0]
  {
    hide Fixed, ByteOf, Block.EntryBytes;
    KnownEntries();
    SmallBytes();
    Digits(0, 0, 0, 0);
    Digits(1, 0, 0, 0);
    assert Block.Entries(Pair(), [0], 0) == [];
    assert Block.Entries(Pair(), [0], 1) == [0, 4, 1] + DECK + [1];
    assert Block.Entries(Pair(), [0], 2) == [0, 4, 1] + DECK + [1, 1, 3, 1, 0x6f, 0x63, 0x6b, 2];
    assert Block.Offsets(Pair(), [0]) == [0] && [0][..0] == [] && FixedArray([]) == [];
    assert FixedArray([0]) == FixedArray([]) + Fixed(0);
  }

  lemma TrailerChecksum()
    ensures Crc32c.Value([0x61, 0x00]) == 0x625fcaa3
  {
    hide Crc32c.Feed;
    KnownChecksums.FeedIs(0xffffffff, 0x61, 0x3e2fbccf);
    KnownChecksums.FeedIs(0x3e2fbccf, 0x00, 0x9da0355c);
    var data: seq<Byte> := [0x61, 0x00];
    assert data[1..] == [0x00] && data[1..][1..] == [];
    assert Crc32c.Update(0x9da0355c, []) == 0x9da0355c;
    assert Crc32c.Update(0x3e2fbccf, [0x00]) == 0x9da0355c;
    assert Crc32c.Xor(0, Crc32c.ONES) == 0xffffffff && Crc32c.Xor(0x9da0355c, Crc32c.ONES) == 0x625fcaa3;
  }

  /** The trailer of a block: no compression, and the masked checksum of block and type. */
  lemma KnownTrailer()
    ensures TableFormat.BlockTrailer([0x61]) == [0x00, 0x97, 0xaf, 0xc9, 0x37]
  {
    hide Crc32c.Value, Crc32c.Mask, LogFormat.Fixed32;
    TrailerChecksum();
    TrailerMask();
    var contents: seq<Byte>, none: seq<Byte> := [0x61], [0x00];
    assert contents + none == [0x61, 0x00];
  }

  lemma TrailerMask()
    ensures LogFormat.Fixed32(Crc32c.Mask(0x625fcaa3)) == [0x97, 0xaf, 0xc9, 0x37]
  {
  }

  /** The footer: two handles, zeros up to forty bytes, and the magic number. */
  lemma KnownFooter()
    ensures var meta, index := TableFormat.Handle(1, 2), TableFormat.Handle(3, 4);
            && |TableFormat.EncodeHandle(meta)| <= 20 && |TableFormat.EncodeHandle(index)| <= 20
            && TableFormat.Footer(meta, index)
               == [1, 2, 3, 4] + Zeros(36) + [0x57, 0xfb, 0x80, 0x8b, 0x24, 0x75, 0x47, 0xdb]
  {
    hide Fixed, ByteOf, Zeros;
    SmallBytes();
    assert Varint(1) == [1] && Varint(2) == [2] && Varint(3) == [3] && Varint(4) == [4];
    assert TableFormat.EncodeHandle(TableFormat.Handle(1, 2)) + TableFormat.EncodeHandle(TableFormat.Handle(3, 4))
        == [1, 2, 3, 4];
    Digits(0x57, 0xfb, 0x80, 0x8b);
    Digits(0x24, 0x75, 0x47, 0xdb);
    MagicBytes();
  }

  lemma MagicBytes()
    ensures [ByteOf(0x57), ByteOf(0xfb), ByteOf(0x80), ByteOf(0x8b)] == [0x57, 0xfb, 0x80, 0x8b]
    ensures [ByteOf(0x24), ByteOf(0x75), ByteOf(0x47), ByteOf(0xdb)] == [0x24, 0x75, 0x47, 0xdb]
  {
  }

  /** An empty filter block: the offset of the offsets, and the logarithm of 2048. */
  lemma KnownFilterBlock()
    ensures FilterBlock.Finished([], []) == [0, 0, 0, 0, 11]
  {
    assert FixedArray([]) == [] && Fixed(0) == [0, 0, 0, 0];
  }

  /** One filter of two bytes: the filter, its offset, and the offset of the offsets. */
  lemma KnownFilterBlockOfOne()
    ensures FilterBlock.Finished([9, 9], [0]) == [9, 9] + [0, 0, 0, 0] + [2, 0, 0, 0] + [11]
  {
    hide Fixed, ByteOf;
    SmallBytes();
    Digits(0, 0, 0, 0);
    Digits(2, 0, 0, 0);
    assert [0][..0] == [] && FixedArray([]) == [] && FixedArray([0]) == FixedArray([]) + Fixed(0);
  }

  /** The bloom filter of one key with hash 10: bit 2 of byte 1, and six probes. */
  lemma KnownBloom()
    ensures Filter.AllHashes([10]) && Filter.Bloom([10], 10) == [0, 4, 0, 0, 0, 0, 0, 0, 6]
  {
    hide ByteOf, Filter.WithBit, Zeros;
    SmallBytes();
    var zeros: seq<Byte>, bits: seq<Byte> := [0, 0, 0, 0, 0, 0, 0, 0], [0, 4, 0, 0, 0, 0, 0, 0];
    OneBit(zeros, bits);
    forall j: nat
      ensures Filter.Probe(10, j) % 64 == 10
    {
      SameBit(j);
    }
    assert Filter.WithProbes(zeros, 10, 1) == bits by {
      assert Filter.WithProbes(zeros, 10, 0) == zeros;
    }
    assert Filter.WithProbes(zeros, 10, 2) == bits && Filter.WithProbes(zeros, 10, 3) == bits;
    assert Filter.WithProbes(zeros, 10, 4) == bits && Filter.WithProbes(zeros, 10, 5) == bits;
    assert Filter.WithProbes(zeros, 10, 6) == bits;
    assert Zeros(8) == zeros;
    assert [10][..0] == [] && Filter.WithKeys(zeros, [], 6) == zeros && Filter.WithKeys(zeros, [10], 6) == bits;
  }

  lemma OneBit(zeros: seq<Byte>, bits: seq<Byte>)
    requires zeros == [0, 0, 0, 0, 0, 0, 0, 0] && bits == [0, 4, 0, 0, 0, 0, 0, 0]
    ensures Filter.WithBit(zeros, 10) == bits && Filter.WithBit(bits, 10) == bits
  {
  }

  lemma SameBit(j: nat)
    ensures Filter.Probe(10, j) % 64 == 10
  {
    hide Filter.Probe;
    Filter.ProbeIs(10, j);
    Multiple(j);
  }

  lemma Multiple(j: nat)
    ensures (10 + j * 327680) % LIMIT32 % 64 == 10
  {
    var m, q := j * 5120, (10 + j * 327680) / LIMIT32;
    assert j * 327680 == 64 * m;
    var y := (10 + 64 * m) % LIMIT32;
    assert y == 10 + 64 * m - LIMIT32 * q;
    Remainder(y, m - 67108864 * q);
  }

  lemma Remainder(y: nat, k: int)
    requires y == 10 + 64 * k
    ensures y % 64 == 10
  {
  }

  // ----- the manifest

  /** The order of the fields of an edit. */
  lemma KnownOrder(f: Manifest.FileMeta)
    ensures var e := Manifest.VersionEdit(Some(FOO), Some(1), Some(2), Some(3), Some(4), [(0, FOO)], [(1, 5)],
                                          [(2, f)]);
            Manifest.FieldsOf(e)
            == [Manifest.Comparator(FOO), Manifest.LogNumber(1), Manifest.PrevLogNumber(2), Manifest.NextFileNumber(3),
                Manifest.LastSequence(4), Manifest.CompactPointer(0, FOO), Manifest.DeletedFile(1, 5),
                Manifest.NewFile(2, f)]
  {
    assert [(0, FOO)][..0] == [] && Manifest.PointerFields([]) == [];
    assert [(1, 5)][..0] == [] && Manifest.DeletedFields([]) == [];
    assert [(2, f)][..0] == [] && Manifest.AddedFields([]) == [];
  }

  /** The tags of an edit. */
  lemma KnownEdit()
    ensures Manifest.EncodeFields([Manifest.Comparator(FOO)]) == [1, 3] + FOO
    ensures Manifest.EncodeFields([Manifest.LogNumber(5)]) == [2, 5]
    ensures Manifest.EncodeFields([Manifest.NextFileNumber(5)]) == [3, 5]
    ensures Manifest.EncodeFields([Manifest.LastSequence(5)]) == [4, 5]
    ensures Manifest.EncodeFields([Manifest.PrevLogNumber(5)]) == [9, 5]
    ensures Manifest.EncodeFields([Manifest.CompactPointer(6, FOO)]) == [5, 6, 3] + FOO
    ensures Manifest.EncodeFields([Manifest.DeletedFile(6, 5)]) == [6, 6, 5]
    ensures Manifest.EncodeFields([Manifest.NewFile(6, Manifest.FileMeta(5, 10, FOO, [7]))])
            == [7, 6, 5, 10, 3] + FOO + [1, 7]
  {
    hide Manifest.EncodeFields;
    OneField(Manifest.Comparator(FOO));
    OneField(Manifest.LogNumber(5));
    OneField(Manifest.NextFileNumber(5));
    OneField(Manifest.LastSequence(5));
    OneField(Manifest.PrevLogNumber(5));
    OneField(Manifest.CompactPointer(6, FOO));
    OneField(Manifest.DeletedFile(6, 5));
    OneField(Manifest.NewFile(6, Manifest.FileMeta(5, 10, FOO, [7])));
    assert Varint(1) == [1] && Varint(2) == [2] && Varint(3) == [3] && Varint(4) == [4] && Varint(5) == [5];
    assert Varint(6) == [6] && Varint(7) == [7] && Varint(9) == [9] && Varint(10) == [10];
    assert [7] + ([6] + ([5] + ([10] + (([3] + FOO) + ([1] + [7]))))) == [7, 6, 5, 10, 3] + FOO + [1, 7];
  }

  lemma OneField(f: Manifest.Field)
    ensures Manifest.EncodeFields([f]) == Varint(Manifest.TagOf(f)) + Manifest.Body(f)
  {
    assert [f][1..] == [] && Manifest.EncodeFields([]) == [];
  }
}
