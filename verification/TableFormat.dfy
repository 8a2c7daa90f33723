/** The pieces of a table file (table/format.cc): handles, blocks with a trailer, and
    the footer. */
module TableFormat {
  import opened Format
  import opened Bytes
  import opened Coding
  import opened Crc32c
  import opened LogFormat

  // ----- handles

  datatype Handle = Handle(offset: nat, size: nat)

  predicate Small(h: Handle) {
    h.offset < LIMIT64 && h.size < LIMIT64
  }

  function EncodeHandle(h: Handle): seq<Byte> {
    Varint(h.offset) + Varint(h.size)
  }

  function DecodeHandle(b: seq<Byte>): (d: Decoded<Handle>)
    ensures d.Some? ==> |d.value.1| < |b|
  {
    var o := GetVarint64(b);
    if o.None? then None else
    var s := GetVarint64(o.value.1);
    if s.None? then None else Some((Handle(o.value.0, s.value.0), s.value.1))
  }

  lemma HandleRoundTrip(h: Handle, rest: seq<Byte>)
    requires Small(h)
    ensures DecodeHandle(EncodeHandle(h) + rest) == Some((h, rest))
  {
    hide Varint, GetVarint64;
    assert EncodeHandle(h) + rest == Varint(h.offset) + (Varint(h.size) + rest);
    Varint64RoundTrip(h.offset, Varint(h.size) + rest);
    Varint64RoundTrip(h.size, rest);
  }

  /** The value of an index entry. */
  lemma HandleDecodes(h: Handle)
    requires Small(h)
    ensures DecodeHandle(EncodeHandle(h)) == Some((h, []))
  {
    hide EncodeHandle, DecodeHandle;
    HandleRoundTrip(h, []);
    assert EncodeHandle(h) + [] == EncodeHandle(h);
  }

  lemma HandleLength(h: Handle)
    requires Small(h)
    ensures |EncodeHandle(h)| <= 20
  {
    hide Varint, Power128;
    Powers();
    VarintLength(h.offset, 10);
    VarintLength(h.size, 10);
  }

  // ----- blocks in a file

  const TRAILER := 5
  const NO_COMPRESSION: Byte := 0

  /** The type of the block, and the checksum of contents and type. */
  function BlockTrailer(contents: seq<Byte>): (r: seq<Byte>)
    ensures |r| == TRAILER && r[0] == NO_COMPRESSION
  {
    [NO_COMPRESSION] + Fixed32(Mask(Crc32c.Value(contents + [NO_COMPRESSION])))
  }

  /** ReadBlock; None is a corruption, or a compressed block. */
  function ReadBlock(file: seq<Byte>, h: Handle, verify: bool): Option<seq<Byte>> {
    if h.offset + h.size + TRAILER > |file| then None
    else
      var data := file[h.offset..h.offset + h.size + TRAILER];
      if verify && Unmask(DecodeFixed32(data[h.size + 1..])) != Crc32c.Value(data[..h.size + 1]) then None
      else if data[h.size] != NO_COMPRESSION then None
      else Some(data[..h.size])
  }

  /** The file holds the contents, with their trailer, where the handle says. */
  ghost predicate Stored(file: seq<Byte>, h: Handle, contents: seq<Byte>) {
    && |contents| == h.size && h.offset + h.size + TRAILER <= |file|
    && file[h.offset..h.offset + h.size + TRAILER] == contents + BlockTrailer(contents)
  }

  lemma StoredReads(file: seq<Byte>, h: Handle, contents: seq<Byte>, verify: bool)
    requires Stored(file, h, contents)
    ensures ReadBlock(file, h, verify) == Some(contents)
  {
    hide Crc32c.Value, Mask, Unmask, Fixed32, DecodeFixed32;
    var data, crc := contents + BlockTrailer(contents), Crc32c.Value(contents + [NO_COMPRESSION]);
    assert data[..h.size + 1] == contents + [NO_COMPRESSION];
    assert data[h.size + 1..] == Fixed32(Mask(crc));
    assert data[..h.size] == contents;
    Fixed32RoundTrip(Mask(crc));
    UnmaskMask(crc);
  }

  /** With verification a block is read if and only if it stands there with its trailer. */
  lemma ReadsStored(file: seq<Byte>, h: Handle, contents: seq<Byte>)
    ensures ReadBlock(file, h, true) == Some(contents) <==> Stored(file, h, contents)
  {
    hide Stored, ReadBlock;
    if Stored(file, h, contents) {
      StoredReads(file, h, contents, true);
    }
    if ReadBlock(file, h, true) == Some(contents) {
      OnlyStored(file, h, contents);
    }
  }

  lemma OnlyStored(file: seq<Byte>, h: Handle, contents: seq<Byte>)
    requires ReadBlock(file, h, true) == Some(contents)
    ensures Stored(file, h, contents)
  {
    hide Crc32c.Value, Mask, Unmask, Fixed32, DecodeFixed32;
    var data := file[h.offset..h.offset + h.size + TRAILER];
    assert data[..h.size + 1] == contents + [NO_COMPRESSION];
    ChecksumIs(data[h.size + 1..], Crc32c.Value(data[..h.size + 1]));
    assert data == data[..h.size + 1] + data[h.size + 1..];
  }

  lemma ChecksumIs(b: seq<Byte>, crc: bv32)
    requires |b| == 4 && Unmask(DecodeFixed32(b)) == crc
    ensures b == Fixed32(Mask(crc))
  {
    hide Mask, Unmask, Fixed32, LoadWord;
    MaskUnmask(DecodeFixed32(b));
    WordBytes(b[0], b[1], b[2], b[3]);
  }

  lemma StoredStays(file: seq<Byte>, h: Handle, contents: seq<Byte>, more: seq<Byte>)
    requires Stored(file, h, contents)
    ensures Stored(file + more, h, contents)
  {
    hide BlockTrailer;
    var a, b := h.offset, h.offset + h.size + TRAILER;
    assert (file + more)[a..b] == file[a..b];
  }

  lemma NewlyStored(file: seq<Byte>, contents: seq<Byte>)
    ensures Stored(file + (contents + BlockTrailer(contents)), Handle(|file|, |contents|), contents)
  {
    hide BlockTrailer;
  }

  // ----- the footer

  const FOOTER := 48

  /** kTableMagicNumber, low word first. */
  const MAGIC_LOW: nat := 0x8b80fb57
  const MAGIC_HIGH: nat := 0xdb477524

  function Footer(meta: Handle, index: Handle): (r: seq<Byte>)
    requires |EncodeHandle(meta)| <= 20 && |EncodeHandle(index)| <= 20
    ensures |r| == FOOTER
  {
    var handles := EncodeHandle(meta) + EncodeHandle(index);
    handles + Zeros(40 - |handles|) + (Fixed(MAGIC_LOW) + Fixed(MAGIC_HIGH))
  }

  /** Footer::DecodeFrom: the handles of the metaindex block and of the index block. */
  function ReadFooter(b: seq<Byte>): Option<(Handle, Handle)>
    requires |b| == FOOTER
  {
    if GetFixed(b[40..44]) != MAGIC_LOW || GetFixed(b[44..]) != MAGIC_HIGH then None
    else
      var meta := DecodeHandle(b);
      if meta.None? then None else
      var index := DecodeHandle(meta.value.1);
      if index.None? then None else Some((meta.value.0, index.value.0))
  }

  /** Nothing is a footer that does not end with the magic number 0xdb4775248b80fb57. */
  lemma FooterHasMagic(b: seq<Byte>)
    requires |b| == 48 && ReadFooter(b).Some?
    ensures b[40..] == [0x57, 0xfb, 0x80, 0x8b, 0x24, 0x75, 0x47, 0xdb]
  {
    hide DecodeHandle;
    FixedIs(b[40..44], 0x57, 0xfb, 0x80, 0x8b);
    FixedIs(b[44..], 0x24, 0x75, 0x47, 0xdb);
    assert b[40..] == b[40..44] + b[44..];
  }

  lemma FixedIs(b: seq<Byte>, b0: nat, b1: nat, b2: nat, b3: nat)
    requires |b| == 4 && b0 < 256 && b1 < 256 && b2 < 256 && b3 < 256
    requires GetFixed(b) == b0 + 256 * (b1 + 256 * (b2 + 256 * b3))
    ensures b == [ByteOf(b0), ByteOf(b1), ByteOf(b2), ByteOf(b3)]
  {
    hide ByteOf, NatOf;
    NatRoundTrip(b[0]);
    NatRoundTrip(b[1]);
    NatRoundTrip(b[2]);
    NatRoundTrip(b[3]);
    var n0, n1, n2, n3 := NatOf(b[0]), NatOf(b[1]), NatOf(b[2]), NatOf(b[3]);
    SameDigit(n0, n1 + 256 * (n2 + 256 * n3), b0, b1 + 256 * (b2 + 256 * b3));
    SameDigit(n1, n2 + 256 * n3, b1, b2 + 256 * b3);
    SameDigit(n2, n3, b2, b3);
  }

  lemma SameDigit(a: nat, r: nat, b: nat, s: nat)
    requires a < 256 && b < 256 && a + 256 * r == b + 256 * s
    ensures a == b && r == s
  {
  }

  lemma FooterRoundTrip(meta: Handle, index: Handle)
    requires Small(meta) && Small(index)
    ensures |EncodeHandle(meta)| <= 20 && |EncodeHandle(index)| <= 20
    ensures ReadFooter(Footer(meta, index)) == Some((meta, index))
  {
    hide EncodeHandle, DecodeHandle, Fixed, GetFixed, Zeros;
    HandleLength(meta);
    HandleLength(index);
    var handles := EncodeHandle(meta) + EncodeHandle(index);
    var pad, magic := Zeros(40 - |handles|), Fixed(MAGIC_LOW) + Fixed(MAGIC_HIGH);
    var b := Footer(meta, index);
    assert b[40..44] == Fixed(MAGIC_LOW) && b[44..] == Fixed(MAGIC_HIGH);
    FixedRoundTrip(MAGIC_LOW);
    FixedRoundTrip(MAGIC_HIGH);
    var rest := pad + magic;
    assert b == EncodeHandle(meta) + (EncodeHandle(index) + rest);
    HandleRoundTrip(meta, EncodeHandle(index) + rest);
    HandleRoundTrip(index, rest);
  }
}
