/** The log format (db/log_format.h, db/log_writer.cc, db/log_reader.cc): records
    cut into fragments that never cross a block boundary, each with a checksum. */
module LogFormat {
  import opened Bytes
  import opened Crc32c

  const BLOCK := 32768
  const HEADER := 7

  const ZERO: Byte := 0
  const FULL: Byte := 1
  const FIRST: Byte := 2
  const MIDDLE: Byte := 3
  const LAST: Byte := 4

  // ----- fixed-width numbers

  function Fixed32(x: bv32): (r: seq<Byte>)
    ensures |r| == 4
  {
    [(x & 0xff) as bv8, ((x >> 8) & 0xff) as bv8, ((x >> 16) & 0xff) as bv8, (x >> 24) as bv8]
  }

  function DecodeFixed32(b: seq<Byte>): bv32
    requires |b| == 4
  {
    LoadWord(b[0], b[1], b[2], b[3])
  }

  lemma Fixed32RoundTrip(x: bv32)
    ensures DecodeFixed32(Fixed32(x)) == x
  {
  }

  lemma WordBytes(b0: Byte, b1: Byte, b2: Byte, b3: Byte)
    ensures Fixed32(LoadWord(b0, b1, b2, b3)) == [b0, b1, b2, b3]
  {
  }

  // ----- one fragment

  /** The stored checksum covers the type byte and the payload. */
  function Checksum(t: Byte, data: seq<Byte>): (r: seq<Byte>)
    ensures |r| == 4
  {
    Fixed32(Mask(Value([t] + data)))
  }

  function Header(t: Byte, data: seq<Byte>): (r: seq<Byte>)
    requires |data| < 65536
    ensures |r| == HEADER
  {
    Checksum(t, data) + [ByteOf(|data| % 256), ByteOf(|data| / 256), t]
  }

  /** EmitPhysicalRecord. */
  function Fragment(t: Byte, data: seq<Byte>): (r: seq<Byte>)
    requires |data| < 65536
    ensures |r| == HEADER + |data|
  {
    Header(t, data) + data
  }

  predicate ChecksumOk(header: seq<Byte>, data: seq<Byte>)
    requires |header| == HEADER
  {
    Unmask(DecodeFixed32(header[..4])) == Value([header[6]] + data)
  }

  function Length(header: seq<Byte>): (n: nat)
    requires |header| == HEADER
  {
    NatOf(header[4]) + 256 * NatOf(header[5])
  }

  lemma HeaderReads(t: Byte, data: seq<Byte>)
    requires |data| < 65536
    ensures var h := Header(t, data); h[6] == t && Length(h) == |data| && ChecksumOk(h, data)
  {
    hide Value, Mask, Unmask, Fixed32, DecodeFixed32, ByteOf, NatOf;
    var h := Header(t, data);
    ByteRoundTrip(|data| % 256);
    ByteRoundTrip(|data| / 256);
    assert h[4] == ByteOf(|data| % 256) && h[5] == ByteOf(|data| / 256);
    assert h[..4] == Checksum(t, data);
    Fixed32RoundTrip(Mask(Value([t] + data)));
    UnmaskMask(Value([t] + data));
  }

  // ----- one record

  function TypeOf(begin: bool, end: bool): Byte {
    if begin && end then FULL else if begin then FIRST else if end then LAST else MIDDLE
  }

  /** Where in its block the next fragment goes: a tail too short for a header is
      filled with zeros. */
  function Start(offset: nat): nat
    requires offset <= BLOCK
  {
    if BLOCK - offset < HEADER then 0 else offset
  }

  function Trailer(offset: nat): seq<Byte>
    requires offset <= BLOCK
  {
    if BLOCK - offset < HEADER then Zeros(BLOCK - offset) else []
  }

  function Avail(offset: nat): (n: nat)
    requires offset <= BLOCK
    ensures n < 65536
  {
    BLOCK - Start(offset) - HEADER
  }

  /** AddRecord: the bytes of a record that starts at `offset` of a block. */
  function Record(offset: nat, data: seq<Byte>, begin: bool): (r: seq<Byte>)
    requires offset <= BLOCK
    decreases |data|, if offset == BLOCK then 0 else 1
  {
    var n := Avail(offset);
    if |data| <= n then Trailer(offset) + Fragment(TypeOf(begin, true), data)
    else Trailer(offset) + (Fragment(TypeOf(begin, false), data[..n]) + Record(BLOCK, data[n..], false))
  }

  /** Where in its block the record ends. */
  function EndOf(offset: nat, data: seq<Byte>): (r: nat)
    requires offset <= BLOCK
    ensures HEADER <= r <= BLOCK
    decreases |data|, if offset == BLOCK then 0 else 1
  {
    var n := Avail(offset);
    if |data| <= n then Start(offset) + HEADER + |data| else EndOf(BLOCK, data[n..])
  }

  function Records(offset: nat, records: seq<seq<Byte>>): seq<Byte>
    requires offset <= BLOCK
    decreases |records|
  {
    if records == [] then [] else Record(offset, records[0], true) + Records(EndOf(offset, records[0]), records[1..])
  }

  /** One fragment of a record, written after `was`. */
  lemma RecordStep(was: seq<Byte>, offset: nat, data: seq<Byte>, begin: bool)
    requires offset <= BLOCK
    ensures var n := Avail(offset);
            if |data| <= n then
              && was + Record(offset, data, begin) == was + Trailer(offset) + Fragment(TypeOf(begin, true), data)
              && EndOf(offset, data) == Start(offset) + HEADER + |data|
            else
              && was + Record(offset, data, begin)
                 == was + Trailer(offset) + Fragment(TypeOf(begin, false), data[..n]) + Record(BLOCK, data[n..], false)
              && EndOf(offset, data) == EndOf(BLOCK, data[n..])
  {
    hide Trailer, Fragment;
    var n := Avail(offset);
    if |data| <= n {
      Join(was, Trailer(offset), Fragment(TypeOf(begin, true), data), []);
    } else {
      Join(was, Trailer(offset), Fragment(TypeOf(begin, false), data[..n]), Record(BLOCK, data[n..], false));
    }
  }

  lemma Join(a: seq<Byte>, b: seq<Byte>, c: seq<Byte>, d: seq<Byte>)
    ensures a + (b + (c + d)) == a + b + c + d
    ensures a + (b + c) == a + b + c
  {
  }

  // ----- the writer

  class Writer {
    var dest: seq<Byte>
    var blockOffset: nat

    /** A writer on a file of the given contents; for a new file they are empty. */
    constructor (contents: seq<Byte>)
      ensures dest == contents && blockOffset == |contents| % BLOCK
    {
      dest, blockOffset := contents, |contents| % BLOCK;
    }

    method EmitPhysicalRecord(t: Byte, data: seq<Byte>)
      requires blockOffset + HEADER + |data| <= BLOCK
      modifies this
      ensures dest == old(dest) + Fragment(t, data) && blockOffset == old(blockOffset) + HEADER + |data|
    {
      hide Extend, Mask, Fixed32, ByteOf;
      // The checksum of the type byte is computed once and extended.
      var typeCrc := Value([t]);
      var crc := ExtendFast(typeCrc, data, 0);
      ExtendAppend(0, [t], data);
      var header := Fixed32(Mask(crc)) + [ByteOf(|data| % 256), ByteOf(|data| / 256), t];
      dest := dest + (header + data);
      blockOffset := blockOffset + HEADER + |data|;
    }

    /** AddRecord. */
    method AddRecord(data: seq<Byte>)
      requires blockOffset <= BLOCK
      modifies this
      ensures dest == old(dest) + Record(old(blockOffset), data, true)
      ensures blockOffset == EndOf(old(blockOffset), data)
    {
      hide Record, EndOf, Fragment;
      var left, begin := data, true;
      ghost var done, stop := dest + Record(blockOffset, data, true), EndOf(blockOffset, data);
      while true
        invariant blockOffset <= BLOCK && (!begin ==> blockOffset == BLOCK)
        invariant dest + Record(blockOffset, left, begin) == done && EndOf(blockOffset, left) == stop
        decreases |left|, if blockOffset == BLOCK then 0 else 1
      {
        RecordStep(dest, blockOffset, left, begin);
        var leftover := BLOCK - blockOffset;
        if leftover < HEADER {
          dest := dest + Zeros(leftover);
          blockOffset := 0;
        }
        var avail := BLOCK - blockOffset - HEADER;
        var n := if |left| < avail then |left| else avail;
        var end := |left| == n;
        EmitPhysicalRecord(TypeOf(begin, end), left[..n]);
        if end {
          assert left[..n] == left;
          return;
        }
        left, begin := left[n..], false;
      }
    }
  }
}
