/** The log reader (db/log_reader.cc) as a function of the file, the round trip with
    the writer, and what any truncation leaves. */
module LogReader {
  import opened Format
  import opened Bytes
  import opened LogFormat

  // ----- one physical record

  /** End of the part of the file that one block read yields. */
  function BlockEnd(file: seq<Byte>, p: nat): (end: nat)
    requires p <= |file|
    ensures p <= end <= |file|
  {
    var full := p - p % BLOCK + BLOCK;
    if full <= |file| then full else |file|
  }

  /** The read came back short: this is the end of the file. */
  predicate Short(file: seq<Byte>, p: nat)
    requires p <= |file|
  {
    |file| < p - p % BLOCK + BLOCK
  }

  datatype Physical = Eof | Bad(reported: bool, next: nat) | Fragment(t: Byte, data: seq<Byte>, next: nat)

  /** The header at `p` and what follows it in the block. */
  function Parse(file: seq<Byte>, p: nat): Physical
    requires p <= |file| && BlockEnd(file, p) - p >= HEADER
  {
    var end, header := BlockEnd(file, p), file[p..p + HEADER];
    var n := Length(header);
    if HEADER + n > end - p then if Short(file, p) then Eof else Bad(true, end)
    else if header[6] == ZERO && n == 0 then Bad(false, end)
    else if !ChecksumOk(header, file[p + HEADER..p + HEADER + n]) then Bad(true, end)
    else Physical.Fragment(header[6], file[p + HEADER..p + HEADER + n], p + HEADER + n)
  }

  /** ReadPhysicalRecord: a block tail too short for a header is skipped. */
  function ReadPhysical(file: seq<Byte>, p: nat): (r: Physical)
    requires p <= |file|
    ensures !r.Eof? ==> p < r.next <= |file|
    decreases |file| - p
  {
    var end := BlockEnd(file, p);
    if end - p >= HEADER then Parse(file, p) else if Short(file, p) then Eof else ReadPhysical(file, end)
  }

  // ----- one record

  datatype Result = Result(record: Option<seq<Byte>>, next: nat, reports: nat)

  function One(b: bool): nat {
    if b then 1 else 0
  }

  /** kEof and kBadRecord share their numbers with two type bytes that no writer uses: a
      sound fragment of such a type ends the reading, or is dropped without a report. */
  const EOF_TYPE: Byte := 5
  const BAD_TYPE: Byte := 6

  /** What ReadRecord makes of one physical record: it returns, or goes on. */
  datatype Decision =
    | Return(record: Option<seq<Byte>>, more: nat)
    | GoOn(inFragment: bool, scratch: seq<Byte>, more: nat)

  function Decide(r: Physical, inFragment: bool, scratch: seq<Byte>): (d: Decision)
    ensures r.Eof? ==> d == Return(None, 0)
  {
    match r
    case Eof => Return(None, 0)
    case Bad(reported, _) => GoOn(false, [], One(reported) + One(inFragment))
    case Fragment(t, data, _) =>
      var partial := One(inFragment && scratch != []);
      if t == FULL then Return(Some(data), partial)
      else if t == FIRST then GoOn(true, data, partial)
      else if t == MIDDLE then if inFragment then GoOn(true, scratch + data, 0) else GoOn(false, scratch, 1)
      else if t == LAST then if inFragment then Return(Some(scratch + data), 0) else GoOn(false, scratch, 1)
      else if t == EOF_TYPE then Return(None, 0)
      else if t == BAD_TYPE then GoOn(false, [], One(inFragment))
      else GoOn(false, [], 1)
  }

  /** ReadRecord, with the pieces collected so far and the corruption reports. */
  function ReadRecord(file: seq<Byte>, p: nat, inFragment: bool, scratch: seq<Byte>, reports: nat): (r: Result)
    requires p <= |file|
    ensures r.record.Some? ==> p < r.next <= |file|
    decreases |file| - p
  {
    var r := ReadPhysical(file, p);
    var d := Decide(r, inFragment, scratch);
    if d.Return? then Result(d.record, if r.Eof? then |file| else r.next, reports + d.more)
    else ReadRecord(file, r.next, d.inFragment, d.scratch, reports + d.more)
  }

  datatype All = All(records: seq<seq<Byte>>, reports: nat)

  /** Records until the reader says that there are no more. */
  function ReadAll(file: seq<Byte>, p: nat): All
    requires p <= |file|
    decreases |file| - p
  {
    var r := ReadRecord(file, p, false, [], 0);
    if r.record.None? then All([], r.reports)
    else
      var rest := ReadAll(file, r.next);
      All([r.record.value] + rest.records, r.reports + rest.reports)
  }

  // ----- reading a written fragment

  /** `bytes`, or what the end of the file leaves of them, stand at `p`. */
  predicate Holds(file: seq<Byte>, p: nat, bytes: seq<Byte>) {
    && p <= |file|
    && (if |file| < p + |bytes| then file[p..] == bytes[..|file| - p] else file[p..p + |bytes|] == bytes)
  }

  predicate Whole(file: seq<Byte>, p: nat, bytes: seq<Byte>) {
    p + |bytes| <= |file|
  }

  lemma HoldsParts(file: seq<Byte>, p: nat, a: seq<Byte>, b: seq<Byte>)
    requires Holds(file, p, a + b)
    ensures Holds(file, p, a)
    ensures Whole(file, p, a) ==> Holds(file, p + |a|, b)
  {
    if |file| < p + |a| {
      assert (a + b)[..|file| - p] == a[..|file| - p];
    } else {
      assert file[p..p + |a|] == a by {
        if |file| < p + |a + b| {
          assert file[p..p + |a|] == file[p..][..|a|] == (a + b)[..|file| - p][..|a|] == a;
        } else {
          assert file[p..p + |a|] == file[p..p + |a + b|][..|a|] == (a + b)[..|a|] == a;
        }
      }
      var q := p + |a|;
      if |file| < q + |b| {
        assert file[q..] == file[p..][|a|..] == (a + b)[..|file| - p][|a|..] == b[..|file| - q];
      } else {
        assert file[q..q + |b|] == file[p..p + |a + b|][|a|..] == (a + b)[|a|..] == b;
      }
    }
  }

  lemma HeaderAt(file: seq<Byte>, s: nat, t: Byte, data: seq<Byte>)
    requires |data| < 65536 && Holds(file, s, LogFormat.Fragment(t, data)) && s + HEADER <= |file|
    ensures file[s..s + HEADER] == Header(t, data)
    ensures s + HEADER + |data| <= |file| ==> file[s + HEADER..s + HEADER + |data|] == data
  {
    HoldsParts(file, s, Header(t, data), data);
  }

  /** A fragment that is wholly in the file is read back; a cut one ends the file
      without a report. */
  lemma ReadsFragment(file: seq<Byte>, s: nat, t: Byte, data: seq<Byte>)
    requires s % BLOCK + HEADER + |data| <= BLOCK && (t != ZERO || data != [])
    requires Holds(file, s, LogFormat.Fragment(t, data))
    ensures ReadPhysical(file, s) == if s + HEADER + |data| <= |file| then Physical.Fragment(t, data,
                s + HEADER + |data|) else Eof
  {
    hide LogFormat.Fragment, Header, Length, ChecksumOk;
    if s + HEADER <= |file| {
      HeaderAt(file, s, t, data);
      HeaderReads(t, data);
    }
  }

  /** The tail of a block is skipped; if the file ends in it, reading ends. */
  lemma SkipsTrailer(file: seq<Byte>, p: nat, offset: nat)
    requires p <= |file| && offset <= BLOCK && p % BLOCK == offset % BLOCK
    ensures var s := p + |Trailer(offset)|;
            && (s <= |file| ==> ReadPhysical(file, p) == ReadPhysical(file, s) && s % BLOCK == Start(offset))
            && (s > |file| ==> ReadPhysical(file, p) == Eof)
  {
    hide Parse;
    if BLOCK - offset < HEADER && offset < BLOCK {
      assert p % BLOCK == offset;
      BlockAfter(p, offset);
    }
  }

  lemma BlockAfter(p: nat, offset: nat)
    requires offset < BLOCK && p % BLOCK == offset
    ensures (p + (BLOCK - offset)) % BLOCK == 0
  {
  }

  // ----- reading a written record

  /** The first fragment of a record, wherever in its block the record starts. */
  lemma ReadsFirst(file: seq<Byte>, p: nat, offset: nat, t: Byte, data: seq<Byte>)
    requires p <= |file| && offset <= BLOCK && p % BLOCK == offset % BLOCK && |data| <= Avail(offset) && t != ZERO
    requires Holds(file, p, Trailer(offset) + LogFormat.Fragment(t, data))
    ensures var end := p + |Trailer(offset)| + HEADER + |data|;
            ReadPhysical(file, p) == if end <= |file| then Physical.Fragment(t, data, end) else Eof
  {
    hide LogFormat.Fragment, ReadPhysical;
    SkipsTrailer(file, p, offset);
    HoldsParts(file, p, Trailer(offset), LogFormat.Fragment(t, data));
    var s := p + |Trailer(offset)|;
    if s <= |file| {
      ReadsFragment(file, s, t, data);
    }
  }

  /** A fragment of all that is available ends the block. */
  lemma FillsBlock(p: nat, offset: nat)
    requires offset <= BLOCK && p % BLOCK == offset % BLOCK
    ensures (p + |Trailer(offset)| + HEADER + Avail(offset)) % BLOCK == 0
  {
    StartsAt(p, offset);
  }

  lemma StartsAt(p: nat, offset: nat)
    requires offset <= BLOCK && p % BLOCK == offset % BLOCK
    ensures (p + |Trailer(offset)|) % BLOCK == Start(offset)
  {
    if BLOCK - offset < HEADER && offset < BLOCK {
      BlockAfter(p, offset);
    }
  }

  /** A record that is wholly in the file is returned, a cut one ends the reading;
      neither is reported. */
  lemma {:induction false} ReadsRecord(file: seq<Byte>, p: nat, offset: nat, data: seq<Byte>, begin: bool,
                                       scratch: seq<Byte>, reports: nat)
    requires p <= |file| && offset <= BLOCK && p % BLOCK == offset % BLOCK && (begin ==> scratch == [])
    requires Holds(file, p, Record(offset, data, begin))
    ensures var end := p + |Record(offset, data, begin)|;
            ReadRecord(file, p, !begin, scratch, reports)
            == if end <= |file| then Result(Some(scratch + data), end, reports) else Result(None, |file|, reports)
    decreases |data|, if offset == BLOCK then 0 else 1
  {
    hide LogFormat.Fragment, ReadPhysical, ReadRecord, Holds, Trailer, Record;
    var n := Avail(offset);
    if |data| <= n {
      WholeRecord(file, p, offset, data, begin, scratch, reports);
    } else {
      FirstPiece(file, p, offset, data, begin, scratch, reports);
      var q := p + |Trailer(offset)| + HEADER + n;
      if q <= |file| {
        var scratch' := if begin then data[..n] else scratch + data[..n];
        ReadsRecord(file, q, BLOCK, data[n..], false, scratch', reports);
        assert scratch' + data[n..] == scratch + data;
      }
    }
  }

  /** A record of one fragment. */
  lemma WholeRecord(file: seq<Byte>, p: nat, offset: nat, data: seq<Byte>, begin: bool, scratch: seq<Byte>,
                    reports: nat)
    requires p <= |file| && offset <= BLOCK && p % BLOCK == offset % BLOCK && (begin ==> scratch == [])
    requires Holds(file, p, Record(offset, data, begin)) && |data| <= Avail(offset)
    ensures var end := p + |Record(offset, data, begin)|;
            ReadRecord(file, p, !begin, scratch, reports)
            == if end <= |file| then Result(Some(scratch + data), end, reports) else Result(None, |file|, reports)
  {
    hide LogFormat.Fragment, ReadPhysical, ReadRecord, Holds, Trailer;
    ReadsFirst(file, p, offset, TypeOf(begin, true), data);
    LastStep(file, p, begin, data, scratch, reports);
  }

  /** The first of several fragments, and what is left to read behind it. */
  lemma FirstPiece(file: seq<Byte>, p: nat, offset: nat, data: seq<Byte>, begin: bool, scratch: seq<Byte>, reports: nat)
    requires p <= |file| && offset <= BLOCK && p % BLOCK == offset % BLOCK && (begin ==> scratch == [])
    requires Holds(file, p, Record(offset, data, begin)) && |data| > Avail(offset)
    ensures var n := Avail(offset);
            var q, rest := p + |Trailer(offset)| + HEADER + n, Record(BLOCK, data[n..], false);
            var scratch' := if begin then data[..n] else scratch + data[..n];
            && q % BLOCK == 0 && p + |Record(offset, data, begin)| == q + |rest|
            && ReadRecord(file, p, !begin, scratch, reports)
               == (if q <= |file| then ReadRecord(file, q, true, scratch', reports) else Result(None, |file|, reports))
            && (q <= |file| ==> Holds(file, q, rest))
  {
    hide LogFormat.Fragment, ReadPhysical, ReadRecord, Holds, Trailer, Record;
    var n := Avail(offset);
    var t, head, rest := TypeOf(begin, false), data[..n], Record(BLOCK, data[n..], false);
    RecordParts(offset, data, begin);
    HoldsParts(file, p, Trailer(offset) + LogFormat.Fragment(t, head), rest);
    ReadsFirst(file, p, offset, t, head);
    MoreStep(file, p, begin, head, scratch, reports);
    FillsBlock(p, offset);
  }

  lemma LastStep(file: seq<Byte>, p: nat, begin: bool, data: seq<Byte>, scratch: seq<Byte>, reports: nat)
    requires p <= |file| && (begin ==> scratch == [])
    requires var r := ReadPhysical(file, p); r.Eof? || (r.Fragment? && r.t == TypeOf(begin, true) && r.data == data)
    ensures ReadRecord(file, p, !begin, scratch, reports)
            == if ReadPhysical(file, p).Eof? then Result(None, |file|, reports)
               else Result(Some(scratch + data), ReadPhysical(file, p).next, reports)
  {
    hide ReadPhysical;
    assert begin ==> scratch + data == data;
  }

  lemma MoreStep(file: seq<Byte>, p: nat, begin: bool, data: seq<Byte>, scratch: seq<Byte>, reports: nat)
    requires p <= |file| && (begin ==> scratch == [])
    requires var r := ReadPhysical(file, p); r.Eof? || (r.Fragment? && r.t == TypeOf(begin, false) && r.data == data)
    ensures ReadRecord(file, p, !begin, scratch, reports)
            == if ReadPhysical(file, p).Eof? then Result(None, |file|, reports)
               else ReadRecord(file, ReadPhysical(file, p).next, true, if begin then data else scratch + data, reports)
  {
    hide ReadPhysical;
  }

  lemma RecordParts(offset: nat, data: seq<Byte>, begin: bool)
    requires offset <= BLOCK && |data| > Avail(offset)
    ensures var n := Avail(offset);
            Record(offset, data, begin)
            == (Trailer(offset) + LogFormat.Fragment(TypeOf(begin, false), data[..n])) + Record(BLOCK, data[n..], false)
  {
    hide LogFormat.Fragment, Trailer;
  }

  lemma SameMod(a: nat, b: nat, c: nat)
    requires a % BLOCK == b % BLOCK
    ensures (a + c) % BLOCK == (b + c) % BLOCK
  {
  }

  lemma {:induction false} EndMod(p: nat, offset: nat, data: seq<Byte>, begin: bool)
    requires offset <= BLOCK && p % BLOCK == offset % BLOCK
    ensures (p + |Record(offset, data, begin)|) % BLOCK == EndOf(offset, data) % BLOCK
    decreases |data|, if offset == BLOCK then 0 else 1
  {
    hide LogFormat.Fragment;
    var n := Avail(offset);
    var s := p + |Trailer(offset)|;
    StartsAt(p, offset);
    if |data| > n {
      var q := s + HEADER + n;
      FillsBlock(p, offset);
      EndMod(q, BLOCK, data[n..], false);
      assert p + |Record(offset, data, begin)| == q + |Record(BLOCK, data[n..], false)|;
    } else {
      SameMod(s, Start(offset), HEADER + |data|);
    }
  }

  // ----- reading a written log

  /** How many of the records end within the first `k` bytes. */
  function Complete(offset: nat, records: seq<seq<Byte>>, k: nat): (n: nat)
    requires offset <= BLOCK
    ensures n <= |records|
    decreases |records|
  {
    if records == [] then 0
    else
      var size := |Record(offset, records[0], true)|;
      if size > k then 0 else 1 + Complete(EndOf(offset, records[0]), records[1..], k - size)
  }

  lemma NothingLeft(file: seq<Byte>, reports: nat)
    ensures ReadRecord(file, |file|, false, [], reports) == Result(None, |file|, reports)
  {
    var end := BlockEnd(file, |file|);
    assert end == |file| && Short(file, |file|);
  }

  lemma {:induction false} ReadsLog(file: seq<Byte>, p: nat, offset: nat, records: seq<seq<Byte>>)
    requires p <= |file| && offset <= BLOCK && p % BLOCK == offset % BLOCK
    requires Holds(file, p, Records(offset, records)) && |file| <= p + |Records(offset, records)|
    ensures ReadAll(file, p) == All(records[..Complete(offset, records, |file| - p)], 0)
    decreases |records|
  {
    hide Record, ReadRecord, Holds;
    if records == [] {
      NothingLeft(file, 0);
    } else {
      var first, rest := Record(offset, records[0], true), Records(EndOf(offset, records[0]), records[1..]);
      HoldsParts(file, p, first, rest);
      ReadsRecord(file, p, offset, records[0], true, [], 0);
      EndMod(p, offset, records[0], true);
      assert [] + records[0] == records[0];
      if p + |first| <= |file| {
        var k := Complete(EndOf(offset, records[0]), records[1..], |file| - p - |first|);
        ReadsLog(file, p + |first|, EndOf(offset, records[0]), records[1..]);
        assert [records[0]] + records[1..][..k] == records[..1 + k];
      }
    }
  }

  lemma PrefixHolds(all: seq<Byte>, k: nat)
    requires k <= |all|
    ensures Holds(all[..k], 0, all)
  {
    var file := all[..k];
    assert file[0..] == file && file[..k] == file;
    assert k == |all| ==> file == all;
  }

  /** Any truncation of a log reads as exactly the records that are wholly in it,
      with no corruption reported. */
  lemma TruncatedLog(records: seq<seq<Byte>>, k: nat)
    requires k <= |Records(0, records)|
    ensures ReadAll(Records(0, records)[..k], 0) == All(records[..Complete(0, records, k)], 0)
  {
    hide ReadAll, Records, Complete, Holds;
    PrefixHolds(Records(0, records), k);
    ReadsLog(Records(0, records)[..k], 0, 0, records);
  }

  lemma {:induction false} AllComplete(offset: nat, records: seq<seq<Byte>>)
    requires offset <= BLOCK
    ensures Complete(offset, records, |Records(offset, records)|) == |records|
    decreases |records|
  {
    if records != [] {
      AllComplete(EndOf(offset, records[0]), records[1..]);
    }
  }

  /** The reader returns every list of records as it was written. */
  lemma LogRoundTrip(records: seq<seq<Byte>>)
    ensures ReadAll(Records(0, records), 0) == All(records, 0)
  {
    var file := Records(0, records);
    TruncatedLog(records, |file|);
    AllComplete(0, records);
    assert file[..|file|] == file && records[..|records|] == records;
  }

  // ----- reopening for append

  function EndOfAll(offset: nat, records: seq<seq<Byte>>): (r: nat)
    requires offset <= BLOCK
    ensures r <= BLOCK
    decreases |records|
  {
    if records == [] then offset else EndOfAll(EndOf(offset, records[0]), records[1..])
  }

  lemma {:induction false} RecordsAppend(offset: nat, a: seq<seq<Byte>>, b: seq<seq<Byte>>)
    requires offset <= BLOCK
    ensures Records(offset, a + b) == Records(offset, a) + Records(EndOfAll(offset, a), b)
    decreases |a|
  {
    hide Record;
    if a == [] {
      assert a + b == b;
    } else {
      assert (a + b)[1..] == a[1..] + b;
      RecordsAppend(EndOf(offset, a[0]), a[1..], b);
    }
  }

  lemma {:induction false} LengthMod(p: nat, offset: nat, records: seq<seq<Byte>>)
    requires offset <= BLOCK && p % BLOCK == offset % BLOCK
    ensures (p + |Records(offset, records)|) % BLOCK == EndOfAll(offset, records) % BLOCK
    decreases |records|
  {
    hide Record;
    if records != [] {
      EndMod(p, offset, records[0], true);
      LengthMod(p + |Record(offset, records[0], true)|, EndOf(offset, records[0]), records[1..]);
    }
  }

  /** A full block and a new one are the same place. */
  lemma BoundaryIsStart(records: seq<seq<Byte>>)
    ensures Records(BLOCK, records) == Records(0, records)
  {
    if records != [] {
      assert Trailer(BLOCK) == Trailer(0) && Start(BLOCK) == Start(0);
      assert Record(BLOCK, records[0], true) == Record(0, records[0], true);
    }
  }

  /** A writer reopened at the current length writes what it would have written had
      it never been closed. */
  lemma ReopenedWriter(a: seq<seq<Byte>>, b: seq<seq<Byte>>)
    ensures Records(0, a + b) == Records(0, a) + Records(|Records(0, a)| % BLOCK, b)
  {
    hide Records;
    RecordsAppend(0, a, b);
    LengthMod(0, 0, a);
    BoundaryIsStart(b);
    assert EndOfAll(0, a) == BLOCK || EndOfAll(0, a) == |Records(0, a)| % BLOCK;
  }

  // ----- the reader object

  /** The last `n` bytes before `pos` are the rest of a block, or of the file. */
  lemma TailOfBlock(file: seq<Byte>, pos: nat, n: nat, eof: bool)
    requires n <= pos <= |file|
    requires if eof then pos == |file| && n <= |file| % BLOCK else pos % BLOCK == 0 && n <= BLOCK
    ensures n > 0 || eof ==> BlockEnd(file, pos - n) == pos && Short(file, pos - n) == eof
    ensures 0 < n < HEADER && !eof ==> ReadPhysical(file, pos - n) == ReadPhysical(file, pos)
    ensures n < HEADER && eof ==> ReadPhysical(file, pos - n) == Eof
  {
    hide Parse;
  }

  /** The physical record at the front of a buffer that ends at `pos`. */
  function ParseBuffer(pos: nat, buffer: seq<Byte>, eof: bool): Physical
    requires HEADER <= |buffer| <= pos
  {
    var header, n := buffer[..HEADER], Length(buffer[..HEADER]);
    if HEADER + n > |buffer| then if eof then Eof else Bad(true, pos)
    else if header[6] == ZERO && n == 0 then Bad(false, pos)
    else if !ChecksumOk(header, buffer[HEADER..HEADER + n]) then Bad(true, pos)
    else Physical.Fragment(header[6], buffer[HEADER..HEADER + n], pos - (|buffer| - HEADER - n))
  }

  lemma ParsesBuffer(file: seq<Byte>, pos: nat, buffer: seq<Byte>, eof: bool)
    requires HEADER <= |buffer| <= pos <= |file| && buffer == file[pos - |buffer|..pos]
    requires if eof then pos == |file| && |buffer| <= |file| % BLOCK else pos % BLOCK == 0 && |buffer| <= BLOCK
    ensures ReadPhysical(file, pos - |buffer|) == ParseBuffer(pos, buffer, eof)
  {
    hide Parse, ParseBuffer;
    TailOfBlock(file, pos, |buffer|, eof);
    SameParse(file, pos, buffer, eof);
  }

  lemma SameParse(file: seq<Byte>, pos: nat, buffer: seq<Byte>, eof: bool)
    requires HEADER <= |buffer| <= pos <= |file| && buffer == file[pos - |buffer|..pos]
    requires BlockEnd(file, pos - |buffer|) == pos && Short(file, pos - |buffer|) == eof
    ensures Parse(file, pos - |buffer|) == ParseBuffer(pos, buffer, eof)
  {
    hide Length, ChecksumOk, BlockEnd, Short;
    var p, n := pos - |buffer|, Length(buffer[..HEADER]);
    SubSlice(file, p, pos, 0, HEADER);
    if HEADER + n <= |buffer| {
      SubSlice(file, p, pos, HEADER, HEADER + n);
    }
  }

  class Reader {
    const file: seq<Byte>
    var pos: nat
    var buffer: seq<Byte>
    var eof: bool
    var reports: nat

    /** The buffer is what is left of the block last read. */
    ghost predicate Ok()
      reads this`pos, this`buffer, this`eof
    {
      && |buffer| <= pos <= |file| && buffer == file[pos - |buffer|..pos]
      && (if eof then pos == |file| && |buffer| <= |file| % BLOCK else pos % BLOCK == 0 && |buffer| <= BLOCK)
    }

    /** Where in the file the next fragment starts. */
    ghost function At(): nat
      requires Ok()
      reads this`pos, this`buffer, this`eof
    {
      pos - |buffer|
    }

    constructor (file: seq<Byte>)
      ensures this.file == file && Ok() && At() == 0 && reports == 0
    {
      this.file := file;
      pos, buffer, eof, reports := 0, [], false, 0;
    }

    /** One block read. */
    method Fill()
      requires Ok() && !eof
      modifies this`pos, this`buffer, this`eof
      ensures Ok() && At() == old(pos) && (eof || |buffer| == BLOCK)
    {
      var n := if BLOCK <= |file| - pos then BLOCK else |file| - pos;
      buffer, pos := file[pos..pos + n], pos + n;
      if n < BLOCK {
        eof := true;
      }
    }

    /** Blocks are read until a header is there or the file ends. */
    method FindHeader() returns (found: bool)
      requires Ok()
      modifies this`pos, this`buffer, this`eof
      ensures Ok() && ReadPhysical(file, At()) == ReadPhysical(file, old(At()))
      ensures if found then |buffer| >= HEADER else ReadPhysical(file, old(At())) == Eof
    {
      hide Parse;
      while |buffer| < HEADER
        invariant Ok() && ReadPhysical(file, At()) == ReadPhysical(file, old(At()))
        decreases !eof, |file| - pos
      {
        TailOfBlock(file, pos, |buffer|, eof);
        if eof {
          return false;
        }
        Fill();
      }
      found := true;
    }

    method ParseHeader() returns (r: Physical)
      requires Ok() && |buffer| >= HEADER
      modifies this`buffer
      ensures Ok() && r == ReadPhysical(file, old(At())) && (!r.Eof? ==> At() == r.next)
    {
      hide Length, ChecksumOk, ReadPhysical;
      var header := buffer[..HEADER];
      var length := Length(header);
      ghost var p := At();
      ParsesBuffer(file, pos, buffer, eof);
      if HEADER + length > |buffer| {
        buffer := [];
        return if eof then Eof else Bad(true, pos);
      }
      var payload := buffer[HEADER..HEADER + length];
      if header[6] == ZERO && length == 0 {
        buffer := [];
        r := Bad(false, pos);
      } else if !ChecksumOk(header, payload) {
        buffer := [];
        r := Bad(true, pos);
      } else {
        r := Physical.Fragment(header[6], payload, pos - (|buffer| - HEADER - length));
        SubSlice(file, p, pos, HEADER + length, |buffer|);
        buffer := buffer[HEADER + length..];
      }
    }

    method ReadPhysicalRecord() returns (r: Physical)
      requires Ok()
      modifies this`pos, this`buffer, this`eof
      ensures Ok() && r == ReadPhysical(file, old(At())) && (!r.Eof? ==> At() == r.next)
    {
      hide ReadPhysical;
      var found := FindHeader();
      if !found {
        buffer := [];
        return Eof;
      }
      r := ParseHeader();
    }

    method ReadOneRecord() returns (record: Option<seq<Byte>>)
      requires Ok()
      modifies this
      ensures var r := ReadRecord(file, old(At()), false, [], old(reports));
              && record == r.record && reports == r.reports
              && Ok() && (record.Some? ==> At() == r.next)
    {
      hide ReadPhysical, Decide;
      var scratch: seq<Byte>, inFragment := [], false;
      ghost var want := ReadRecord(file, At(), false, [], reports);
      while true
        invariant Ok() && ReadRecord(file, At(), inFragment, scratch, reports) == want
        decreases |file| - At()
      {
        var r := ReadPhysicalRecord();
        var d := Handle(r, inFragment, scratch);
        reports := reports + d.more;
        if d.Return? {
          return d.record;
        }
        inFragment, scratch := d.inFragment, d.scratch;
      }
    }

    /** Everything the reader returns, from a fresh reader to the end of the file. */
    method ReadToEnd() returns (records: seq<seq<Byte>>)
      requires Ok()
      modifies this
      ensures var all := ReadAll(file, old(At())); records == all.records && reports == old(reports) + all.reports
    {
      records := [];
      ghost var start := At();
      ghost var before := reports;
      while true
        invariant Ok() && reports >= before
        invariant var rest, all := ReadAll(file, At()), ReadAll(file, start);
                  records + rest.records == all.records && reports + rest.reports == before + all.reports
        decreases |file| - At()
      {
        ReportsAdd(file, At(), false, [], reports);
        var r := ReadOneRecord();
        if r.None? {
          return;
        }
        records := records + [r.value];
      }
    }
  }

  /** Reports already made do not change what is read. */
  lemma {:induction false} ReportsAdd(file: seq<Byte>, p: nat, inFragment: bool, scratch: seq<Byte>, reports: nat)
    requires p <= |file|
    ensures var r, r0 := ReadRecord(file, p, inFragment, scratch, reports), ReadRecord(file, p, inFragment, scratch, 0);
            r == Result(r0.record, r0.next, r0.reports + reports)
  {
    ReportsShift(file, p, inFragment, scratch, 0, reports);
  }

  lemma {:induction false} ReportsShift(file: seq<Byte>, p: nat, inFragment: bool, scratch: seq<Byte>, a: nat, b: nat)
    requires p <= |file|
    ensures var r, r0 := ReadRecord(file, p, inFragment, scratch, a + b), ReadRecord(file, p, inFragment, scratch, a);
            r == Result(r0.record, r0.next, r0.reports + b)
    decreases |file| - p
  {
    hide ReadPhysical, Decide;
    var r := ReadPhysical(file, p);
    var d := Decide(r, inFragment, scratch);
    if d.GoOn? {
      ReportsShift(file, r.next, d.inFragment, d.scratch, a + d.more, b);
    }
  }

  /** The switch of ReadRecord on the type of a physical record. */
  method Handle(r: Physical, inFragment: bool, scratch: seq<Byte>) returns (d: Decision)
    ensures d == Decide(r, inFragment, scratch)
  {
    match r {
      case Eof =>
        d := Return(None, 0);
      case Bad(reported, _) =>
        d := GoOn(false, [], One(reported) + One(inFragment));
      case Fragment(t, data, _) =>
        if t == FULL {
          d := Return(Some(data), One(inFragment && scratch != []));
        } else if t == FIRST {
          d := GoOn(true, data, One(inFragment && scratch != []));
        } else if t == MIDDLE {
          d := if inFragment then GoOn(true, scratch + data, 0) else GoOn(false, scratch, 1);
        } else if t == LAST {
          d := if inFragment then Return(Some(scratch + data), 0) else GoOn(false, scratch, 1);
        } else if t == EOF_TYPE {
          d := Return(None, 0);
        } else {
          d := GoOn(false, [], if t == BAD_TYPE then One(inFragment) else 1);
        }
    }
  }
}
