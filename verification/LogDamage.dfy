/** What the log reader makes of any bytes, damaged or not: a fragment is read exactly
    where the bytes of one stand, and the records are exactly the whole runs of
    fragments, in order (db/log_reader.cc). */
module LogDamage {
  import opened Format
  import opened Bytes
  import Crc32c
  import opened LogFormat
  import opened LogReader

  // ----- physical records

  /** A header whose length and checksum fit the payload is the one a writer would write. */
  lemma HeaderIs(h: seq<Byte>, data: seq<Byte>)
    requires |h| == HEADER && Length(h) == |data| && ChecksumOk(h, data)
    ensures |data| < 65536 && h == Header(h[6], data)
  {
    hide Crc32c.Value, Crc32c.Mask, Crc32c.Unmask, Fixed32, ByteOf, NatOf, Crc32c.LoadWord;
    NatRoundTrip(h[4]);
    NatRoundTrip(h[5]);
    Crc32c.MaskUnmask(DecodeFixed32(h[..4]));
    WordBytes(h[0], h[1], h[2], h[3]);
    assert h[..4] == [h[0], h[1], h[2], h[3]];
    assert |data| % 256 == NatOf(h[4]) && |data| / 256 == NatOf(h[5]);
    assert h == h[..4] + [h[4], h[5], h[6]];
  }

  /** Where the next header can be: a tail of a block that is too short for one is skipped. */
  function Place(file: seq<Byte>, p: nat): nat {
    if BLOCK - p % BLOCK < HEADER then p - p % BLOCK + BLOCK else p
  }

  /** The bytes of a written fragment, other than the one of zeros, stand at `s` within a
      block. */
  ghost predicate FragmentAt(file: seq<Byte>, s: nat, t: Byte, data: seq<Byte>) {
    && s % BLOCK + HEADER + |data| <= BLOCK && (t != 0 || data != [])
    && s + HEADER + |data| <= |file| && file[s..s + HEADER + |data|] == LogFormat.Fragment(t, data)
  }

  /** The length in the header at `s` points behind the end of the file. */
  ghost predicate PointsBehind(file: seq<Byte>, s: nat) {
    s + HEADER > |file| || s + HEADER + Length(file[s..s + HEADER]) > |file|
  }

  /** The last block of the file is not whole. */
  ghost predicate InLastBlock(file: seq<Byte>, s: nat) {
    s - s % BLOCK + BLOCK > |file|
  }

  /** A zero type with a zero length, as a preallocated file shows it. */
  ghost predicate IsPadding(file: seq<Byte>, s: nat) {
    s + HEADER <= |file| && file[s + 6] == 0 && Length(file[s..s + HEADER]) == 0
  }

  /** On any bytes: a fragment if and only if one stands there; the end if and only if what
      stands there runs over the end of a last block; and all else is damage, with which
      the rest of the block is given up. */
  lemma PhysicalIs(file: seq<Byte>, p: nat)
    requires p <= |file|
    ensures var r, s := ReadPhysical(file, p), Place(file, p);
            && (forall t, data, next :: r == Physical.Fragment(t, data, next)
                                        <==> FragmentAt(file, s, t, data) && next == s + HEADER + |data|)
            && (r.Eof? <==> InLastBlock(file, s) && PointsBehind(file, s))
            && (r.Bad? ==> r.next == BlockEnd(file, s) && (r.reported <==> !IsPadding(file, s)))
  {
    hide Parse, FragmentAt;
    var s := Place(file, p);
    if BLOCK - p % BLOCK < HEADER && s <= |file| {
      BlockAfter(p, p % BLOCK);
    }
    if s + HEADER <= |file| {
      ParseIs(file, s);
    } else {
      forall t, data
        ensures !FragmentAt(file, s, t, data)
      {
        TooShort(file, s, t, data);
      }
    }
  }

  lemma TooShort(file: seq<Byte>, s: nat, t: Byte, data: seq<Byte>)
    requires s + HEADER > |file|
    ensures !FragmentAt(file, s, t, data)
  {
  }

  lemma ParseIs(file: seq<Byte>, s: nat)
    requires s + HEADER <= |file| && BLOCK - s % BLOCK >= HEADER
    ensures BlockEnd(file, s) - s >= HEADER
    ensures var r := Parse(file, s);
            && (forall t, data, next :: r == Physical.Fragment(t, data, next)
                                        <==> FragmentAt(file, s, t, data) && next == s + HEADER + |data|)
            && (r.Eof? <==> InLastBlock(file, s) && PointsBehind(file, s))
            && (r.Bad? ==> r.next == BlockEnd(file, s) && (r.reported <==> !IsPadding(file, s)))
  {
    hide Length, ChecksumOk, FragmentAt;
    var r := Parse(file, s);
    if r.Fragment? {
      ParsedStands(file, s);
    }
    forall t, data | FragmentAt(file, s, t, data)
      ensures r == Physical.Fragment(t, data, s + HEADER + |data|)
    {
      StandingParses(file, s, t, data);
    }
  }

  lemma ParsedStands(file: seq<Byte>, s: nat)
    requires s + HEADER <= |file| && BlockEnd(file, s) - s >= HEADER && Parse(file, s).Fragment?
    ensures var r := Parse(file, s); FragmentAt(file, s, r.t, r.data) && r.next == s + HEADER + |r.data|
  {
    hide Length, ChecksumOk, Header;
    var r, header := Parse(file, s), file[s..s + HEADER];
    HeaderIs(header, r.data);
    assert file[s..r.next] == header + r.data;
  }

  lemma StandingParses(file: seq<Byte>, s: nat, t: Byte, data: seq<Byte>)
    requires FragmentAt(file, s, t, data)
    ensures BlockEnd(file, s) - s >= HEADER && Parse(file, s) == Physical.Fragment(t, data, s + HEADER + |data|)
  {
    hide Length, ChecksumOk, Header;
    var header := file[s..s + HEADER];
    HeaderReads(t, data);
    assert header == file[s..s + HEADER + |data|][..HEADER] == Header(t, data);
    assert file[s + HEADER..s + HEADER + |data|] == file[s..s + HEADER + |data|][HEADER..] == data;
  }

  // ----- whole records

  /** The physical records from `p` on, up to the end of the reading. */
  function Physicals(file: seq<Byte>, p: nat): seq<Physical>
    requires p <= |file|
    decreases |file| - p
  {
    var r := ReadPhysical(file, p);
    if r.Eof? || IsPiece(r, 5) then [] else [r] + Physicals(file, r.next)
  }

  predicate IsPiece(r: Physical, t: Byte) {
    r.Fragment? && r.t == t
  }

  /** Between `i` and `k` stand a first piece and middle pieces of a record, and nothing
      else. */
  ghost predicate Begun(ps: seq<Physical>, i: nat, k: nat) {
    i < k <= |ps| && IsPiece(ps[i], 2) && forall m :: i < m < k ==> IsPiece(ps[m], 3)
  }

  /** A whole record: one full piece, or a first, middle ones, and a last. */
  ghost predicate IsRecord(ps: seq<Physical>, i: nat, j: nat) {
    && i < j <= |ps|
    && ((i + 1 == j && IsPiece(ps[i], 1)) || (Begun(ps, i, j - 1) && IsPiece(ps[j - 1], 4)))
  }

  ghost predicate Ended(ps: seq<Physical>, j: nat) {
    exists i: nat :: IsRecord(ps, i, j)
  }

  function Payload(r: Physical): seq<Byte> {
    if r.Fragment? then r.data else []
  }

  function Joined(ps: seq<Physical>): seq<Byte> {
    if ps == [] then [] else Joined(ps[..|ps| - 1]) + Payload(ps[|ps| - 1])
  }

  ghost predicate Open(ps: seq<Physical>, k: nat) {
    exists i: nat :: Begun(ps, i, k)
  }

  /** A record is begun at `k`, and has bytes already. */
  ghost predicate OpenWithBytes(ps: seq<Physical>, k: nat) {
    exists i: nat :: Begun(ps, i, k) && Joined(ps[i..k]) != []
  }

  /** The corruption reports at piece `k`: for damage, for a begun record that does not go
      on, and for a piece that continues nothing. */
  ghost function ReportsAt(ps: seq<Physical>, k: nat): nat
    requires k < |ps|
  {
    match ps[k]
    case Eof => 0
    case Bad(reported, _) => One(reported) + One(Open(ps, k))
    case Fragment(t, _, _) =>
      if t == 1 || t == 2 then One(OpenWithBytes(ps, k))
      else if t == 3 || t == 4 then One(!Open(ps, k))
      else if t == 6 then One(Open(ps, k))
      else 1
  }

  ghost function ReportsTo(ps: seq<Physical>, n: nat): nat
    requires n <= |ps|
  {
    if n == 0 then 0 else ReportsTo(ps, n - 1) + ReportsAt(ps, n - 1)
  }

  /** The records that end among the first `n` pieces, in order. */
  ghost function RecordsTo(ps: seq<Physical>, n: nat): seq<seq<Byte>>
    requires n <= |ps|
  {
    if n == 0 then []
    else if Ended(ps, n) then
      var i: nat :| IsRecord(ps, i, n);
      RecordsTo(ps, n - 1) + [Joined(ps[i..n])]
    else RecordsTo(ps, n - 1)
  }

  // ----- the reader's state

  /** A record can be begun at one place only. */
  lemma BegunOnce(ps: seq<Physical>, i: nat, i': nat, k: nat)
    requires Begun(ps, i, k) && Begun(ps, i', k)
    ensures i == i'
  {
  }

  lemma RecordOnce(ps: seq<Physical>, i: nat, i': nat, j: nat)
    requires IsRecord(ps, i, j) && IsRecord(ps, i', j)
    ensures i == i'
  {
    if i != i' {
      BegunOnce(ps, i, i', j - 1);
    }
  }

  /** `at` is where the record begun at `k` starts, if there is one, and `scratch` its bytes. */
  ghost predicate Holding(ps: seq<Physical>, k: nat, at: Option<nat>, scratch: seq<Byte>)
    requires k <= |ps|
  {
    match at
    case Some(i) => Begun(ps, i, k) && scratch == Joined(ps[i..k])
    case None => !Open(ps, k)
  }

  lemma OneMorePiece(ps: seq<Physical>, i: nat, k: nat)
    requires i <= k < |ps|
    ensures Joined(ps[i..k + 1]) == Joined(ps[i..k]) + Payload(ps[k])
    ensures Joined(ps[k..k + 1]) == Payload(ps[k])
  {
    assert ps[i..k + 1][..k - i] == ps[i..k] && ps[k..k + 1][..0] == [] && Joined([]) == [];
  }

  /** What the piece at `k` may continue. */
  lemma OpenNext(ps: seq<Physical>, k: nat, i: nat)
    requires k < |ps| && Begun(ps, i, k + 1)
    ensures if IsPiece(ps[k], 2) then i == k else IsPiece(ps[k], 3) && Begun(ps, i, k)
  {
  }

  lemma NotOpenNext(ps: seq<Physical>, k: nat)
    requires k < |ps| && !IsPiece(ps[k], 2) && (IsPiece(ps[k], 3) ==> !Open(ps, k))
    ensures !Open(ps, k + 1)
  {
    if Open(ps, k + 1) {
      var i: nat :| Begun(ps, i, k + 1);
      OpenNext(ps, k, i);
    }
  }

  lemma NoRecordHere(ps: seq<Physical>, k: nat)
    requires k < |ps| && !IsPiece(ps[k], 1) && (IsPiece(ps[k], 4) ==> !Open(ps, k))
    ensures !Ended(ps, k + 1)
  {
  }

  lemma HoldingOpen(ps: seq<Physical>, k: nat, at: Option<nat>, scratch: seq<Byte>)
    requires k <= |ps| && Holding(ps, k, at, scratch)
    ensures Open(ps, k) <==> at.Some?
    ensures OpenWithBytes(ps, k) <==> at.Some? && scratch != []
  {
    if at.Some? {
      forall i: nat | Begun(ps, i, k)
        ensures i == at.value
      {
        BegunOnce(ps, i, at.value, k);
      }
    }
  }

  /** The reports of one decision. */
  lemma DecisionReports(ps: seq<Physical>, k: nat, at: Option<nat>, scratch: seq<Byte>)
    requires k < |ps| && Holding(ps, k, at, scratch) && !ps[k].Eof? && !IsPiece(ps[k], 5)
    ensures Decide(ps[k], at.Some?, scratch).more == ReportsAt(ps, k)
  {
    hide Holding, Open, OpenWithBytes;
    HoldingOpen(ps, k, at, scratch);
  }

  /** One decision: a record that ends here is returned, and else the state is kept. */
  lemma DecisionIs(ps: seq<Physical>, k: nat, at: Option<nat>, scratch: seq<Byte>) returns (at': Option<nat>)
    requires k < |ps| && Holding(ps, k, at, scratch) && !ps[k].Eof? && !IsPiece(ps[k], 5)
    ensures match Decide(ps[k], at.Some?, scratch)
            case Return(record, _) =>
              at'.Some? && IsRecord(ps, at'.value, k + 1) && record == Some(Joined(ps[at'.value..k + 1]))
            case GoOn(inFragment, rest, _) =>
              && !Ended(ps, k + 1) && inFragment == at'.Some? && Holding(ps, k + 1, at', rest)
  {
    hide Joined, Open;
    var d := Decide(ps[k], at.Some?, scratch);
    at' := None;
    if IsPiece(ps[k], 1) || IsPiece(ps[k], 2) {
      at' := Some(k);
      OneMorePiece(ps, k, k);
    } else if at.Some? && (IsPiece(ps[k], 3) || IsPiece(ps[k], 4)) {
      at' := at;
      OneMorePiece(ps, at.value, k);
    }
    if d.GoOn? {
      NoRecordHere(ps, k);
      if at'.None? {
        NotOpenNext(ps, k);
      }
    }
  }

  ghost predicate NoRecord(ps: seq<Physical>, a: int, b: int) {
    forall n: nat :: a < n <= b ==> !Ended(ps, n)
  }

  /** Behind `k` the first record ends at `j`, and `r` is it; or none does. */
  ghost predicate IsNext(file: seq<Byte>, ps: seq<Physical>, k: nat, r: Result, j: nat)
    requires r.record.Some? ==> r.next <= |file|
  {
    && k <= j <= |ps|
    && match r.record
       case Some(data) =>
         && k < j && NoRecord(ps, k, j - 1) && Physicals(file, r.next) == ps[j..]
         && exists i: nat :: IsRecord(ps, i, j) && data == Joined(ps[i..j])
       case None => j == |ps| && NoRecord(ps, k, j)
  }

  lemma PhysicalsAt(file: seq<Byte>, p: nat, ps: seq<Physical>, k: nat)
    requires p <= |file| && k <= |ps| && Physicals(file, p) == ps[k..]
    ensures var r := ReadPhysical(file, p);
            if r.Eof? || IsPiece(r, 5) then k == |ps|
            else k < |ps| && ps[k] == r && Physicals(file, r.next) == ps[k + 1..]
  {
    hide ReadPhysical;
    var r := ReadPhysical(file, p);
    if !r.Eof? && !IsPiece(r, 5) {
      assert ps[k..][0] == r && ps[k..][1..] == ps[k + 1..];
    }
  }

  /** From any state of the reader: it returns the first record that ends behind `k`, and
      makes the reports of all pieces up to there. */
  lemma {:induction false} RecordFrom(file: seq<Byte>, p: nat, ps: seq<Physical>, k: nat, at: Option<nat>,
                                      scratch: seq<Byte>, reports: nat) returns (j: nat)
    requires p <= |file| && k <= |ps| && Physicals(file, p) == ps[k..] && Holding(ps, k, at, scratch)
    ensures var r := ReadRecord(file, p, at.Some?, scratch, reports);
            IsNext(file, ps, k, r, j) && r.reports + ReportsTo(ps, k) == reports + ReportsTo(ps, j)
    decreases |file| - p
  {
    hide ReadPhysical, Holding, Decide, ReportsAt, IsRecord, Physicals, Joined, Ended;
    var r := ReadPhysical(file, p);
    j := k;
    PhysicalsAt(file, p, ps, k);
    DecidesEnd(r, at.Some?, scratch);
    if !r.Eof? && !IsPiece(r, 5) {
      DecisionReports(ps, k, at, scratch);
      var at' := DecisionIs(ps, k, at, scratch);
      var d := Decide(r, at.Some?, scratch);
      if d.Return? {
        j := k + 1;
      } else {
        j := RecordFrom(file, r.next, ps, k + 1, at', d.scratch, reports + d.more);
      }
    }
  }

  lemma DecidesEnd(r: Physical, inFragment: bool, scratch: seq<Byte>)
    ensures r.Eof? || IsPiece(r, 5) ==> Decide(r, inFragment, scratch) == Return(None, 0)
  {
  }

  // ----- what is read

  /** Nothing is begun behind a record. */
  lemma ClosedBehind(ps: seq<Physical>, i: nat, j: nat)
    requires IsRecord(ps, i, j)
    ensures !Open(ps, j)
  {
    NotOpenNext(ps, j - 1);
  }

  lemma {:induction false} RecordsSkip(ps: seq<Physical>, a: nat, b: nat)
    requires a <= b <= |ps| && NoRecord(ps, a, b)
    ensures RecordsTo(ps, b) == RecordsTo(ps, a)
  {
    if a < b {
      RecordsSkip(ps, a, b - 1);
    }
  }

  /** ReadRecord on any bytes: it returns the first whole run of pieces, joined. */
  lemma ReadsFirstRecord(file: seq<Byte>, p: nat) returns (j: nat)
    requires p <= |file|
    ensures var ps, r := Physicals(file, p), ReadRecord(file, p, false, [], 0);
            IsNext(file, ps, 0, r, j) && r.reports == ReportsTo(ps, j)
  {
    var ps := Physicals(file, p);
    assert ps[0..] == ps;
    j := RecordFrom(file, p, ps, 0, None, [], 0);
  }

  lemma {:induction false} AllFrom(file: seq<Byte>, p: nat, ps: seq<Physical>, k: nat)
    requires p <= |file| && k <= |ps| && Physicals(file, p) == ps[k..] && !Open(ps, k)
    ensures var all := ReadAll(file, p);
            && RecordsTo(ps, k) + all.records == RecordsTo(ps, |ps|)
            && ReportsTo(ps, k) + all.reports == ReportsTo(ps, |ps|)
    decreases |file| - p
  {
    hide ReadRecord, IsRecord, Joined, Physicals, Open, ReportsAt, Ended;
    var j := RecordFrom(file, p, ps, k, None, [], 0);
    var r := ReadRecord(file, p, false, [], 0);
    if r.record.Some? {
      var i := StartOfNext(file, ps, k, r, j);
      RecordsSkip(ps, k, j - 1);
      OneMoreRecord(ps, i, j);
      ClosedBehind(ps, i, j);
      AllFrom(file, r.next, ps, j);
    } else {
      RecordsSkip(ps, k, j);
    }
  }

  lemma StartOfNext(file: seq<Byte>, ps: seq<Physical>, k: nat, r: Result, j: nat) returns (i: nat)
    requires r.record.Some? && r.next <= |file| && IsNext(file, ps, k, r, j)
    ensures i < j <= |ps| && IsRecord(ps, i, j) && r.record.value == Joined(ps[i..j])
  {
    i :| IsRecord(ps, i, j) && r.record.value == Joined(ps[i..j]);
  }

  lemma OneMoreRecord(ps: seq<Physical>, i: nat, j: nat)
    requires IsRecord(ps, i, j)
    ensures RecordsTo(ps, j) == RecordsTo(ps, j - 1) + [Joined(ps[i..j])]
  {
    hide Joined;
    forall i': nat | IsRecord(ps, i', j)
      ensures i' == i
    {
      RecordOnce(ps, i, i', j);
    }
  }

  /** Reading to the end on any bytes: exactly the whole records, in order, each piece
      with its reports. */
  lemma ReadsAllRecords(file: seq<Byte>)
    ensures var ps, all := Physicals(file, 0), ReadAll(file, 0);
            all.records == RecordsTo(ps, |ps|) && all.reports == ReportsTo(ps, |ps|)
  {
    hide Physicals, ReadAll;
    var ps := Physicals(file, 0);
    assert ps[0..] == ps;
    AllFrom(file, 0, ps, 0);
  }
}
