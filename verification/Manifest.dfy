/** The bytes of a VersionEdit (db/version_edit.cc), and a whole manifest: edits
    encoded, written to a log, read back and decoded. */
module Manifest {
  import opened Format
  import opened Bytes
  import opened Coding
  import opened LogFormat
  import opened LogReader

  datatype FileMeta = FileMeta(number: nat, size: nat, smallest: seq<Byte>, largest: seq<Byte>)

  /** One tagged item of an encoded edit. */
  datatype Field =
    | Comparator(name: seq<Byte>)
    | LogNumber(n: nat) | PrevLogNumber(n: nat) | NextFileNumber(n: nat) | LastSequence(n: nat)
    | CompactPointer(level: nat, key: seq<Byte>)
    | DeletedFile(level: nat, number: nat)
    | NewFile(level: nat, file: FileMeta)

  datatype VersionEdit = VersionEdit(
    comparator: Option<seq<Byte>>,
    logNumber: Option<nat>,
    prevLogNumber: Option<nat>,
    nextFileNumber: Option<nat>,
    lastSequence: Option<nat>,
    pointers: seq<(nat, seq<Byte>)>,
    deleted: seq<(nat, nat)>,
    added: seq<(nat, FileMeta)>)

  const CLEAR := VersionEdit(None, None, None, None, None, [], [], [])

  // ----- one field

  /** Numbers fit their words, lengths fit 32 bits, levels exist. */
  predicate FieldOk(f: Field) {
    match f
    case Comparator(name) => |name| < LIMIT32
    case CompactPointer(level, key) => level < NUM_LEVELS && |key| < LIMIT32
    case DeletedFile(level, number) => level < NUM_LEVELS && number < LIMIT64
    case NewFile(level, f) =>
      level < NUM_LEVELS && f.number < LIMIT64 && f.size < LIMIT64 && |f.smallest| < LIMIT32 && |f.largest| < LIMIT32
    case _ => f.n < LIMIT64
  }

  function GetLevel(b: seq<Byte>): (d: Decoded<nat>)
    ensures d.Some? ==> |d.value.1| < |b|
  {
    var r := GetVarint32(b);
    if r.Some? && r.value.0 < NUM_LEVELS then r else None
  }

  function GetNewFile(b: seq<Byte>): (d: Decoded<Field>)
    ensures d.Some? ==> |d.value.1| < |b|
  {
    var l := GetLevel(b);
    if l.None? then None else
    var n := GetVarint64(l.value.1);
    if n.None? then None else
    var z := GetVarint64(n.value.1);
    if z.None? then None else
    var s := GetPrefixed(z.value.1);
    if s.None? then None else
    var g := GetPrefixed(s.value.1);
    if g.None? then None else Some((NewFile(l.value.0, FileMeta(n.value.0, z.value.0, s.value.0, g.value.0)),
                                    g.value.1))
  }

  function NumberField(tag: nat, n: nat): Field {
    if tag == 2 then LogNumber(n) else if tag == 9 then PrevLogNumber(n)
    else if tag == 3 then NextFileNumber(n) else LastSequence(n)
  }

  function GetNumber(tag: nat, b: seq<Byte>): (d: Decoded<Field>)
    ensures d.Some? ==> |d.value.1| < |b|
  {
    var r := GetVarint64(b);
    if r.None? then None else Some((NumberField(tag, r.value.0), r.value.1))
  }

  /** The body of one case of the decoding loop; None is its error. */
  function DecodeBody(tag: nat, b: seq<Byte>): (d: Decoded<Field>)
    ensures d.Some? ==> |d.value.1| < |b|
  {
    if tag == 1 then
      var s := GetPrefixed(b);
      if s.None? then None else Some((Comparator(s.value.0), s.value.1))
    else if tag == 2 || tag == 9 || tag == 3 || tag == 4 then GetNumber(tag, b)
    else if tag == 5 then
      var l := GetLevel(b);
      if l.None? then None else
      var s := GetPrefixed(l.value.1);
      if s.None? then None else Some((CompactPointer(l.value.0, s.value.0), s.value.1))
    else if tag == 6 then
      var l := GetLevel(b);
      if l.None? then None else
      var n := GetVarint64(l.value.1);
      if n.None? then None else Some((DeletedFile(l.value.0, n.value.0), n.value.1))
    else if tag == 7 then GetNewFile(b)
    else None
  }

  lemma NumberRoundTrip(tag: nat, n: nat, rest: seq<Byte>)
    requires n < LIMIT64
    ensures GetNumber(tag, Varint(n) + rest) == Some((NumberField(tag, n), rest))
  {
    hide Varint, GetVarint64;
    Varint64RoundTrip(n, rest);
  }

  lemma LevelRoundTrip(level: nat, rest: seq<Byte>)
    requires level < NUM_LEVELS
    ensures GetLevel(Varint(level) + rest) == Some((level, rest))
  {
    hide Varint, GetVarint32;
    Varint32RoundTrip(level, rest);
  }

  lemma PointerRoundTrip(level: nat, key: seq<Byte>, rest: seq<Byte>)
    requires level < NUM_LEVELS && |key| < LIMIT32
    ensures DecodeBody(5, Varint(level) + Prefixed(key) + rest) == Some((CompactPointer(level, key), rest))
  {
    hide Varint, GetLevel, GetPrefixed, Prefixed;
    assert Varint(level) + Prefixed(key) + rest == Varint(level) + (Prefixed(key) + rest);
    LevelRoundTrip(level, Prefixed(key) + rest);
    PrefixedRoundTrip(key, rest);
  }

  lemma DeletedRoundTrip(level: nat, number: nat, rest: seq<Byte>)
    requires level < NUM_LEVELS && number < LIMIT64
    ensures DecodeBody(6, Varint(level) + Varint(number) + rest) == Some((DeletedFile(level, number), rest))
  {
    hide Varint, GetLevel, GetVarint64;
    assert Varint(level) + Varint(number) + rest == Varint(level) + (Varint(number) + rest);
    LevelRoundTrip(level, Varint(number) + rest);
    Varint64RoundTrip(number, rest);
  }

  lemma NewFileRoundTrip(level: nat, f: FileMeta, rest: seq<Byte>)
    requires FieldOk(NewFile(level, f))
    ensures var keys := Prefixed(f.smallest) + Prefixed(f.largest);
            GetNewFile(Varint(level) + (Varint(f.number) + (Varint(f.size) + keys)) + rest)
            == Some((NewFile(level, f), rest))
  {
    hide Varint, GetLevel, GetVarint64, GetPrefixed, Prefixed;
    var r4 := Prefixed(f.largest) + rest;
    var r3 := Prefixed(f.smallest) + r4;
    var r2 := Varint(f.size) + r3;
    var r1 := Varint(f.number) + r2;
    assert Varint(level) + (Varint(f.number) + (Varint(f.size) + (Prefixed(f.smallest) + Prefixed(f.largest)))) + rest
        == Varint(level) + r1;
    LevelRoundTrip(level, r1);
    Varint64RoundTrip(f.number, r2);
    Varint64RoundTrip(f.size, r3);
    PrefixedRoundTrip(f.smallest, r4);
    PrefixedRoundTrip(f.largest, rest);
  }

  function TagOf(f: Field): nat {
    match f
    case Comparator(_) => 1
    case LogNumber(_) => 2
    case PrevLogNumber(_) => 9
    case NextFileNumber(_) => 3
    case LastSequence(_) => 4
    case CompactPointer(_, _) => 5
    case DeletedFile(_, _) => 6
    case NewFile(_, _) => 7
  }

  function Body(f: Field): seq<Byte> {
    match f
    case Comparator(name) => Prefixed(name)
    case CompactPointer(level, key) => Varint(level) + Prefixed(key)
    case DeletedFile(level, number) => Varint(level) + Varint(number)
    case NewFile(level, f) =>
      Varint(level) + (Varint(f.number) + (Varint(f.size) + (Prefixed(f.smallest) + Prefixed(f.largest))))
    case _ => Varint(f.n)
  }

  lemma BodyRoundTrip(f: Field, rest: seq<Byte>)
    requires FieldOk(f)
    ensures DecodeBody(TagOf(f), Body(f) + rest) == Some((f, rest))
  {
    hide Varint, GetVarint64, GetVarint32, GetPrefixed, Prefixed, GetLevel, GetNewFile, GetNumber;
    match f {
      case Comparator(name) => PrefixedRoundTrip(name, rest);
      case CompactPointer(level, key) => PointerRoundTrip(level, key, rest);
      case DeletedFile(level, number) => DeletedRoundTrip(level, number, rest);
      case NewFile(level, file) => NewFileRoundTrip(level, file, rest);
      case _ => NumberRoundTrip(TagOf(f), f.n, rest);
    }
  }

  // ----- a whole edit

  predicate PairLess(a: (nat, nat), b: (nat, nat)) {
    a.0 < b.0 || (a.0 == b.0 && a.1 < b.1)
  }

  /** Insertion into the ordered set of deleted files. */
  function InsertPair(s: seq<(nat, nat)>, p: (nat, nat)): seq<(nat, nat)> {
    if s == [] then [p]
    else if PairLess(p, s[0]) then [p] + s
    else if PairLess(s[0], p) then [s[0]] + InsertPair(s[1..], p)
    else s
  }

  function Apply(e: VersionEdit, f: Field): VersionEdit {
    match f
    case Comparator(name) => e.(comparator := Some(name))
    case LogNumber(n) => e.(logNumber := Some(n))
    case PrevLogNumber(n) => e.(prevLogNumber := Some(n))
    case NextFileNumber(n) => e.(nextFileNumber := Some(n))
    case LastSequence(n) => e.(lastSequence := Some(n))
    case CompactPointer(level, key) => e.(pointers := e.pointers + [(level, key)])
    case DeletedFile(level, number) => e.(deleted := InsertPair(e.deleted, (level, number)))
    case NewFile(level, file) => e.(added := e.added + [(level, file)])
  }

  /** DecodeFrom into `e`: None is a corruption. */
  function Decode(b: seq<Byte>, e: VersionEdit): Option<VersionEdit>
    decreases |b|
  {
    var t := GetVarint32(b);
    if t.None? then if b == [] then Some(e) else None
    else
      var d := DecodeBody(t.value.0, t.value.1);
      if d.None? then None else Decode(d.value.1, Apply(e, d.value.0))
  }

  /** The fields stand one after the other in the bytes, and nothing else does. */
  ghost predicate FieldsStand(b: seq<Byte>, fs: seq<Field>)
    decreases |fs|
  {
    if fs == [] then b == []
    else
      var t := GetVarint32(b);
      t.Some? && var d := DecodeBody(t.value.0, t.value.1);
      d.Some? && d.value.0 == fs[0] && FieldsStand(d.value.1, fs[1..])
  }

  /** On any bytes: decoding succeeds if and only if they are fields, and then it applies
      them in order. */
  lemma {:induction false} DecodeApplies(b: seq<Byte>, e: VersionEdit, fs: seq<Field>)
    requires FieldsStand(b, fs)
    ensures Decode(b, e) == Some(ApplyAll(e, fs))
    decreases |fs|
  {
    hide DecodeBody, Apply;
    if fs == [] {
      NoTag();
    } else {
      var t := GetVarint32(b).value;
      DecodeApplies(DecodeBody(t.0, t.1).value.1, Apply(e, fs[0]), fs[1..]);
    }
  }

  lemma {:induction false} DecodedStand(b: seq<Byte>, e: VersionEdit) returns (fs: seq<Field>)
    requires Decode(b, e).Some?
    ensures FieldsStand(b, fs) && Decode(b, e) == Some(ApplyAll(e, fs))
    decreases |b|
  {
    hide GetVarint32, DecodeBody, Apply;
    fs := [];
    var t := GetVarint32(b);
    if t.Some? {
      var d := DecodeBody(t.value.0, t.value.1);
      var rest := DecodedStand(d.value.1, Apply(e, d.value.0));
      fs := [d.value.0] + rest;
      assert fs[1..] == rest;
    }
  }

  function EncodeFields(fs: seq<Field>): seq<Byte> {
    if fs == [] then [] else (Varint(TagOf(fs[0])) + Body(fs[0])) + EncodeFields(fs[1..])
  }

  function ApplyAll(e: VersionEdit, fs: seq<Field>): VersionEdit
    decreases |fs|
  {
    if fs == [] then e else ApplyAll(Apply(e, fs[0]), fs[1..])
  }

  lemma {:induction false} DecodeFields(fs: seq<Field>, e: VersionEdit)
    requires forall f :: f in fs ==> FieldOk(f)
    ensures Decode(EncodeFields(fs), e) == Some(ApplyAll(e, fs))
    decreases |fs|
  {
    hide Varint, GetVarint32, DecodeBody, Body, Apply;
    if fs == [] {
      NoTag();
    } else {
      var f, rest := fs[0], EncodeFields(fs[1..]);
      assert (Varint(TagOf(f)) + Body(f)) + rest == Varint(TagOf(f)) + (Body(f) + rest);
      Varint32RoundTrip(TagOf(f), Body(f) + rest);
      BodyRoundTrip(f, rest);
      DecodeFields(fs[1..], Apply(e, f));
    }
  }

  lemma NoTag()
    ensures GetVarint32([]) == None
  {
  }

  function ComparatorFields(o: Option<seq<Byte>>): seq<Field> {
    if o.Some? then [Comparator(o.value)] else []
  }

  function NumberFields(tag: nat, o: Option<nat>): seq<Field> {
    if o.Some? then [NumberField(tag, o.value)] else []
  }

  function PointerFields(ps: seq<(nat, seq<Byte>)>): seq<Field> {
    if ps == [] then [] else PointerFields(ps[..|ps| - 1]) + [CompactPointer(ps[|ps| - 1].0, ps[|ps| - 1].1)]
  }

  function DeletedFields(ds: seq<(nat, nat)>): seq<Field> {
    if ds == [] then [] else DeletedFields(ds[..|ds| - 1]) + [DeletedFile(ds[|ds| - 1].0, ds[|ds| - 1].1)]
  }

  function AddedFields(fs: seq<(nat, FileMeta)>): seq<Field> {
    if fs == [] then [] else AddedFields(fs[..|fs| - 1]) + [NewFile(fs[|fs| - 1].0, fs[|fs| - 1].1)]
  }

  function HeaderFields(e: VersionEdit): seq<Field> {
    ComparatorFields(e.comparator) + NumberFields(2, e.logNumber) + NumberFields(9, e.prevLogNumber)
    + NumberFields(3, e.nextFileNumber) + NumberFields(4, e.lastSequence)
  }

  /** The order in which EncodeTo writes. */
  function FieldsOf(e: VersionEdit): seq<Field> {
    HeaderFields(e) + PointerFields(e.pointers) + DeletedFields(e.deleted) + AddedFields(e.added)
  }

  function Encode(e: VersionEdit): seq<Byte> {
    EncodeFields(FieldsOf(e))
  }

  ghost predicate SortedPairs(ds: seq<(nat, nat)>) {
    forall i, j :: 0 <= i < j < |ds| ==> PairLess(ds[i], ds[j])
  }

  ghost predicate EditOk(e: VersionEdit) {
    SortedPairs(e.deleted) && forall f :: f in FieldsOf(e) ==> FieldOk(f)
  }

  lemma {:induction false} ApplyAppend(e: VersionEdit, a: seq<Field>, b: seq<Field>)
    ensures ApplyAll(e, a + b) == ApplyAll(ApplyAll(e, a), b)
    decreases |a|
  {
    hide Apply;
    if a == [] {
      assert a + b == b;
    } else {
      assert (a + b)[1..] == a[1..] + b;
      ApplyAppend(Apply(e, a[0]), a[1..], b);
    }
  }

  lemma ApplyOne(e: VersionEdit, f: Field)
    ensures ApplyAll(e, [f]) == Apply(e, f)
  {
    hide Apply;
    assert [f][1..] == [];
    assert ApplyAll(Apply(e, f), []) == Apply(e, f);
  }

  lemma {:induction false} ApplyPointers(e: VersionEdit, ps: seq<(nat, seq<Byte>)>)
    ensures ApplyAll(e, PointerFields(ps)) == e.(pointers := e.pointers + ps)
    decreases |ps|
  {
    if ps == [] {
      assert e.pointers + ps == e.pointers;
    } else {
      var init, last := ps[..|ps| - 1], ps[|ps| - 1];
      var f := CompactPointer(last.0, last.1);
      ApplyPointers(e, init);
      ApplyAppend(e, PointerFields(init), [f]);
      ApplyOne(ApplyAll(e, PointerFields(init)), f);
      assert e.pointers + init + [last] == e.pointers + ps;
    }
  }

  lemma {:induction false} InsertAtEnd(s: seq<(nat, nat)>, p: (nat, nat))
    requires forall i :: 0 <= i < |s| ==> PairLess(s[i], p)
    ensures InsertPair(s, p) == s + [p]
  {
    if s != [] {
      InsertAtEnd(s[1..], p);
    }
  }

  lemma {:induction false} ApplyDeleted(e: VersionEdit, ds: seq<(nat, nat)>)
    requires SortedPairs(ds) && e.deleted == []
    ensures ApplyAll(e, DeletedFields(ds)) == e.(deleted := ds)
    decreases |ds|
  {
    if ds != [] {
      var init, last := ds[..|ds| - 1], ds[|ds| - 1];
      var f := DeletedFile(last.0, last.1);
      ApplyDeleted(e, init);
      ApplyAppend(e, DeletedFields(init), [f]);
      ApplyOne(ApplyAll(e, DeletedFields(init)), f);
      InsertAtEnd(init, last);
      assert init + [last] == ds;
    }
  }

  lemma {:induction false} ApplyAdded(e: VersionEdit, fs: seq<(nat, FileMeta)>)
    ensures ApplyAll(e, AddedFields(fs)) == e.(added := e.added + fs)
    decreases |fs|
  {
    if fs == [] {
      assert e.added + fs == e.added;
    } else {
      var init, last := fs[..|fs| - 1], fs[|fs| - 1];
      var f := NewFile(last.0, last.1);
      ApplyAdded(e, init);
      ApplyAppend(e, AddedFields(init), [f]);
      ApplyOne(ApplyAll(e, AddedFields(init)), f);
      assert e.added + init + [last] == e.added + fs;
    }
  }

  lemma ApplyNumber(e: VersionEdit, tag: nat, o: Option<nat>)
    ensures ApplyAll(e, NumberFields(tag, o)) == if o.Some? then Apply(e, NumberField(tag, o.value)) else e
  {
    hide Apply, NumberField;
    if o.Some? {
      ApplyOne(e, NumberField(tag, o.value));
    }
  }

  lemma ApplyComparator(o: Option<seq<Byte>>)
    ensures ApplyAll(CLEAR, ComparatorFields(o)) == CLEAR.(comparator := o)
  {
    if o.Some? {
      ApplyOne(CLEAR, Comparator(o.value));
    }
  }

  lemma ApplyHeader(e: VersionEdit)
    ensures ApplyAll(CLEAR, HeaderFields(e))
            == VersionEdit(e.comparator, e.logNumber, e.prevLogNumber, e.nextFileNumber, e.lastSequence, [], [], [])
  {
    hide ApplyAll, ComparatorFields, NumberFields;
    var c, l, p := ComparatorFields(e.comparator), NumberFields(2, e.logNumber), NumberFields(9, e.prevLogNumber);
    var x, s := NumberFields(3, e.nextFileNumber), NumberFields(4, e.lastSequence);
    var e1 := CLEAR.(comparator := e.comparator);
    var e2 := e1.(logNumber := e.logNumber);
    var e3 := e2.(prevLogNumber := e.prevLogNumber);
    var e4 := e3.(nextFileNumber := e.nextFileNumber);
    ApplyComparator(e.comparator);
    ApplyAppend(CLEAR, c + l + p + x, s);
    ApplyAppend(CLEAR, c + l + p, x);
    ApplyAppend(CLEAR, c + l, p);
    ApplyAppend(CLEAR, c, l);
    ApplyNumber(e1, 2, e.logNumber);
    ApplyNumber(e2, 9, e.prevLogNumber);
    ApplyNumber(e3, 3, e.nextFileNumber);
    ApplyNumber(e4, 4, e.lastSequence);
  }

  /** Decoding an encoded edit into a fresh one gives the edit back. */
  lemma EditRoundTrip(e: VersionEdit)
    requires EditOk(e)
    ensures Decode(Encode(e), CLEAR) == Some(e)
  {
    hide ApplyAll, HeaderFields, PointerFields, DeletedFields, AddedFields, EncodeFields, Decode;
    DecodeFields(FieldsOf(e), CLEAR);
    var h, ps, ds, fs := HeaderFields(e), PointerFields(e.pointers), DeletedFields(e.deleted), AddedFields(e.added);
    ApplyAppend(CLEAR, h + ps + ds, fs);
    ApplyAppend(CLEAR, h + ps, ds);
    ApplyAppend(CLEAR, h, ps);
    ApplyHeader(e);
    var e1 := ApplyAll(CLEAR, h);
    ApplyPointers(e1, e.pointers);
    assert [] + e.pointers == e.pointers && [] + e.added == e.added;
    var e2 := e1.(pointers := e.pointers);
    ApplyDeleted(e2, e.deleted);
    ApplyAdded(e2.(deleted := e.deleted), e.added);
  }

  // ----- the encoder and the decoder as loops

  lemma {:induction false} EncodeAppend(a: seq<Field>, b: seq<Field>)
    ensures EncodeFields(a + b) == EncodeFields(a) + EncodeFields(b)
    decreases |a|
  {
    hide Varint, Body;
    if a == [] {
      assert a + b == b;
    } else {
      assert (a + b)[1..] == a[1..] + b;
      EncodeAppend(a[1..], b);
    }
  }

  method Put(dst: seq<Byte>, f: Field, ghost done: seq<Field>) returns (r: seq<Byte>)
    requires dst == EncodeFields(done)
    ensures r == EncodeFields(done + [f])
  {
    hide Varint, Body;
    EncodeAppend(done, [f]);
    assert [f][1..] == [] && EncodeFields([]) == [];
    assert EncodeFields([f]) == Varint(TagOf(f)) + Body(f);
    r := dst + (Varint(TagOf(f)) + Body(f));
  }

  method PutNumber(dst: seq<Byte>, tag: nat, o: Option<nat>, ghost done: seq<Field>) returns (r: seq<Byte>)
    requires dst == EncodeFields(done)
    ensures r == EncodeFields(done + NumberFields(tag, o))
  {
    hide EncodeFields;
    r := dst;
    if o.Some? {
      r := Put(dst, NumberField(tag, o.value), done);
    } else {
      assert done + [] == done;
    }
  }

  method PutHeader(e: VersionEdit) returns (r: seq<Byte>)
    ensures r == EncodeFields(HeaderFields(e))
  {
    hide NumberFields;
    r := [];
    ghost var done: seq<Field> := [];
    if e.comparator.Some? {
      r := Put(r, Comparator(e.comparator.value), []);
    }
    done := ComparatorFields(e.comparator);
    assert [] + done == done;
    r := PutNumber(r, 2, e.logNumber, done);
    done := done + NumberFields(2, e.logNumber);
    r := PutNumber(r, 9, e.prevLogNumber, done);
    done := done + NumberFields(9, e.prevLogNumber);
    r := PutNumber(r, 3, e.nextFileNumber, done);
    done := done + NumberFields(3, e.nextFileNumber);
    r := PutNumber(r, 4, e.lastSequence, done);
  }

  /** EncodeTo. */
  method EncodeTo(e: VersionEdit) returns (r: seq<Byte>)
    ensures r == Encode(e)
  {
    hide EncodeFields, HeaderFields;
    r := PutHeader(e);
    ghost var h := HeaderFields(e);
    assert h + PointerFields([]) == h && e.pointers[..0] == [];
    for i := 0 to |e.pointers|
      invariant r == EncodeFields(h + PointerFields(e.pointers[..i]))
    {
      ghost var done := PointerFields(e.pointers[..i]);
      assert e.pointers[..i + 1][..i] == e.pointers[..i];
      r := Put(r, CompactPointer(e.pointers[i].0, e.pointers[i].1), h + done);
      assert h + done + [CompactPointer(e.pointers[i].0, e.pointers[i].1)] == h + PointerFields(e.pointers[..i + 1]);
    }
    assert e.pointers[..|e.pointers|] == e.pointers;
    h := h + PointerFields(e.pointers);
    assert h + DeletedFields([]) == h && e.deleted[..0] == [];
    for i := 0 to |e.deleted|
      invariant r == EncodeFields(h + DeletedFields(e.deleted[..i]))
    {
      ghost var done := DeletedFields(e.deleted[..i]);
      assert e.deleted[..i + 1][..i] == e.deleted[..i];
      r := Put(r, DeletedFile(e.deleted[i].0, e.deleted[i].1), h + done);
      assert h + done + [DeletedFile(e.deleted[i].0, e.deleted[i].1)] == h + DeletedFields(e.deleted[..i + 1]);
    }
    assert e.deleted[..|e.deleted|] == e.deleted;
    h := h + DeletedFields(e.deleted);
    assert h + AddedFields([]) == h && e.added[..0] == [];
    for i := 0 to |e.added|
      invariant r == EncodeFields(h + AddedFields(e.added[..i]))
    {
      ghost var done := AddedFields(e.added[..i]);
      assert e.added[..i + 1][..i] == e.added[..i];
      r := Put(r, NewFile(e.added[i].0, e.added[i].1), h + done);
      assert h + done + [NewFile(e.added[i].0, e.added[i].1)] == h + AddedFields(e.added[..i + 1]);
    }
    assert e.added[..|e.added|] == e.added;
  }

  /** DecodeFrom: Clear, then one field at a time. */
  method DecodeFrom(src: seq<Byte>) returns (r: Option<VersionEdit>)
    ensures r == Decode(src, CLEAR)
  {
    hide GetVarint32, DecodeBody, Apply;
    var input, e := src, CLEAR;
    while true
      invariant Decode(input, e) == Decode(src, CLEAR)
      decreases |input|
    {
      var t := GetVarint32(input);
      if t.None? {
        return if input == [] then Some(e) else None;
      }
      var d := DecodeBody(t.value.0, t.value.1);
      if d.None? {
        return None;
      }
      input, e := d.value.1, Apply(e, d.value.0);
    }
  }

  // ----- a whole manifest

  function EncodeAll(edits: seq<VersionEdit>): seq<seq<Byte>> {
    if edits == [] then [] else [Encode(edits[0])] + EncodeAll(edits[1..])
  }

  /** Each record decoded into a fresh edit; None if any is corrupt. */
  function DecodeAll(records: seq<seq<Byte>>): Option<seq<VersionEdit>> {
    if records == [] then Some([])
    else
      var e, rest := Decode(records[0], CLEAR), DecodeAll(records[1..]);
      if e.Some? && rest.Some? then Some([e.value] + rest.value) else None
  }

  lemma {:induction false} EditsRoundTrip(edits: seq<VersionEdit>)
    requires forall e :: e in edits ==> EditOk(e)
    ensures DecodeAll(EncodeAll(edits)) == Some(edits)
  {
    hide Encode, Decode, EditOk;
    if edits != [] {
      assert edits[0] in edits;
      EditRoundTrip(edits[0]);
      EditsRoundTrip(edits[1..]);
      assert EncodeAll(edits)[1..] == EncodeAll(edits[1..]) && [edits[0]] + edits[1..] == edits;
    }
  }

  /** A manifest reads back as the edits that were logged, without a report. */
  lemma ManifestRoundTrip(edits: seq<VersionEdit>)
    requires forall e :: e in edits ==> EditOk(e)
    ensures var all := ReadAll(Records(0, EncodeAll(edits)), 0);
            all.reports == 0 && DecodeAll(all.records) == Some(edits)
  {
    hide ReadAll, Records, DecodeAll, EncodeAll, EditOk;
    LogRoundTrip(EncodeAll(edits));
    EditsRoundTrip(edits);
  }
}
