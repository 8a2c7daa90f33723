/** Every run has a manifest in bytes: its edits can be encoded, whatever numbers and
    pointers they also record, and the bytes give the version back. */
module ManifestBytes {
  import opened Format
  import opened Version
  import opened Lsm
  import opened LsmLevels
  import opened Builder
  import opened ManifestReplay
  import opened DbImpl
  import opened ManifestRuns
  import opened Coding
  import Bytes
  import Manifest
  import LogFormat
  import LogReader

  type KeyWriter = InternalKey -> seq<Bytes.Byte>

  /** The key is written in a form that reads back and whose length fits. */
  ghost predicate KeyWrites(k: InternalKey, writer: KeyWriter, key: KeyReader) {
    key(writer(k)) == k && |writer(k)| < LIMIT32
  }

  ghost predicate FileWrites(f: File, writer: KeyWriter, key: KeyReader) {
    f.size < LIMIT64 && KeyWrites(f.smallest, writer, key) && KeyWrites(f.largest, writer, key)
  }

  // ----- one edit

  function MetaOf(f: File, writer: KeyWriter): Manifest.FileMeta {
    Manifest.FileMeta(f.number, f.size, writer(f.smallest), writer(f.largest))
  }

  function MetasOf(added: seq<(nat, File)>, writer: KeyWriter): (r: seq<(nat, Manifest.FileMeta)>)
    ensures |r| == |added| && forall i :: 0 <= i < |r| ==> r[i] == (added[i].0, MetaOf(added[i].1, writer))
  {
    if added == [] then []
    else
      var p := added[|added| - 1];
      MetasOf(added[..|added| - 1], writer) + [(p.0, MetaOf(p.1, writer))]
  }

  /** Each file's number names its entries. */
  ghost predicate TableOf(files: set<File>, table: nat -> seq<Entry>) {
    forall f :: f in files ==> table(f.number) == f.entries
  }

  lemma {:induction false} AddedBack(added: seq<(nat, File)>, writer: KeyWriter, key: KeyReader,
                                     table: nat -> seq<Entry>)
    requires forall i :: 0 <= i < |added| ==>
              FileWrites(added[i].1, writer, key) && table(added[i].1.number) == added[i].1.entries
    ensures AddedFrom(MetasOf(added, writer), key, table) == added
  {
    if added != [] {
      var init, last := added[..|added| - 1], added[|added| - 1];
      AddedBack(init, writer, key, table);
      var metas := MetasOf(added, writer);
      assert metas[..|metas| - 1] == MetasOf(init, writer);
      assert FileFrom(MetaOf(last.1, writer), key, table) == last.1;
      assert added == init + [last];
    }
  }

  lemma {:induction false} InsertPairSorted(s: seq<(nat, nat)>, p: (nat, nat))
    requires Manifest.SortedPairs(s)
    ensures Manifest.SortedPairs(Manifest.InsertPair(s, p))
    ensures forall q :: q in Manifest.InsertPair(s, p) <==> q in s || q == p
  {
    if s != [] && !Manifest.PairLess(p, s[0]) && Manifest.PairLess(s[0], p) {
      InsertPairSorted(s[1..], p);
      var rest := Manifest.InsertPair(s[1..], p);
      assert s == [s[0]] + s[1..];
      forall q | q in rest
        ensures Manifest.PairLess(s[0], q)
      {
        assert q in s[1..] ==> exists i :: 1 <= i < |s| && s[i] == q;
      }
    }
  }

  /** The deleted files in the order of the set that EncodeTo walks. */
  lemma {:induction false} SortedListing(deleted: set<(nat, nat)>) returns (ds: seq<(nat, nat)>)
    ensures Manifest.SortedPairs(ds) && forall q :: q in ds <==> q in deleted
  {
    ds := [];
    if deleted != {} {
      var p :| p in deleted;
      var rest := SortedListing(deleted - {p});
      InsertPairSorted(rest, p);
      ds := Manifest.InsertPair(rest, p);
    }
  }

  /** Levels exist and numbers fit. */
  ghost predicate EditFitsBytes(e: VersionEdit, limit: nat) {
    && (forall p :: p in e.deleted ==> p.0 < NUM_LEVELS && p.1 < limit)
    && (forall i :: 0 <= i < |e.added| ==> e.added[i].0 < NUM_LEVELS && e.added[i].1.number < limit)
  }

  lemma {:induction false} DeletedFieldsOk(ds: seq<(nat, nat)>)
    requires forall p :: p in ds ==> p.0 < NUM_LEVELS && p.1 < LIMIT64
    ensures forall f :: f in Manifest.DeletedFields(ds) ==> Manifest.FieldOk(f)
  {
    if ds != [] {
      assert ds[|ds| - 1] in ds;
      DeletedFieldsOk(ds[..|ds| - 1]);
    }
  }

  lemma {:induction false} AddedFieldsOk(fs: seq<(nat, Manifest.FileMeta)>)
    requires forall i :: 0 <= i < |fs| ==> Manifest.FieldOk(Manifest.NewFile(fs[i].0, fs[i].1))
    ensures forall f :: f in Manifest.AddedFields(fs) ==> Manifest.FieldOk(f)
  {
    if fs != [] {
      AddedFieldsOk(fs[..|fs| - 1]);
    }
  }

  /** The same edit but for its files. */
  function OnlyHeader(e: Manifest.VersionEdit): Manifest.VersionEdit {
    e.(deleted := [], added := [])
  }

  /** Whatever else it records, an edit of files can be encoded. */
  lemma EditEncodes(e: VersionEdit, header: Manifest.VersionEdit, writer: KeyWriter, key: KeyReader,
                    table: nat -> seq<Entry>) returns (r: Manifest.VersionEdit)
    requires EditFitsBytes(e, LIMIT64) && Manifest.EditOk(header) && TableOf(AddedBy(e), table)
    requires forall f :: f in AddedBy(e) ==> FileWrites(f, writer, key)
    ensures Manifest.EditOk(r) && EditFrom(r, key, table) == e && OnlyHeader(r) == OnlyHeader(header)
  {
    var ds := SortedListing(e.deleted);
    var fs := MetasOf(e.added, writer);
    r := header.(deleted := ds, added := fs);
    assert forall i :: 0 <= i < |e.added| ==> e.added[i].1 in AddedBy(e);
    assert (set p | p in ds) == e.deleted;
    DeletedFieldsOk(ds);
    AddedFieldsOk(fs);
    HeaderStays(header, r);
    AddedBack(e.added, writer, key, table);
  }

  lemma HeaderStays(header: Manifest.VersionEdit, r: Manifest.VersionEdit)
    requires Manifest.EditOk(header) && OnlyHeader(r) == OnlyHeader(header) && Manifest.SortedPairs(r.deleted)
    requires forall f :: f in Manifest.DeletedFields(r.deleted) ==> Manifest.FieldOk(f)
    requires forall f :: f in Manifest.AddedFields(r.added) ==> Manifest.FieldOk(f)
    ensures Manifest.EditOk(r)
  {
    hide Manifest.DeletedFields, Manifest.AddedFields, Manifest.PointerFields, Manifest.HeaderFields, Manifest.FieldOk;
    assert OnlyHeader(r).pointers == r.pointers && OnlyHeader(header).pointers == header.pointers;
    SameHeader(r);
    SameHeader(header);
    forall f | f in Manifest.FieldsOf(r)
      ensures Manifest.FieldOk(f)
    {
      assert f in Manifest.HeaderFields(r) ==> f in Manifest.FieldsOf(header);
      assert f in Manifest.PointerFields(r.pointers) ==> f in Manifest.FieldsOf(header);
    }
  }

  lemma SameHeader(e: Manifest.VersionEdit)
    ensures Manifest.HeaderFields(e) == Manifest.HeaderFields(OnlyHeader(e))
  {
  }

  // ----- all edits of a run

  /** Edits name existing levels and numbers handed out. */
  lemma {:induction false} ManifestFits(states: seq<State>, steps: seq<Step>, i: nat, limit: nat)
    requires IsRun(states, steps) && i < |states| && forall j :: 0 <= j <= i ==> states[j].db.nextFile <= limit
    ensures forall e :: e in ManifestOf(states, steps, i) ==> EditFitsBytes(e, limit)
  {
    hide EditFitsBytes, BaseInv, Next;
    if i > 0 {
      ManifestFits(states, steps, i - 1, limit);
      LevelsStayDisjoint(states, steps, i - 1);
      LevelsStayDisjoint(states, steps, i);
      var s, step, s' := states[i - 1], steps[i - 1], states[i];
      match step
      case Flush(level, size) => FlushFits(s, level, size, s', limit);
      case TrivialMove(from, f) => MoveFits(s, from, f, s', limit);
      case Compact(_, _, _, _, _, _) => CompactFits(s, step, s', limit);
      case Reopen(files, first) => ReopenFits(s, files, first, s', limit);
      case _ =>
    }
  }

  lemma FlushFits(s: State, level: nat, size: nat, s': State, limit: nat)
    requires BaseInv(s) && Next(s, Flush(level, size), s') && s'.db.nextFile <= limit
    ensures EditFitsBytes(FlushEdit(s.db, level, size), limit)
  {
  }

  lemma MoveFits(s: State, from: nat, f: File, s': State, limit: nat)
    requires BaseInv(s) && Next(s, TrivialMove(from, f), s') && s'.db.nextFile <= limit
    ensures EditFitsBytes(MoveEdit(from, [f], [], [f]), limit)
  {
    assert f in [f] && At(s.db.levels, from, f);
  }

  lemma CompactFits(s: State, step: Step, s': State, limit: nat)
    requires step.Compact? && BaseInv(s) && Next(s, step, s') && s'.db.nextFile <= limit
    ensures EditFitsBytes(MoveEdit(step.from, step.in0, step.in1, step.outs), limit)
  {
    hide IsCompaction, FileOk, InOrder, Disjoint, Replaced;
    assert forall f :: f in step.in0 ==> At(s.db.levels, step.from, f);
    assert forall f :: f in step.in1 ==> At(s.db.levels, step.from + 1, f);
  }

  lemma ReopenFits(s: State, files: seq<File>, first: nat, s': State, limit: nat)
    requires BaseInv(s) && Next(s, Reopen(files, first), s') && s'.db.nextFile <= limit
    ensures EditFitsBytes(SnapshotEdit(s.db.levels), limit) && EditFitsBytes(VersionEdit({}, Tagged(0, files)), limit)
  {
    hide FileOk, InOrder, Disjoint, OldestFirst;
    var edit := SnapshotEdit(s.db.levels);
    forall i | 0 <= i < |edit.added|
      ensures edit.added[i].0 < NUM_LEVELS && edit.added[i].1.number < limit
    {
      SnapshotFiles(s.db.levels, |s.db.levels|, i);
      assert At(s.db.levels, edit.added[i].0, edit.added[i].1);
    }
  }

  lemma {:induction false} AddedInAll(edits: seq<VersionEdit>, e: VersionEdit)
    requires e in edits
    ensures AddedBy(e) <= AllFiles(edits)
  {
    var init, last := edits[..|edits| - 1], edits[|edits| - 1];
    assert edits == init + [last];
    if e in init {
      AddedInAll(init, e);
    }
  }

  ghost predicate EditsEncode(es: seq<Manifest.VersionEdit>, headers: seq<Manifest.VersionEdit>,
                              edits: seq<VersionEdit>, key: KeyReader, table: nat -> seq<Entry>) {
    && |es| == |headers| && (forall e :: e in es ==> Manifest.EditOk(e))
    && (forall j :: 0 <= j < |es| ==> OnlyHeader(es[j]) == OnlyHeader(headers[j]))
    && EditsFrom(es, key, table) == edits
  }

  lemma {:induction false} EditsCanEncode(edits: seq<VersionEdit>, headers: seq<Manifest.VersionEdit>,
                                          writer: KeyWriter, key: KeyReader, table: nat -> seq<Entry>)
      returns (es: seq<Manifest.VersionEdit>)
    requires |headers| == |edits| && (forall h :: h in headers ==> Manifest.EditOk(h))
    requires forall e :: e in edits ==> EditFitsBytes(e, LIMIT64)
    requires TableOf(AllFiles(edits), table) && forall f :: f in AllFiles(edits) ==> FileWrites(f, writer, key)
    ensures EditsEncode(es, headers, edits, key, table)
  {
    hide EditFitsBytes, FileWrites, Manifest.EditOk, OnlyHeader, EditFrom;
    es := [];
    if edits != [] {
      var n := |edits| - 1;
      var init, last := edits[..n], edits[n];
      assert last in edits && headers[n] in headers && edits == init + [last];
      AddedInAll(edits, last);
      var rest := EditsCanEncode(init, headers[..n], writer, key, table);
      var r := EditEncodes(last, headers[n], writer, key, table);
      es := rest + [r];
      assert es[..n] == rest;
    }
  }

  lemma NamesGiveTable(files: set<File>) returns (table: nat -> seq<Entry>)
    requires OneNameEach(files)
    ensures TableOf(files, table)
  {
    table := n => if exists f :: f in files && f.number == n then
                    var f :| f in files && f.number == n; f.entries
                  else [];
  }

  /** Every run's manifest can be written, with any other contents of its records; and
      its bytes, read, decoded and applied through one builder, give the version. */
  lemma RunRecoversFromBytes(states: seq<State>, steps: seq<Step>, i: nat, headers: seq<Manifest.VersionEdit>,
                             writer: KeyWriter, key: KeyReader)
      returns (es: seq<Manifest.VersionEdit>, table: nat -> seq<Entry>)
    requires IsRun(states, steps) && i < |states| && forall j :: 0 <= j <= i ==> states[j].db.nextFile <= LIMIT64
    requires var edits := ManifestOf(states, steps, i);
             && |headers| == |edits| && (forall h :: h in headers ==> Manifest.EditOk(h))
             && forall f :: f in AllFiles(edits) ==> FileWrites(f, writer, key)
    ensures EditsEncode(es, headers, ManifestOf(states, steps, i), key, table)
    ensures TableOf(AllFiles(ManifestOf(states, steps, i)), table)
    ensures var all := LogReader.ReadAll(LogFormat.Records(0, Manifest.EncodeAll(es)), 0);
            && |states[i].db.levels| == NUM_LEVELS && all.reports == 0 && Manifest.DecodeAll(all.records) == Some(es)
            && forall l :: 0 <= l < NUM_LEVELS ==>
                 SaveLevel([], OneBuilder(AtLevels(EditsFrom(es, key, table), l))) == states[i].db.levels[l]
  {
    hide SaveLevel, Manifest.DecodeAll, Manifest.EncodeAll, LogReader.ReadAll, LogFormat.Records, FileWrites;
    hide Manifest.EditOk, EditFitsBytes, ManifestOf, OnlyHeader;
    var edits := ManifestOf(states, steps, i);
    RunsKeepManifest(states, steps, i);
    ManifestFits(states, steps, i, LIMIT64);
    table := NamesGiveTable(AllFiles(edits));
    es := EditsCanEncode(edits, headers, writer, key, table);
    Manifest.ManifestRoundTrip(es);
    forall l | 0 <= l < NUM_LEVELS
      ensures SaveLevel([], OneBuilder(AtLevels(EditsFrom(es, key, table), l))) == states[i].db.levels[l]
    {
      ManifestGivesVersion(states, steps, i, l);
    }
  }
}
