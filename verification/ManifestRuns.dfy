/** The manifest of a run: the edits that LogAndApply appended since the last opening
    meet the condition of the replay, so recovering them gives the version, also from
    the bytes of the manifest (VersionSet::LogAndApply, WriteSnapshot, Recover). */
module ManifestRuns {
  import opened Format
  import opened Version
  import opened Lsm
  import opened LsmLevels
  import opened Builder
  import opened ManifestReplay
  import opened DbImpl
  import Bytes
  import Manifest
  import LogFormat
  import LogReader

  // ----- edits, level by level

  function AtLevels(edits: seq<VersionEdit>, l: nat): (r: seq<LevelEdit>)
    ensures |r| == |edits|
  {
    if edits == [] then [] else AtLevels(edits[..|edits| - 1], l) + [AtLevel(edits[|edits| - 1], l)]
  }

  ghost function AddedBy(edit: VersionEdit): set<File> {
    set i | 0 <= i < |edit.added| :: edit.added[i].1
  }

  ghost function AllFiles(edits: seq<VersionEdit>): set<File> {
    if edits == [] then {} else AllFiles(edits[..|edits| - 1]) + AddedBy(edits[|edits| - 1])
  }

  lemma {:induction false} AddsAtMembers(added: seq<(nat, File)>, l: nat)
    ensures forall f :: f in AddsAt(added, l) <==> (l, f) in added
  {
    if added != [] {
      var init, last := added[..|added| - 1], added[|added| - 1];
      assert added == init + [last];
      AddsAtMembers(init, l);
    }
  }

  lemma {:induction false} FilesAtLevel(edits: seq<VersionEdit>, l: nat)
    ensures FilesOf([], AtLevels(edits, l)) <= AllFiles(edits)
  {
    if edits != [] {
      var init, last := edits[..|edits| - 1], edits[|edits| - 1];
      FilesAtLevel(init, l);
      AddsAtMembers(last.added, l);
      var es := AtLevels(edits, l);
      assert es[..|es| - 1] == AtLevels(init, l) && es[|es| - 1] == AtLevel(last, l);
      forall f | f in AtLevel(last, l).adds
        ensures f in AddedBy(last)
      {
        var i :| 0 <= i < |last.added| && last.added[i] == (l, f);
      }
    }
  }

  // ----- what a manifest keeps

  /** The version that each edit leads to is what the levels are, and each number in the
      manifest stands for one file. */
  ghost predicate ManifestOk(edits: seq<VersionEdit>, levels: seq<seq<File>>, nextFile: nat) {
    && |levels| == NUM_LEVELS
    && (forall l :: 0 <= l < NUM_LEVELS ==> LevelReplayed(edits, l, levels[l]))
    && OneNameEach(AllFiles(edits)) && (forall f :: f in AllFiles(edits) ==> f.number < nextFile)
    && (forall l, f :: At(levels, l, f) ==> f in AllFiles(edits))
  }

  ghost predicate LevelReplayed(edits: seq<VersionEdit>, l: nat, files: seq<File>) {
    VersionPerEdit([], AtLevels(edits, l)) == files && AddsNew([], AtLevels(edits, l))
  }

  /** One level of an edit leads from one list of files to another. */
  ghost predicate Leads(e: LevelEdit, base: seq<File>, gone: seq<File>, files: seq<File>) {
    EditFits(base, e, gone) && Updated(base, gone, e.adds, files)
  }

  lemma LevelAppended(edits: seq<VersionEdit>, edit: VersionEdit, l: nat, base: seq<File>, gone: seq<File>,
                      files: seq<File>)
    requires LevelReplayed(edits, l, base) && Leads(AtLevel(edit, l), base, gone, files)
    ensures LevelReplayed(edits + [edit], l, files)
  {
    hide Leads, VersionPerEdit, AddsNew;
    AtLevelsAppend(edits, edit, l);
    PerEditAppend(AtLevels(edits, l), AtLevel(edit, l));
    LeadsTo(AtLevel(edit, l), base, gone, files);
  }

  lemma AtLevelsAppend(edits: seq<VersionEdit>, edit: VersionEdit, l: nat)
    ensures AtLevels(edits + [edit], l) == AtLevels(edits, l) + [AtLevel(edit, l)]
  {
    hide AtLevel;
    var more := edits + [edit];
    assert more[..|more| - 1] == edits;
  }

  lemma PerEditAppend(es: seq<LevelEdit>, e: LevelEdit)
    ensures VersionPerEdit([], es + [e]) == SaveLevel(VersionPerEdit([], es), ApplyLevel(EMPTY, e))
    ensures AddsNew([], es) && Numbers(e.adds) !! Numbers(VersionPerEdit([], es)) ==> AddsNew([], es + [e])
  {
    hide SaveLevel, ApplyLevel;
    assert (es + [e])[..|es|] == es;
    assert Numbers([]) == {};
  }

  lemma LeadsTo(e: LevelEdit, base: seq<File>, gone: seq<File>, files: seq<File>)
    requires Leads(e, base, gone, files)
    ensures SaveLevel(base, ApplyLevel(EMPTY, e)) == files && Numbers(e.adds) !! Numbers(base)
  {
    hide SaveLevel, ApplyLevel, InOrder;
    LevelUpdated(base, e, gone);
    OrderDetermines(SaveLevel(base, ApplyLevel(EMPTY, e)), files);
  }

  lemma AppendedOk(edits: seq<VersionEdit>, edit: VersionEdit, levels: seq<seq<File>>, nextFile: nat,
                   from: nat, in0: seq<File>, in1: seq<File>, levels': seq<seq<File>>, nextFile': nat)
    requires ManifestOk(edits, levels, nextFile) && nextFile <= nextFile' && |levels'| == NUM_LEVELS
    requires forall l :: 0 <= l < NUM_LEVELS ==>
              Leads(AtLevel(edit, l), levels[l], GoneAt(from, in0, in1, l), levels'[l])
    requires OneNameEach(AllFiles(edits) + AddedBy(edit)) && forall f :: f in AddedBy(edit) ==> f.number < nextFile'
    ensures ManifestOk(edits + [edit], levels', nextFile')
  {
    hide EditFits, LevelReplayed, OneNameEach;
    var more := edits + [edit];
    assert more[..|more| - 1] == edits;
    forall l | 0 <= l < NUM_LEVELS
      ensures LevelReplayed(more, l, levels'[l])
      ensures forall f :: f in levels'[l] ==> f in AllFiles(more)
    {
      LevelAppended(edits, edit, l, levels[l], GoneAt(from, in0, in1, l), levels'[l]);
      AddsAtMembers(edit.added, l);
      forall f | f in levels'[l]
        ensures f in AllFiles(more)
      {
        if f in levels[l] {
          assert At(levels, l, f);
        } else {
          var i :| 0 <= i < |edit.added| && edit.added[i] == (l, f);
          assert f in AddedBy(edit);
        }
      }
    }
  }

  lemma AddedByTagged(deleted: set<(nat, nat)>, level: nat, files: seq<File>)
    ensures AddedBy(VersionEdit(deleted, Tagged(level, files))) == FileSet(files)
  {
    var edit := VersionEdit(deleted, Tagged(level, files));
    forall f | f in files
      ensures f in AddedBy(edit)
    {
      var i :| 0 <= i < |files| && files[i] == f;
      assert edit.added[i].1 == f;
    }
  }

  /** Files with new numbers, one each, get names of their own. */
  lemma NewNames(old': set<File>, nextFile: nat, files: seq<File>)
    requires OneNameEach(old') && (forall f :: f in old' ==> f.number < nextFile)
    requires DistinctNumbers(files) && forall f :: f in files ==> f.number >= nextFile
    ensures OneNameEach(old' + FileSet(files))
  {
    DistinctIsNamed(files);
  }

  lemma NothingChanges(files: seq<File>)
    requires InOrder(files)
    ensures Leads(LevelEdit({}, []), files, [], files)
  {
  }

  // ----- steps

  const NONE := VersionEdit({}, [])

  lemma NoneAt(l: nat)
    ensures AtLevel(NONE, l) == LevelEdit({}, [])
  {
  }

  lemma FlushAppends(s: State, edits: seq<VersionEdit>, level: nat, size: nat, s': State)
    requires BaseInv(s) && Next(s, Flush(level, size), s') && ManifestOk(edits, s.db.levels, s.db.nextFile)
    ensures ManifestOk(edits + [FlushEdit(s.db, level, size)], s'.db.levels, s'.db.nextFile)
  {
    hide ManifestOk, OneNameEach, EditFits, BaseInv;
    var db, edit := s.db, FlushEdit(s.db, level, size);
    FlushKeepsBase(s, level, size, s');
    LevelsOf(s);
    if db.imm.value == [] {
      forall l | 0 <= l < NUM_LEVELS
        ensures Leads(AtLevel(edit, l), db.levels[l], GoneAt(0, [], [], l), s'.db.levels[l])
      {
        NoneAt(l);
        NothingChanges(db.levels[l]);
      }
      assert AddedBy(edit) == {};
      NamesOf(edits, db.levels, db.nextFile, {});
    } else {
      var f := FileOf(db.nextFile, size, db.imm.value);
      forall l | 0 <= l < NUM_LEVELS
        ensures Leads(AtLevel(edit, l), db.levels[l], GoneAt(0, [], [], l), s'.db.levels[l])
      {
        FlushEditAt(db.levels, db.nextFile, f, level, l);
        if l != level {
          NothingChanges(db.levels[l]);
        }
      }
      AddedByTagged({}, level, [f]);
      NewNamesOf(edits, db.levels, db.nextFile, [f]);
    }
    AppendedOk(edits, edit, db.levels, db.nextFile, 0, [], [], s'.db.levels, s'.db.nextFile);
  }

  /** The edit of WriteLevel0Table. */
  function FlushEdit(db: Db, level: nat, size: nat): VersionEdit {
    if ImmEntries(db) == [] then NONE else VersionEdit({}, Tagged(level, [FileOf(db.nextFile, size, ImmEntries(db))]))
  }

  lemma LevelsOf(s: State)
    requires BaseInv(s)
    ensures LevelsOk(s.db.levels, s.db.nextFile) && |s.db.levels| == NUM_LEVELS
    ensures forall l :: 0 <= l < NUM_LEVELS ==> InOrder(s.db.levels[l])
  {
  }

  /** Files that the manifest knows keep their names. */
  lemma NamesOf(edits: seq<VersionEdit>, levels: seq<seq<File>>, nextFile: nat, files: set<File>)
    requires ManifestOk(edits, levels, nextFile) && forall f :: f in files ==> exists l :: At(levels, l, f)
    ensures OneNameEach(AllFiles(edits) + files) && forall f :: f in files ==> f.number < nextFile
  {
    assert AllFiles(edits) + files == AllFiles(edits);
  }

  lemma NewNamesOf(edits: seq<VersionEdit>, levels: seq<seq<File>>, nextFile: nat, files: seq<File>)
    requires ManifestOk(edits, levels, nextFile)
    requires DistinctNumbers(files) && forall f :: f in files ==> f.number >= nextFile
    ensures OneNameEach(AllFiles(edits) + FileSet(files))
  {
    NewNames(AllFiles(edits), nextFile, files);
  }

  lemma ReplacedLeads(levels: seq<seq<File>>, nextFile: nat, from: nat, in0: seq<File>, in1: seq<File>, outs: seq<File>,
                      limit: nat, levels': seq<seq<File>>, l: nat)
    requires LevelsOk(levels, nextFile) && from + 1 < NUM_LEVELS && OutsOk(levels, in0 + in1, outs, limit)
             && l < NUM_LEVELS
    requires (forall f :: f in in0 ==> f in levels[from]) && (forall f :: f in in1 ==> f in levels[from + 1])
    requires NoSharedNumber(levels[from + 1], outs) && Replaced(levels, from, in0, in1, outs, levels')
    ensures Leads(AtLevel(MoveEdit(from, in0, in1, outs), l), levels[l], GoneAt(from, in0, in1, l), levels'[l])
  {
    hide EditFits, OutsOk;
    MoveEditFits(levels, nextFile, from, in0, in1, outs, limit);
    MoveEditAt(levels, from, in0, in1, outs, l);
  }

  lemma MoveAppends(s: State, edits: seq<VersionEdit>, from: nat, f: File, s': State)
    requires BaseInv(s) && Next(s, TrivialMove(from, f), s') && ManifestOk(edits, s.db.levels, s.db.nextFile)
    ensures ManifestOk(edits + [MoveEdit(from, [f], [], [f])], s'.db.levels, s'.db.nextFile)
  {
    hide ManifestOk, OneNameEach, OutsOk, BaseInv, Leads, LevelsOk;
    var db := s.db;
    MoveKeepsBase(s, from, f, s');
    LevelsOf(s);
    assert f in [f] && At(db.levels, from, f) && [f] + [] == [f];
    NotBelow(db.levels, db.nextFile, from, f);
    forall l | 0 <= l < NUM_LEVELS
      ensures Leads(AtLevel(MoveEdit(from, [f], [], [f]), l), db.levels[l], GoneAt(from, [f], [], l), s'.db.levels[l])
    {
      ReplacedLeads(db.levels, db.nextFile, from, [f], [], [f], db.nextFile, s'.db.levels, l);
    }
    AddedByTagged(DeletionsOf(from, [f]) + DeletionsOf(from + 1, []), from + 1, [f]);
    NamesOf(edits, db.levels, db.nextFile, FileSet([f]));
    AppendedOk(edits, MoveEdit(from, [f], [], [f]), db.levels, db.nextFile, from, [f], [], s'.db.levels,
               s'.db.nextFile);
  }

  lemma NotBelow(levels: seq<seq<File>>, nextFile: nat, from: nat, f: File)
    requires LevelsOk(levels, nextFile) && from + 1 < NUM_LEVELS && At(levels, from, f)
    ensures NoSharedNumber(levels[from + 1], [f])
  {
    var below := from + 1;
    assert forall g :: g in levels[below] ==> At(levels, below, g);
  }

  lemma CompactAppends(s: State, edits: seq<VersionEdit>, step: Step, s': State)
    requires BaseInv(s) && step.Compact? && Next(s, step, s') && ManifestOk(edits, s.db.levels, s.db.nextFile)
    ensures ManifestOk(edits + [MoveEdit(step.from, step.in0, step.in1, step.outs)], s'.db.levels, s'.db.nextFile)
  {
    hide ManifestOk, OneNameEach, BaseInv, Leads, Next, AddedBy, FileSet, DistinctNumbers;
    var db, edit := s.db, MoveEdit(step.from, step.in0, step.in1, step.outs);
    CompactLeads(s, step, s');
    AddedByTagged(edit.deleted, step.from + 1, step.outs);
    NewNamesOf(edits, db.levels, db.nextFile, step.outs);
    InFileSet(step.outs);
    AppendedOk(edits, edit, db.levels, db.nextFile, step.from, step.in0, step.in1, s'.db.levels, s'.db.nextFile);
  }

  lemma InFileSet(files: seq<File>)
    ensures forall f :: f in FileSet(files) <==> f in files
  {
  }

  lemma CompactLeads(s: State, step: Step, s': State)
    requires BaseInv(s) && step.Compact? && Next(s, step, s')
    ensures |s.db.levels| == NUM_LEVELS == |s'.db.levels| && s.db.nextFile <= s'.db.nextFile
    ensures forall l :: 0 <= l < NUM_LEVELS ==>
              Leads(AtLevel(MoveEdit(step.from, step.in0, step.in1, step.outs), l), s.db.levels[l],
                    GoneAt(step.from, step.in0, step.in1, l), s'.db.levels[l])
    ensures DistinctNumbers(step.outs) && forall f :: f in step.outs ==> s.db.nextFile <= f.number < s'.db.nextFile
  {
    hide OutsOk, BaseInv, IsCompaction, Leads, LevelsOk, DistinctNumbers;
    var db := s.db;
    CompactKeepsBase(s, step, s');
    LevelsOf(s);
    NewOuts(db.levels, db.nextFile, step.from, step.outs, s'.db.nextFile);
    forall l | 0 <= l < NUM_LEVELS
      ensures Leads(AtLevel(MoveEdit(step.from, step.in0, step.in1, step.outs), l), db.levels[l],
                    GoneAt(step.from, step.in0, step.in1, l), s'.db.levels[l])
    {
      ReplacedLeads(db.levels, db.nextFile, step.from, step.in0, step.in1, step.outs, s'.db.nextFile, s'.db.levels, l);
    }
  }

  lemma NewOuts(levels: seq<seq<File>>, nextFile: nat, from: nat, outs: seq<File>, limit: nat)
    requires LevelsOk(levels, nextFile) && from + 1 < NUM_LEVELS && NumbersFrom(outs, nextFile, limit)
    ensures NoSharedNumber(levels[from + 1], outs) && DistinctNumbers(outs)
    ensures forall f :: f in outs ==> nextFile <= f.number < limit
  {
    var below := from + 1;
    assert forall g :: g in levels[below] ==> At(levels, below, g);
  }

  // ----- a new manifest

  /** WriteSnapshot: all files of the version. */
  function SnapshotAdds(levels: seq<seq<File>>, n: nat): seq<(nat, File)>
    requires n <= |levels|
  {
    if n == 0 then [] else SnapshotAdds(levels, n - 1) + Tagged(n - 1, levels[n - 1])
  }

  lemma {:induction false} AddsAtAppend(a: seq<(nat, File)>, b: seq<(nat, File)>, l: nat)
    ensures AddsAt(a + b, l) == AddsAt(a, l) + AddsAt(b, l)
    decreases |b|
  {
    if b == [] {
      assert a + b == a;
    } else {
      assert (a + b)[..|a + b| - 1] == a + b[..|b| - 1];
      AddsAtAppend(a, b[..|b| - 1], l);
    }
  }

  lemma NoFiles()
    ensures Tagged(0, []) == []
  {
  }

  lemma {:induction false} SnapshotAt(levels: seq<seq<File>>, n: nat, l: nat)
    requires n <= |levels| && l < |levels|
    ensures AddsAt(SnapshotAdds(levels, n), l) == if l < n then levels[l] else []
  {
    hide AddsAt, Tagged;
    if n == 0 {
      AddsOfTagged(0, [], l);
      NoFiles();
    } else {
      SnapshotAt(levels, n - 1, l);
      AddsAtAppend(SnapshotAdds(levels, n - 1), Tagged(n - 1, levels[n - 1]), l);
      AddsOfTagged(n - 1, levels[n - 1], l);
    }
  }

  lemma {:induction false} SnapshotFiles(levels: seq<seq<File>>, n: nat, i: nat)
    requires n <= |levels| && i < |SnapshotAdds(levels, n)|
    ensures var p := SnapshotAdds(levels, n)[i]; p.0 < n && p.1 in levels[p.0]
  {
    var before := SnapshotAdds(levels, n - 1);
    if i < |before| {
      SnapshotFiles(levels, n - 1, i);
    }
  }

  function SnapshotEdit(levels: seq<seq<File>>): VersionEdit {
    VersionEdit({}, SnapshotAdds(levels, |levels|))
  }

  lemma OneListing(levels: seq<seq<File>>, nextFile: nat, l: nat)
    requires LevelsOk(levels, nextFile) && l < NUM_LEVELS
    ensures DistinctNumbers(levels[l])
  {
    forall i, j | 0 <= i < j < |levels[l]|
      ensures levels[l][i].number != levels[l][j].number
    {
      assert BySmallest(levels[l][i], levels[l][j]);
      assert At(levels, l, levels[l][i]) && At(levels, l, levels[l][j]);
    }
  }

  const NO_FILES := INIT.db.levels

  lemma EmptyManifest()
    ensures ManifestOk([], NO_FILES, 0)
  {
    assert forall l, f :: !At(NO_FILES, l, f);
  }

  /** A manifest that starts with a snapshot of the version. */
  lemma SnapshotOk(levels: seq<seq<File>>, nextFile: nat, first: nat)
    requires LevelsOk(levels, nextFile) && forall l, f :: At(levels, l, f) ==> f.number < first
    ensures |levels| == NUM_LEVELS && ManifestOk([SnapshotEdit(levels)], levels, first)
  {
    assert |levels| == NUM_LEVELS;
    hide ManifestOk, OneNameEach, Leads, LevelsOk, AddedBy;
    var edit := SnapshotEdit(levels);
    EmptyManifest();
    forall l | 0 <= l < NUM_LEVELS
      ensures Leads(AtLevel(edit, l), NO_FILES[l], GoneAt(0, [], [], l), levels[l])
    {
      SnapshotLeads(levels, nextFile, l);
    }
    SnapshotNames(levels, nextFile);
    assert AllFiles([]) + AddedBy(edit) == AddedBy(edit);
    AppendedOk([], edit, NO_FILES, 0, 0, [], [], levels, first);
    assert [] + [edit] == [edit];
  }

  lemma SnapshotLeads(levels: seq<seq<File>>, nextFile: nat, l: nat)
    requires LevelsOk(levels, nextFile) && l < NUM_LEVELS
    ensures Leads(AtLevel(SnapshotEdit(levels), l), [], [], levels[l])
  {
    hide SnapshotAdds;
    SnapshotAt(levels, |levels|, l);
    OneListing(levels, nextFile, l);
    assert NumbersAt({}, l) == {};
  }

  lemma SnapshotNames(levels: seq<seq<File>>, nextFile: nat)
    requires LevelsOk(levels, nextFile)
    ensures OneNameEach(AddedBy(SnapshotEdit(levels)))
    ensures forall f :: f in AddedBy(SnapshotEdit(levels)) ==> exists l :: At(levels, l, f)
  {
    hide OneNameEach;
    var edit := SnapshotEdit(levels);
    forall f | f in AddedBy(edit)
      ensures exists l :: At(levels, l, f)
    {
      var i :| 0 <= i < |edit.added| && edit.added[i].1 == f;
      SnapshotFiles(levels, |levels|, i);
      assert At(levels, edit.added[i].0, f);
    }
    NumbersName(levels, AddedBy(edit));
  }

  lemma NumbersName(levels: seq<seq<File>>, files: set<File>)
    requires NumbersOnce(levels) && forall f :: f in files ==> exists l :: At(levels, l, f)
    ensures OneNameEach(files)
  {
    forall f, g | f in files && g in files && f.number == g.number
      ensures f == g
    {
      var l :| At(levels, l, f);
      var m :| At(levels, m, g);
    }
  }

  lemma ReopenStarts(s: State, files: seq<File>, first: nat, s': State)
    requires BaseInv(s) && Next(s, Reopen(files, first), s')
    ensures ManifestOk([SnapshotEdit(s.db.levels), VersionEdit({}, Tagged(0, files))], s'.db.levels, s'.db.nextFile)
  {
    hide ManifestOk, OneNameEach, BaseInv, OldestFirst;
    var levels, edit, snap := s.db.levels, VersionEdit({}, Tagged(0, files)), SnapshotEdit(s.db.levels);
    LevelsOf(s);
    SnapshotOk(levels, s.db.nextFile, first);
    NewTables(levels, files, first, s'.db.nextFile);
    forall l | 0 <= l < NUM_LEVELS
      ensures Leads(AtLevel(edit, l), levels[l], GoneAt(0, [], [], l), s'.db.levels[l])
    {
      AddsOfTagged(0, files, l);
      assert NumbersAt({}, l) == {};
      if l != 0 {
        NothingChanges(levels[l]);
      }
    }
    AddedByTagged({}, 0, files);
    NewNamesOf([snap], levels, first, files);
    AppendedOk([snap], edit, levels, first, 0, [], [], s'.db.levels, s'.db.nextFile);
    assert [snap] + [edit] == [snap, edit];
  }

  lemma NewTables(levels: seq<seq<File>>, files: seq<File>, first: nat, limit: nat)
    requires |levels| == NUM_LEVELS && NumbersFrom(files, first, limit) && forall l, f :: At(levels, l, f) ==>
                                                                            f.number < first
    ensures NoSharedNumber(levels[0], files) && DistinctNumbers(files) && forall f :: f in files ==>
                                                                           first <= f.number < limit
  {
    assert forall g :: g in levels[0] ==> At(levels, 0, g);
  }

  // ----- runs

  /** The records of the manifest in use after `i` steps. */
  ghost function ManifestOf(states: seq<State>, steps: seq<Step>, i: nat): seq<VersionEdit>
    requires i <= |steps| && i < |states|
  {
    if i == 0 then []
    else
      var before, db := ManifestOf(states, steps, i - 1), states[i - 1].db;
      match steps[i - 1]
      case Flush(level, size) => before + [FlushEdit(db, level, size)]
      case TrivialMove(from, f) => before + [MoveEdit(from, [f], [], [f])]
      case Compact(from, in0, in1, _, _, outs) => before + [MoveEdit(from, in0, in1, outs)]
      case Reopen(files, _) => [SnapshotEdit(db.levels), VersionEdit({}, Tagged(0, files))]
      case _ => before
  }

  lemma StepAppends(s: State, edits: seq<VersionEdit>, step: Step, s': State)
    requires BaseInv(s) && Next(s, step, s') && ManifestOk(edits, s.db.levels, s.db.nextFile)
    requires !step.Flush? && !step.TrivialMove? && !step.Compact? && !step.Reopen?
    ensures ManifestOk(edits, s'.db.levels, s'.db.nextFile)
  {
    assert s'.db.levels == s.db.levels && s'.db.nextFile >= s.db.nextFile;
  }

  lemma {:induction false} RunsKeepManifest(states: seq<State>, steps: seq<Step>, i: nat)
    requires IsRun(states, steps) && i < |states|
    ensures ManifestOk(ManifestOf(states, steps, i), states[i].db.levels, states[i].db.nextFile)
  {
    hide ManifestOk, BaseInv, Next;
    if i == 0 {
      EmptyManifest();
      MoreNumbers();
    } else {
      RunsKeepManifest(states, steps, i - 1);
      LevelsStayDisjoint(states, steps, i - 1);
      var s, step, s' := states[i - 1], steps[i - 1], states[i];
      var edits := ManifestOf(states, steps, i - 1);
      match step
      case Flush(level, size) => FlushAppends(s, edits, level, size, s');
      case TrivialMove(from, f) => MoveAppends(s, edits, from, f, s');
      case Compact(_, _, _, _, _, _) => CompactAppends(s, edits, step, s');
      case Reopen(files, first) => ReopenStarts(s, files, first, s');
      case _ => StepAppends(s, edits, step, s');
    }
  }

  lemma MoreNumbers()
    requires ManifestOk([], NO_FILES, 0)
    ensures ManifestOk([], INIT.db.levels, INIT.db.nextFile)
  {
  }

  /** In every state of every run, replaying the manifest through one builder gives the
      files of each level of the version. */
  lemma ManifestGivesVersion(states: seq<State>, steps: seq<Step>, i: nat, l: nat)
    requires IsRun(states, steps) && i < |states| && l < NUM_LEVELS
    ensures |states[i].db.levels| == NUM_LEVELS
    ensures SaveLevel([], OneBuilder(AtLevels(ManifestOf(states, steps, i), l))) == states[i].db.levels[l]
  {
    hide SaveLevel;
    RunsKeepManifest(states, steps, i);
    var edits := ManifestOf(states, steps, i);
    FilesAtLevel(edits, l);
    assert LevelReplayed(edits, l, states[i].db.levels[l]);
    ReplayAgrees([], AtLevels(edits, l));
  }

  // ----- from bytes

  type KeyReader = seq<Bytes.Byte> -> InternalKey

  /** The file that a record of the manifest describes. */
  function FileFrom(m: Manifest.FileMeta, key: KeyReader, table: nat -> seq<Entry>): File {
    File(m.number, m.size, key(m.smallest), key(m.largest), table(m.number))
  }

  function AddedFrom(added: seq<(nat, Manifest.FileMeta)>, key: KeyReader, table: nat -> seq<Entry>): seq<(nat, File)> {
    if added == [] then []
    else
      var p := added[|added| - 1];
      AddedFrom(added[..|added| - 1], key, table) + [(p.0, FileFrom(p.1, key, table))]
  }

  /** The file part of a decoded edit. */
  function EditFrom(e: Manifest.VersionEdit, key: KeyReader, table: nat -> seq<Entry>): VersionEdit {
    VersionEdit((set p | p in e.deleted), AddedFrom(e.added, key, table))
  }

  function EditsFrom(es: seq<Manifest.VersionEdit>, key: KeyReader, table: nat -> seq<Entry>): seq<VersionEdit> {
    if es == [] then [] else EditsFrom(es[..|es| - 1], key, table) + [EditFrom(es[|es| - 1], key, table)]
  }

  /** The bytes of a run's manifest, read and decoded and applied through one builder,
      give the files of each level. */
  lemma RecoverFromBytes(states: seq<State>, steps: seq<Step>, i: nat, l: nat,
                         es: seq<Manifest.VersionEdit>, key: KeyReader, table: nat -> seq<Entry>)
    requires IsRun(states, steps) && i < |states| && l < NUM_LEVELS && (forall e :: e in es ==> Manifest.EditOk(e))
    requires EditsFrom(es, key, table) == ManifestOf(states, steps, i)
    ensures var all := LogReader.ReadAll(LogFormat.Records(0, Manifest.EncodeAll(es)), 0);
            var decoded := Manifest.DecodeAll(all.records);
            && |states[i].db.levels| == NUM_LEVELS && all.reports == 0 && decoded.Some?
            && SaveLevel([], OneBuilder(AtLevels(EditsFrom(decoded.value, key, table), l))) == states[i].db.levels[l]
  {
    hide SaveLevel, Manifest.DecodeAll, Manifest.EncodeAll, LogReader.ReadAll, LogFormat.Records;
    Manifest.ManifestRoundTrip(es);
    ManifestGivesVersion(states, steps, i, l);
  }
}
